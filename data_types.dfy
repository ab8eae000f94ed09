/** The data-type dispatcher of opsml/registry/data/types.py: the tag set
    `AllowedDataType`, `get_class_name` and `check_data_type`, which tries its
    checks in a fixed order and returns the tag of the first that holds. */
module DataTypes {
  import opened Wrappers
  import Strings

  /** A Python class as `get_class_name` reads it: `__module__` and
      `__qualname__`. */
  datatype PyClass = PyClass(moduleName: string, qualname: string)

  /** An object handed to `check_data_type`: its class, and the outcome of
      each `isinstance` test the dispatcher makes. The tests are independent
      flags because one object may pass several of them (a subclass of two
      library types, say). */
  datatype DataObject = DataObject(
    cls: PyClass,
    isDict: bool,
    isImageDataset: bool,
    isNdarray: bool,
    isPandasFrame: bool,
    isPolarsFrame: bool,
    isArrowTable: bool,
    isStr: bool)

  datatype AllowedDataType =
    | Pandas | PyArrow | Polars | Numpy | Image | Dict | Sql | Profile
    | TransformerBatch | String | TorchTensor | TensorflowTensor
  {
    /** The enum member's string value. */
    function Value(): string
    {
      match this
      case Pandas => "pandas.core.frame.DataFrame"
      case PyArrow => "pyarrow.lib.Table"
      case Polars => "polars.dataframe.frame.DataFrame"
      case Numpy => "numpy.ndarray"
      case Image => "ImageDataset"
      case Dict => "dict"
      case Sql => "sql"
      case Profile => "profile"
      case TransformerBatch => "transformers.tokenization_utils_base.BatchEncoding"
      case String => "str"
      case TorchTensor => "torch.Tensor"
      case TensorflowTensor => "tensorflow.python.framework.ops.EagerTensor"
    }
  }

  /** `get_class_name`: the qualified name, without the `builtins.` prefix
      for builtin classes. */
  function GetClassName(c: PyClass): (name: string)
    ensures |c.qualname| <= |name| && name[|name| - |c.qualname|..] == c.qualname
    ensures c.moduleName == "builtins" ==> |name| == |c.qualname|
    ensures c.moduleName != "builtins" ==>
      |name| == |c.moduleName| + 1 + |c.qualname| && name[..|c.moduleName|] == c.moduleName && name[|c.moduleName|] == '.'
  {
    if c.moduleName == "builtins" then c.qualname else c.moduleName + "." + c.qualname
  }

  /** `str(type(data))`. */
  function TypeRepr(c: PyClass): string
  {
    "<class '" + GetClassName(c) + "'>"
  }

  const MessageHead: string :=
    "Data must be one of the following types: numpy array, pandas dataframe, \n"
    + "        polars dataframe, pyarrow table, or ImageDataset. Received "
  const MessageTail: string := "\n        "

  /** The text of the `ValueError` for an unsupported object. */
  function UnsupportedMessage(c: PyClass): string
  {
    MessageHead + TypeRepr(c) + MessageTail
  }

  /** The three tags recognised by class name rather than by `isinstance`. */
  predicate IsClassNameTag(t: AllowedDataType)
  {
    t == TransformerBatch || t == TorchTensor || t == TensorflowTensor
  }

  /** No `isinstance` test of the dispatcher holds. */
  predicate NoInstanceMatch(d: DataObject)
  {
    !d.isDict && !d.isImageDataset && !d.isNdarray && !d.isPandasFrame
    && !d.isPolarsFrame && !d.isArrowTable && !d.isStr
  }

  /** `check_data_type`; `Err` carries the message of the `ValueError`. */
  function CheckDataType(d: DataObject): (r: Result<AllowedDataType, string>)
    ensures r.Ok? ==> r.value != Sql && r.value != Profile
    ensures r.Ok? && IsClassNameTag(r.value) ==> NoInstanceMatch(d) && GetClassName(d.cls) == r.value.Value()
    ensures r.Err? <==>
      NoInstanceMatch(d) && GetClassName(d.cls) !in {TransformerBatch.Value(), TorchTensor.Value(), TensorflowTensor.Value()}
    ensures r.Err? ==> r.error == UnsupportedMessage(d.cls)
  {
    var className := GetClassName(d.cls);
    if d.isDict then Ok(Dict)
    else if d.isImageDataset then Ok(Image)
    else if d.isNdarray then Ok(Numpy)
    else if d.isPandasFrame then Ok(Pandas)
    else if d.isPolarsFrame then Ok(Polars)
    else if d.isArrowTable then Ok(PyArrow)
    else if d.isStr then Ok(String)
    else if className == TransformerBatch.Value() then Ok(TransformerBatch)
    else if className == TorchTensor.Value() then Ok(TorchTensor)
    else if className == TensorflowTensor.Value() then Ok(TensorflowTensor)
    else Err(UnsupportedMessage(d.cls))
  }

  // ---------------------------------------------------------------------
  // The priority order as data: the checks, earliest first, with their tags.

  function Checks(d: DataObject): seq<(bool, AllowedDataType)>
  {
    var className := GetClassName(d.cls);
    [ (d.isDict, Dict), (d.isImageDataset, Image), (d.isNdarray, Numpy),
      (d.isPandasFrame, Pandas), (d.isPolarsFrame, Polars), (d.isArrowTable, PyArrow),
      (d.isStr, String),
      (className == TransformerBatch.Value(), TransformerBatch),
      (className == TorchTensor.Value(), TorchTensor),
      (className == TensorflowTensor.Value(), TensorflowTensor) ]
  }

  /** The tag of the first check that holds. */
  function FirstMatch(checks: seq<(bool, AllowedDataType)>): Option<AllowedDataType>
  {
    if |checks| == 0 then None
    else if checks[0].0 then Some(checks[0].1)
    else FirstMatch(checks[1..])
  }

  /** The index of the first check that holds, or `|checks|`. */
  function FirstTrue(checks: seq<(bool, AllowedDataType)>): (i: nat)
    ensures i <= |checks|
    ensures i < |checks| ==> checks[i].0
    ensures forall j :: 0 <= j < i ==> !checks[j].0
  {
    if |checks| == 0 then 0
    else if checks[0].0 then 0
    else 1 + FirstTrue(checks[1..])
  }

  lemma {:induction false} FirstMatchIsEarliest(checks: seq<(bool, AllowedDataType)>, i: nat)
    requires i < |checks| && checks[i].0
    requires forall j :: 0 <= j < i ==> !checks[j].0
    ensures FirstMatch(checks) == Some(checks[i].1)
  {
    if i > 0 {
      FirstMatchIsEarliest(checks[1..], i - 1);
    }
  }

  lemma {:induction false} FirstMatchNone(checks: seq<(bool, AllowedDataType)>)
    requires forall j :: 0 <= j < |checks| ==> !checks[j].0
    ensures FirstMatch(checks) == None
  {
    if |checks| > 0 {
      FirstMatchNone(checks[1..]);
    }
  }

  /** An object that passes several checks gets the tag of the earliest. */
  lemma EarliestCheckWins(d: DataObject, i: nat)
    requires i < |Checks(d)| && Checks(d)[i].0
    requires forall j :: 0 <= j < i ==> !Checks(d)[j].0
    ensures CheckDataType(d) == Ok(Checks(d)[i].1)
  {
    FirstMatchIsEarliest(Checks(d), i);
    var c := Checks(d);
    if i > 0 { assert !c[0].0; }
    if i > 1 { assert !c[1].0; }
    if i > 2 { assert !c[2].0; }
    if i > 3 { assert !c[3].0; }
    if i > 4 { assert !c[4].0; }
    if i > 5 { assert !c[5].0; }
    if i > 6 { assert !c[6].0; }
    if i > 7 { assert !c[7].0; }
    if i > 8 { assert !c[8].0; }
  }

  /** The dispatcher is exactly "first match in the priority order", failing
      when nothing matches. */
  lemma DispatchIsFirstMatch(d: DataObject)
    ensures CheckDataType(d).Ok? <==> FirstMatch(Checks(d)).Some?
    ensures CheckDataType(d).Ok? ==> FirstMatch(Checks(d)) == Some(CheckDataType(d).value)
  {
    var c := Checks(d);
    var i := FirstTrue(c);
    if i < |c| {
      EarliestCheckWins(d, i);
      FirstMatchIsEarliest(c, i);
    } else {
      FirstMatchNone(c);
      assert !c[0].0 && !c[1].0 && !c[2].0 && !c[3].0 && !c[4].0 && !c[5].0 && !c[6].0;
      assert !c[7].0 && !c[8].0 && !c[9].0;
    }
  }

  /** The error message names the type received. */
  lemma MessageNamesType(d: DataObject)
    requires CheckDataType(d).Err?
    ensures Strings.Contains(CheckDataType(d).error, TypeRepr(d.cls))
  {
    var m := CheckDataType(d).error;
    assert m[|MessageHead|..|MessageHead| + |TypeRepr(d.cls)|] == TypeRepr(d.cls);
    Strings.ContainsAt(m, TypeRepr(d.cls), |MessageHead|);
  }
}
