/** The TensorFlow model interface of opsml/registry/model/interfaces/tf.py:
    `get_sample_data`, which cuts sample data down to its first record, and
    the `check_model` validator, which infers the model type from the
    model's module and base classes and records the reduced sample. The
    library calls (`get_model_args`, `get_class_name` of the helpers
    module, `_get_preprocessor_name`) are functions given by the caller. */
module TfModel {
  import opened Wrappers
  import opened PyValues
  import Strings
  import Collections

  datatype ArrayKind = NdArray | Tensor

  /** Sample data as `get_sample_data` tells it apart. */
  datatype Sample =
    | ArrayData(kind: ArrayKind, rows: seq<PyValue>)
    | ListData(items: seq<Sample>)
    | TupleData(items: seq<Sample>)
    | DictData(entries: Collections.OrderedDict<string, Sample>)
      /** The generator `(data[0:1] for data in source)`, not yet run. */
    | GeneratorData(source: seq<Sample>)
    | NoSample
      /** Any other object, by its class name. */
    | OtherData(className: string)

  /** `s[0:1]`: Python clamps the slice, so an empty sequence stays empty. */
  function Take1<T>(s: seq<T>): (r: seq<T>)
    ensures |r| <= 1 && |r| <= |s| && r == s[..|r|]
    ensures |s| > 0 ==> r == [s[0]]
  {
    if |s| == 0 then s else s[..1]
  }

  /** `data[0:1]` on one element: arrays, tensors, lists and tuples slice;
      anything else raises `TypeError`. */
  function Slice(s: Sample): (r: Result<Sample, string>)
    ensures r.Ok? <==> s.ArrayData? || s.ListData? || s.TupleData?
    ensures r.Ok? && s.ArrayData? ==>
      r.value.ArrayData? && r.value.kind == s.kind && |r.value.rows| <= 1 && r.value.rows <= s.rows
      && (|s.rows| > 0 ==> r.value.rows == [s.rows[0]])
    ensures r.Ok? && !s.ArrayData? ==>
      r.value.ListData? == s.ListData? && r.value.TupleData? == s.TupleData?
      && |r.value.items| <= 1 && r.value.items <= s.items
      && (|s.items| > 0 ==> r.value.items == [s.items[0]])
  {
    match s
    case ArrayData(k, rows) => Ok(ArrayData(k, Take1(rows)))
    case ListData(items) => Ok(ListData(Take1(items)))
    case TupleData(items) => Ok(TupleData(Take1(items)))
    case _ => Err("TypeError")
  }

  /** Slicing a slice changes nothing. */
  lemma SliceIdempotent(s: Sample)
    requires Slice(s).Ok?
    ensures Slice(Slice(s).value) == Slice(s)
  {
  }

  /** Slices every element, left to right, stopping at the first failure. */
  function SliceItems(items: seq<Sample>): (r: Result<seq<Sample>, string>)
    ensures r.Ok? <==> forall i :: 0 <= i < |items| ==> Slice(items[i]).Ok?
    ensures r.Ok? ==> |r.value| == |items|
    ensures r.Ok? ==> forall i :: 0 <= i < |items| ==> r.value[i] == Slice(items[i]).value
  {
    if |items| == 0 then Ok([])
    else
      match SliceItems(items[..|items| - 1])
      case Err(e) => Err(e)
      case Ok(done) =>
        match Slice(items[|items| - 1])
        case Err(e) => Err(e)
        case Ok(x) => Ok(done + [x])
  }

  /** Slices every value of a dict, in insertion order. */
  function SliceEntries(entries: Collections.OrderedDict<string, Sample>): (r: Result<seq<(string, Sample)>, string>)
    ensures r.Ok? <==> forall i :: 0 <= i < |entries| ==> Slice(entries[i].1).Ok?
    ensures r.Ok? ==> |r.value| == |entries|
    ensures r.Ok? ==> forall i :: 0 <= i < |entries| ==> r.value[i] == (entries[i].0, Slice(entries[i].1).value)
  {
    if |entries| == 0 then Ok([])
    else
      match SliceEntries(entries[..|entries| - 1])
      case Err(e) => Err(e)
      case Ok(done) =>
        var (key, value) := entries[|entries| - 1];
        match Slice(value)
        case Err(e) => Err(e)
        case Ok(x) => Ok(done + [(key, x)])
  }

  lemma {:induction false} SliceEntriesPrefixFails(entries: Collections.OrderedDict<string, Sample>, i: nat)
    requires i <= |entries| && SliceEntries(entries[..i]).Err?
    ensures SliceEntries(entries) == SliceEntries(entries[..i])
    decreases |entries| - i
  {
    if i < |entries| {
      assert entries[..i + 1][..i] == entries[..i];
      SliceEntriesPrefixFails(entries, i + 1);
    } else {
      assert entries[..i] == entries;
    }
  }

  const NotValidMessage: string := "ValueError: Provided sample data is not a valid type"

  /** What `get_sample_data` returns for `sample`. */
  function SampleOf(sample: Sample): Result<Sample, string>
  {
    match sample
    case ArrayData(k, rows) => Ok(ArrayData(k, Take1(rows)))
    case ListData(items) =>
      (match SliceItems(items)
       case Ok(xs) => Ok(ListData(xs))
       case Err(e) => Err(e))
    case TupleData(items) => Ok(GeneratorData(items))
    case DictData(entries) =>
      (match SliceEntries(entries)
       case Ok(pairs) => Ok(DictData(Collections.Build(pairs)))
       case Err(e) => Err(e))
    case _ => Err(NotValidMessage)
  }

  /** `get_sample_data`. */
  method GetSampleData(sample: Sample) returns (r: Result<Sample, string>)
    ensures r == SampleOf(sample)
  {
    if sample.ArrayData? {
      return Ok(ArrayData(sample.kind, Take1(sample.rows)));
    }
    if sample.ListData? {
      var sliced := SliceItems(sample.items);
      if sliced.Err? {
        return Err(sliced.error);
      }
      return Ok(ListData(sliced.value));
    }
    if sample.TupleData? {
      return Ok(GeneratorData(sample.items));
    }
    if sample.DictData? {
      var entries := sample.entries;
      var sampleDict: Collections.OrderedDict<string, Sample> := [];
      var i := 0;
      while i < |entries|
        invariant 0 <= i <= |entries|
        invariant SliceEntries(entries[..i]).Ok?
        invariant sampleDict == Collections.Build(SliceEntries(entries[..i]).value)
      {
        var (key, value) := entries[i];
        assert entries[..i + 1][..i] == entries[..i];
        var sliced := Slice(value);
        if sliced.Err? {
          SliceEntriesPrefixFails(entries, i + 1);
          return Err(sliced.error);
        }
        sampleDict := Collections.Put(sampleDict, key, sliced.value);
        i := i + 1;
      }
      assert entries[..i] == entries;
      return Ok(DictData(sampleDict));
    }
    return Err(NotValidMessage);
  }

  /** What each kind of input becomes: an array or tensor keeps at most its
      first row; a list keeps its length with every element sliced; a tuple
      becomes a generator over its elements; everything else, `None`
      included, is refused with `ValueError`. */
  lemma SampleOfFacts(sample: Sample)
    ensures sample.ArrayData? ==>
      SampleOf(sample).Ok? && SampleOf(sample).value.ArrayData? && |SampleOf(sample).value.rows| <= 1
      && SampleOf(sample).value.rows <= sample.rows && SampleOf(sample).value.kind == sample.kind
    ensures sample.ListData? ==>
      (SampleOf(sample).Ok? <==> forall i :: 0 <= i < |sample.items| ==> Slice(sample.items[i]).Ok?)
    ensures sample.ListData? && SampleOf(sample).Ok? ==>
      SampleOf(sample).value.ListData? && |SampleOf(sample).value.items| == |sample.items|
      && forall i :: 0 <= i < |sample.items| ==> Slice(sample.items[i]) == Ok(SampleOf(sample).value.items[i])
    ensures sample.TupleData? ==> SampleOf(sample) == Ok(GeneratorData(sample.items))
    ensures !(sample.ArrayData? || sample.ListData? || sample.TupleData? || sample.DictData?) ==>
      SampleOf(sample) == Err(NotValidMessage)
  {
  }

  /** A dict keeps its keys, with every value sliced; for a dict with one
      entry per key, as every Python dict has, the order and the keys of
      the entries are kept too. */
  lemma SampleOfDict(entries: Collections.OrderedDict<string, Sample>)
    requires SampleOf(DictData(entries)).Ok?
    ensures var r := SampleOf(DictData(entries)).value;
      r.DictData? && Collections.Keys(r.entries) == Collections.Keys(entries)
    ensures var r := SampleOf(DictData(entries)).value;
      Collections.DistinctKeys(entries) ==>
        |r.entries| == |entries|
        && forall i :: 0 <= i < |entries| ==> r.entries[i].0 == entries[i].0 && Slice(entries[i].1) == Ok(r.entries[i].1)
  {
    var pairs := SliceEntries(entries).value;
    Collections.BuildKeys(pairs);
    assert Collections.Keys(pairs) == Collections.Keys(entries) by {
      forall k | k in Collections.Keys(entries) ensures k in Collections.Keys(pairs) {
        var i :| 0 <= i < |entries| && entries[i].0 == k;
        assert pairs[i].0 == k;
      }
    }
    if Collections.DistinctKeys(entries) {
      assert Collections.DistinctKeys(pairs) by {
        forall i, j | 0 <= i < j < |pairs| ensures pairs[i].0 != pairs[j].0 {
          assert pairs[i].0 == entries[i].0 && pairs[j].0 == entries[j].0;
        }
      }
      Collections.BuildOfDistinct(pairs);
    }
  }

  /** Values that are their own slices come through slicing unchanged. */
  lemma {:induction false} SliceItemsFixed(items: seq<Sample>)
    requires forall i :: 0 <= i < |items| ==> Slice(items[i]) == Ok(items[i])
    ensures SliceItems(items) == Ok(items)
  {
    var r := SliceItems(items);
    assert r.Ok?;
    assert r.value == items;
  }

  lemma {:induction false} SliceEntriesFixed(entries: Collections.OrderedDict<string, Sample>)
    requires forall e :: e in entries ==> Slice(e.1) == Ok(e.1)
    ensures SliceEntries(entries) == Ok(entries)
  {
    forall i | 0 <= i < |entries| ensures Slice(entries[i].1) == Ok(entries[i].1) {
      assert entries[i] in entries;
    }
    var r := SliceEntries(entries);
    assert r.Ok?;
    assert r.value == entries;
  }

  /** Reducing reduced sample data again gives the same result, except for
      a tuple: its reduction is a generator, which `get_sample_data` then
      refuses. */
  lemma ReductionStable(sample: Sample)
    requires SampleOf(sample).Ok?
    ensures !sample.TupleData? ==> SampleOf(SampleOf(sample).value) == SampleOf(sample)
    ensures sample.TupleData? ==> SampleOf(SampleOf(sample).value) == Err(NotValidMessage)
  {
    var once := SampleOf(sample).value;
    match sample
    case ArrayData(_, _) =>
    case ListData(items) =>
      forall i | 0 <= i < |once.items| ensures Slice(once.items[i]) == Ok(once.items[i]) {
        SliceIdempotent(items[i]);
      }
      SliceItemsFixed(once.items);
    case DictData(entries) =>
      var pairs := SliceEntries(entries).value;
      Collections.BuildEntries(pairs);
      Collections.BuildKeys(pairs);
      forall e | e in once.entries ensures Slice(e.1) == Ok(e.1) {
        assert e in pairs;
        var i :| 0 <= i < |pairs| && pairs[i] == e;
        SliceIdempotent(entries[i].1);
      }
      SliceEntriesFixed(once.entries);
      Collections.BuildOfDistinct(once.entries);
    case TupleData(_) =>
  }

  // ---------------------------------------------------------------------
  // check_model

  /** What `get_model_args(model)` reports: whether the model is a
      `tf.keras.Model`, its class's `__name__`, its module, and the names of
      its base classes. */
  datatype ModelInfo = ModelInfo(isKerasModel: bool, className: string, moduleName: string, bases: seq<string>)

  /** A value of the `model_args` dict. */
  datatype ArgValue = Plain(v: PyValue) | SampleArg(sample: Sample) | ModelArg(model: ModelInfo)

  type ModelArgs = map<string, ArgValue>

  /** `model_args.get(key, default)`. */
  function ArgOr(args: ModelArgs, key: string, default: ArgValue): ArgValue
  {
    if key in args then args[key] else default
  }

  predicate ArgTruthy(a: ArgValue)
  {
    match a
    case Plain(v) => Truthy(v)
    case _ => true
  }

  /** The sample data argument as `get_sample_data` receives it. */
  function AsSample(a: ArgValue): Sample
  {
    match a
    case SampleArg(s) => s
    case Plain(PyNone) => NoSample
    case Plain(_) => OtherData("")
    case ModelArg(m) => OtherData(m.className)
  }

  /** Some base class's name contains `keras`. */
  function HasKerasBase(bases: seq<string>): (b: bool)
    ensures b <==> exists i :: 0 <= i < |bases| && Strings.Contains(bases[i], "keras")
  {
    if |bases| == 0 then false
    else
      var init := bases[..|bases| - 1];
      assert forall i :: 0 <= i < |init| ==> init[i] == bases[i];
      HasKerasBase(init) || Strings.Contains(bases[|bases| - 1], "keras")
  }

  /** The `model_type` inferred: the class name for a model defined in a
      keras module, `subclass` for a model with a keras base, otherwise none. */
  function ModelType(info: ModelInfo): Option<string>
  {
    if Strings.Contains(info.moduleName, "keras") then Some(info.className)
    else if HasKerasBase(info.bases) then Some("subclass")
    else None
  }

  /** What `check_model` returns. `describe` is `get_model_args`, `classNameOf`
      is `get_class_name` and `preprocessorName` is `_get_preprocessor_name`;
      `Err` is the error raised. */
  function CheckModelResult(args: ModelArgs, describe: ArgValue -> Result<ModelInfo, string>,
                            classNameOf: Sample -> string, preprocessorName: ArgValue -> string): (r: Result<ModelArgs, string>)
    ensures ArgTruthy(ArgOr(args, "modelcard_uid", Plain(PyBool(false)))) ==> r == Ok(args)
    ensures var info := describe(ArgOr(args, "model", Plain(PyNone)));
      !ArgTruthy(ArgOr(args, "modelcard_uid", Plain(PyBool(false)))) ==>
        (r.Ok? <==> info.Ok? && info.value.isKerasModel && SampleOf(AsSample(ArgOr(args, "sample_data", Plain(PyNone)))).Ok?)
    ensures var info := describe(ArgOr(args, "model", Plain(PyNone)));
      !ArgTruthy(ArgOr(args, "modelcard_uid", Plain(PyBool(false)))) && r.Ok? ==>
        var sample := SampleOf(AsSample(ArgOr(args, "sample_data", Plain(PyNone)))).value;
        r.value.Keys == args.Keys + {"sample_data", "data_type", "preprocessor_name"}
                        + (if ModelType(info.value).Some? then {"model_type"} else {})
        && r.value["sample_data"] == SampleArg(sample)
        && r.value["data_type"] == Plain(PyStr(classNameOf(sample)))
        && r.value["preprocessor_name"] == Plain(PyStr(preprocessorName(ArgOr(args, "preprocessor", Plain(PyNone)))))
        && (ModelType(info.value).Some? ==> r.value["model_type"] == Plain(PyStr(ModelType(info.value).value)))
        && forall k :: k in args && k !in {"sample_data", "data_type", "preprocessor_name"} && !(ModelType(info.value).Some? && k == "model_type") ==> r.value[k] == args[k]
  {
    if ArgTruthy(ArgOr(args, "modelcard_uid", Plain(PyBool(false)))) then Ok(args)
    else
      match describe(ArgOr(args, "model", Plain(PyNone)))
      case Err(e) => Err(e)
      case Ok(info) =>
        if !info.isKerasModel then Err("AssertionError: Model must be a tensorflow keras model")
        else
          var typed := if ModelType(info).Some? then args["model_type" := Plain(PyStr(ModelType(info).value))] else args;
          match SampleOf(AsSample(ArgOr(typed, "sample_data", Plain(PyNone))))
          case Err(e) => Err(e)
          case Ok(sample) =>
            var withSample := typed["sample_data" := SampleArg(sample)]["data_type" := Plain(PyStr(classNameOf(sample)))];
            Ok(withSample["preprocessor_name" := Plain(PyStr(preprocessorName(ArgOr(withSample, "preprocessor", Plain(PyNone)))))])
  }

  /** The keras test on the module comes before the one on the bases. */
  lemma ModelTypeOrder(info: ModelInfo)
    ensures Strings.Contains(info.moduleName, "keras") ==> ModelType(info) == Some(info.className)
    ensures !Strings.Contains(info.moduleName, "keras") ==>
      (ModelType(info) == Some("subclass") <==> exists i :: 0 <= i < |info.bases| && Strings.Contains(info.bases[i], "keras"))
    ensures ModelType(info).None? <==>
      !Strings.Contains(info.moduleName, "keras") && forall i :: 0 <= i < |info.bases| ==> !Strings.Contains(info.bases[i], "keras")
  {
  }

  /** `check_model`, writing the inferred keys into `model_args`. */
  method CheckModel(args: ModelArgs, describe: ArgValue -> Result<ModelInfo, string>,
                    classNameOf: Sample -> string, preprocessorName: ArgValue -> string)
    returns (r: Result<ModelArgs, string>)
    ensures r == CheckModelResult(args, describe, classNameOf, preprocessorName)
  {
    if ArgTruthy(ArgOr(args, "modelcard_uid", Plain(PyBool(false)))) {
      return Ok(args);
    }
    var described := describe(ArgOr(args, "model", Plain(PyNone)));
    if described.Err? {
      return Err(described.error);
    }
    var info := described.value;
    if !info.isKerasModel {
      return Err("AssertionError: Model must be a tensorflow keras model");
    }
    var modelArgs := args;
    if Strings.Contains(info.moduleName, "keras") {
      modelArgs := modelArgs["model_type" := Plain(PyStr(info.className))];
    } else {
      var i := 0;
      while i < |info.bases|
        invariant 0 <= i <= |info.bases|
        invariant modelArgs == if HasKerasBase(info.bases[..i]) then args["model_type" := Plain(PyStr("subclass"))] else args
      {
        assert info.bases[..i + 1][..i] == info.bases[..i];
        if Strings.Contains(info.bases[i], "keras") {
          modelArgs := modelArgs["model_type" := Plain(PyStr("subclass"))];
        }
        i := i + 1;
      }
      assert info.bases[..i] == info.bases;
    }
    var sample := GetSampleData(AsSample(ArgOr(modelArgs, "sample_data", Plain(PyNone))));
    if sample.Err? {
      return Err(sample.error);
    }
    modelArgs := modelArgs["sample_data" := SampleArg(sample.value)];
    modelArgs := modelArgs["data_type" := Plain(PyStr(classNameOf(sample.value)))];
    modelArgs := modelArgs["preprocessor_name" := Plain(PyStr(preprocessorName(ArgOr(modelArgs, "preprocessor", Plain(PyNone)))))];
    return Ok(modelArgs);
  }

  /** `model_suffix`: a saved model directory has no suffix. */
  const ModelSuffix: string := ""

  /** `name()`. */
  const Name: string := "TensorFlowModel"
}
