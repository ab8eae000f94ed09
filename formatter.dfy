/** The arrow formatters of opsml_data/registry/formatter.py: three
    formatters, each accepting one kind of data; `convert_data_to_arrow`,
    which uses the first formatter that accepts the input; and
    `create_table_schema`, which derives a column-to-type map. */
module Formatter {
  import opened Wrappers
  import Collections

  /** One column of a table: its name and its type, as `str(type_)` prints it. */
  datatype Column = Column(name: string, typeName: string)

  /** Which of the three library types (if any) the object is an instance of. */
  datatype DataKind = PandasFrame | NumpyArray | PyArrowTable | OtherKind

  /** A data object: its kind, its class's `__name__`, its columns (a pandas
      frame's columns with their dtypes, or a pyarrow table's schema) and,
      for a numpy array, its dtype. */
  datatype Data = Data(kind: DataKind, className: string, columns: seq<Column>, dtype: string)

  /** `Dict[str, Optional[str]]`, in insertion order. */
  type FeatureMap = Collections.OrderedDict<string, Option<string>>

  /** The `ArrowTable` record the formatters return. */
  datatype ArrowTable = ArrowTable(
    table: Data,
    tableType: string,
    storageUri: Option<string>,
    featureMap: Option<FeatureMap>)

  datatype ArrowFormatter = PandasFormatter | NumpyFormatter | ArrowTableFormatter
  {
    /** The one kind of data the formatter is written for. */
    function Accepts(): DataKind
    {
      match this
      case PandasFormatter => PandasFrame
      case NumpyFormatter => NumpyArray
      case ArrowTableFormatter => PyArrowTable
    }
  }

  /** `ArrowFormatter.__subclasses__()`: the formatters in definition order. */
  const Formatters: seq<ArrowFormatter> := [PandasFormatter, NumpyFormatter, ArrowTableFormatter]

  /** `validate_data`: an `isinstance` test against the formatter's own type. */
  function ValidateData(f: ArrowFormatter, d: Data): (ok: bool)
    ensures ok <==> d.kind == f.Accepts()
  {
    match f
    case PandasFormatter => d.kind == PandasFrame
    case NumpyFormatter => d.kind == NumpyArray
    case ArrowTableFormatter => d.kind == PyArrowTable
  }

  /** `pa.Table.from_pandas(data, preserve_index=False)`: a table with the
      frame's columns, in order, each with the arrow type the library maps
      the column's dtype to (`arrowType`). */
  function FromPandas(d: Data, arrowType: string -> string): (t: Data)
    ensures t.kind == PyArrowTable && |t.columns| == |d.columns|
    ensures forall i :: 0 <= i < |d.columns| ==> t.columns[i].name == d.columns[i].name
  {
    Data(PyArrowTable, "Table", seq(|d.columns|, i requires 0 <= i < |d.columns| => Column(d.columns[i].name, arrowType(d.columns[i].typeName))), "")
  }

  /** `convert`: the pandas formatter converts the frame, the other two keep
      the input as the table; every formatter records the input's class name. */
  function Convert(f: ArrowFormatter, d: Data, arrowType: string -> string): (t: ArrowTable)
    ensures t.tableType == d.className
    ensures t.storageUri == None && t.featureMap == None
    ensures f != PandasFormatter ==> t.table == d
    ensures f == PandasFormatter ==> t.table.kind == PyArrowTable
  {
    match f
    case PandasFormatter => ArrowTable(FromPandas(d, arrowType), d.className, None, None)
    case NumpyFormatter => ArrowTable(d, d.className, None, None)
    case ArrowTableFormatter => ArrowTable(d, d.className, None, None)
  }

  /** `next(f for f in fs if f.validate_data(data=data))`; `None` is the
      `StopIteration` raised when no formatter accepts the data. */
  function SelectFormatter(fs: seq<ArrowFormatter>, d: Data): Option<ArrowFormatter>
  {
    if |fs| == 0 then None
    else if ValidateData(fs[0], d) then Some(fs[0])
    else SelectFormatter(fs[1..], d)
  }

  lemma {:induction false} SelectFormatterIsFirstValid(fs: seq<ArrowFormatter>, d: Data)
    ensures SelectFormatter(fs, d).Some? <==> exists i :: 0 <= i < |fs| && ValidateData(fs[i], d)
    ensures SelectFormatter(fs, d).Some? ==>
      exists i :: 0 <= i < |fs| && fs[i] == SelectFormatter(fs, d).value && ValidateData(fs[i], d)
        && forall j :: 0 <= j < i ==> !ValidateData(fs[j], d)
  {
    if |fs| > 0 {
      SelectFormatterIsFirstValid(fs[1..], d);
      if !ValidateData(fs[0], d) {
        if SelectFormatter(fs, d).Some? {
          var i :| 0 <= i < |fs[1..]| && fs[1..][i] == SelectFormatter(fs, d).value && ValidateData(fs[1..][i], d)
            && forall j :: 0 <= j < i ==> !ValidateData(fs[1..][j], d);
          assert fs[i + 1] == fs[1..][i];
          forall j | 0 <= j < i + 1 ensures !ValidateData(fs[j], d) {
            if j > 0 { assert fs[j] == fs[1..][j - 1]; }
          }
        }
        forall i | 0 < i < |fs| && ValidateData(fs[i], d) ensures SelectFormatter(fs, d).Some? {
          assert fs[1..][i - 1] == fs[i];
        }
      }
    }
  }

  /** `DataFormatter.convert_data_to_arrow`. */
  function ConvertDataToArrow(d: Data, arrowType: string -> string): Result<ArrowTable, string>
  {
    match SelectFormatter(Formatters, d)
    case None => Err("StopIteration")
    case Some(f) => Ok(Convert(f, d, arrowType))
  }

  /** The formatters accept disjoint kinds, so the one selected is the only
      one that accepts the input; nothing but the three library types is
      converted; the numpy and arrow inputs come back as the table itself. */
  lemma ConvertDataToArrowFacts(d: Data, arrowType: string -> string)
    ensures ConvertDataToArrow(d, arrowType).Ok? <==> d.kind != OtherKind
    ensures ConvertDataToArrow(d, arrowType).Ok? ==>
      exists f :: f in Formatters && ValidateData(f, d) && ConvertDataToArrow(d, arrowType) == Ok(Convert(f, d, arrowType))
    ensures ConvertDataToArrow(d, arrowType).Ok? ==> ConvertDataToArrow(d, arrowType).value.tableType == d.className
    ensures d.kind == NumpyArray || d.kind == PyArrowTable ==> ConvertDataToArrow(d, arrowType) == Ok(ArrowTable(d, d.className, None, None))
  {
    SelectFormatterIsFirstValid(Formatters, d);
    assert Formatters[0] == PandasFormatter && Formatters[1] == NumpyFormatter && Formatters[2] == ArrowTableFormatter;
    if d.kind != OtherKind {
      var i := if d.kind == PandasFrame then 0 else if d.kind == NumpyArray then 1 else 2;
      assert ValidateData(Formatters[i], d);
    }
  }

  // ---------------------------------------------------------------------
  // create_table_schema

  /** The `(feature, str(type_))` pairs the schema loop walks through. */
  function SchemaPairs(cols: seq<Column>): (pairs: seq<(string, Option<string>)>)
    ensures |pairs| == |cols|
    ensures forall i :: 0 <= i < |cols| ==> pairs[i] == (cols[i].name, Some(cols[i].typeName))
  {
    seq(|cols|, i requires 0 <= i < |cols| => (cols[i].name, Some(cols[i].typeName)))
  }

  /** The schema `create_table_schema` derives. */
  function TableSchema(data: Data): FeatureMap
  {
    if data.kind == PyArrowTable then Collections.Build(SchemaPairs(data.columns))
    else if data.kind == NumpyArray then [("numpy_dtype", Some(data.dtype))]
    else [("data_dtype", None)]
  }

  function ColumnNames(cols: seq<Column>): set<string>
  {
    set i | 0 <= i < |cols| :: cols[i].name
  }

  /** `DataFormatter.create_table_schema`. */
  method CreateTableSchema(data: Data) returns (featureMap: FeatureMap)
    ensures featureMap == TableSchema(data)
    ensures data.kind == NumpyArray ==> featureMap == [("numpy_dtype", Some(data.dtype))]
    ensures data.kind != NumpyArray && data.kind != PyArrowTable ==> featureMap == [("data_dtype", None)]
  {
    featureMap := [];
    if data.kind == PyArrowTable {
      var i := 0;
      while i < |data.columns|
        invariant 0 <= i <= |data.columns|
        invariant featureMap == Collections.Build(SchemaPairs(data.columns[..i]))
      {
        var column := data.columns[i];
        assert SchemaPairs(data.columns[..i + 1])[..i] == SchemaPairs(data.columns[..i]);
        featureMap := Collections.Put(featureMap, column.name, Some(column.typeName));
        i := i + 1;
      }
      assert data.columns[..i] == data.columns;
    } else if data.kind == NumpyArray {
      featureMap := Collections.Put(featureMap, "numpy_dtype", Some(data.dtype));
    } else {
      featureMap := Collections.Put(featureMap, "data_dtype", None);
    }
  }

  /** A table's schema has one entry per distinct column name, and no other keys. */
  lemma TableSchemaKeys(data: Data)
    requires data.kind == PyArrowTable
    ensures Collections.DistinctKeys(TableSchema(data))
    ensures Collections.Keys(TableSchema(data)) == ColumnNames(data.columns)
  {
    var pairs := SchemaPairs(data.columns);
    Collections.BuildKeys(pairs);
    assert Collections.Keys(pairs) == ColumnNames(data.columns) by {
      forall k | k in ColumnNames(data.columns) ensures k in Collections.Keys(pairs) {
        var i :| 0 <= i < |data.columns| && data.columns[i].name == k;
        assert pairs[i].0 == k;
      }
    }
  }

  /** Each column name maps to the type of the LAST column carrying it. */
  lemma TableSchemaLastWins(data: Data, j: nat)
    requires data.kind == PyArrowTable && j < |data.columns|
    requires forall j' :: j < j' < |data.columns| ==> data.columns[j'].name != data.columns[j].name
    ensures Collections.Lookup(TableSchema(data), data.columns[j].name) == Some(Some(data.columns[j].typeName))
  {
    Collections.BuildLastWins(SchemaPairs(data.columns), data.columns[j].name, j);
  }

  /** A converted pandas frame's schema is keyed by the frame's column names. */
  lemma PandasSchemaKeys(d: Data, arrowType: string -> string)
    requires d.kind == PandasFrame
    ensures ConvertDataToArrow(d, arrowType).Ok?
    ensures Collections.Keys(TableSchema(ConvertDataToArrow(d, arrowType).value.table)) == ColumnNames(d.columns)
  {
    ConvertDataToArrowFacts(d, arrowType);
    var t := ConvertDataToArrow(d, arrowType).value.table;
    assert t == FromPandas(d, arrowType);
    TableSchemaKeys(t);
    assert ColumnNames(t.columns) == ColumnNames(d.columns) by {
      forall k | k in ColumnNames(d.columns) ensures k in ColumnNames(t.columns) {
        var i :| 0 <= i < |d.columns| && d.columns[i].name == k;
        assert t.columns[i].name == k;
      }
    }
  }
}
