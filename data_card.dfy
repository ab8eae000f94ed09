/** The data card of opsml_data/registry/data_card.py: the fields the card
    carries, the `data_splits` validator, splitting the card's data by its
    split specifications, and the registration step that converts the data,
    stores it and the drift report, and records where they went.

    Two collaborators are functions given by the caller: the splitter
    (`DataSplitter(split_attributes=split).split(data=…)`, whose rules live
    outside this file) and storage (`save_record_data_to_storage`, which
    returns the uri it wrote to). */
module DataCards {
  import opened Wrappers
  import opened PyValues
  import Formatter

  /** One split specification, `Dict[str, Any]`. */
  type Split = map<string, PyValue>

  /** The splitter: the label and the data of one split, or the error it raises. */
  type Splitter = (Split, Formatter.Data) -> Result<(string, Formatter.Data), string>

  /** What storage is asked to save. */
  datatype StoredData = TableData(table: Formatter.Data) | DriftData(report: PyValue)

  /** The arguments of one `save_record_data_to_storage` call. */
  datatype StoreRequest = StoreRequest(data: StoredData, dataName: string, version: int, team: string, blobPath: string)

  /** Storage: the `gcs_uri` of the path it saved to. */
  type Store = StoreRequest -> string

  /** `indices.tolist()` for an ndarray, anything else as it is. */
  function IndicesAsList(v: PyValue): (r: PyValue)
    ensures v.PyNdArray? ==> r == PyList(v.elements)
    ensures !v.PyNdArray? ==> r == v
  {
    if v.PyNdArray? then PyList(v.elements) else v
  }

  /** `ValidCard.convert_none`, the `data_splits` validator: `None` becomes
      the empty list; otherwise each split's ndarray `indices` become a list
      and nothing else changes. */
  method ConvertNone(splits: Option<seq<Split>>) returns (r: seq<Split>)
    ensures splits.None? ==> r == []
    ensures splits.Some? ==> |r| == |splits.value|
    ensures splits.Some? ==> forall i :: 0 <= i < |r| ==>
      r[i].Keys == splits.value[i].Keys
      && (forall k :: k in r[i] && k != "indices" ==> r[i][k] == splits.value[i][k])
      && ("indices" in r[i] ==> r[i]["indices"] == IndicesAsList(splits.value[i]["indices"]))
  {
    if splits.None? {
      return [];
    }
    r := splits.value;
    var i := 0;
    while i < |r|
      invariant 0 <= i <= |r| == |splits.value|
      invariant forall j :: 0 <= j < i ==>
        r[j].Keys == splits.value[j].Keys
        && (forall k :: k in r[j] && k != "indices" ==> r[j][k] == splits.value[j][k])
        && ("indices" in r[j] ==> r[j]["indices"] == IndicesAsList(splits.value[j]["indices"]))
      invariant forall j :: i <= j < |r| ==> r[j] == splits.value[j]
    {
      var split := r[i];
      var indices := Get(split, "indices");
      if indices != PyNone && indices.PyNdArray? {
        r := r[i := split["indices" := PyList(indices.elements)]];
      }
      i := i + 1;
    }
  }

  /** The attributes `_parse_data_splits` sets on the holder, starting from
      `attrs` and going through `splits` in order; `Err` is the first error
      the splitter raises. */
  function ParseFrom(attrs: map<string, Formatter.Data>, splits: seq<Split>, data: Formatter.Data, splitter: Splitter)
    : Result<map<string, Formatter.Data>, string>
    decreases |splits|
  {
    if |splits| == 0 then Ok(attrs)
    else
      match splitter(splits[0], data)
      case Err(e) => Err(e)
      case Ok(labelled) => ParseFrom(attrs[labelled.0 := labelled.1], splits[1..], data, splitter)
  }

  /** The splitter accepts every split. */
  predicate AllSplit(splits: seq<Split>, data: Formatter.Data, splitter: Splitter)
  {
    forall i :: 0 <= i < |splits| ==> splitter(splits[i], data).Ok?
  }

  /** The label the splitter gives split `i`. */
  function Label(splits: seq<Split>, data: Formatter.Data, splitter: Splitter, i: nat): string
    requires i < |splits| && splitter(splits[i], data).Ok?
  {
    splitter(splits[i], data).value.0
  }

  lemma LabelOfRest(splits: seq<Split>, data: Formatter.Data, splitter: Splitter, i: nat)
    requires i + 1 < |splits| && splitter(splits[i + 1], data).Ok?
    ensures splitter(splits[1..][i], data).Ok?
    ensures Label(splits[1..], data, splitter, i) == Label(splits, data, splitter, i + 1)
  {
    assert splits[1..][i] == splits[i + 1];
  }

  /** Parsing fails exactly when the splitter rejects some split. */
  lemma {:induction false} ParseFromOk(attrs: map<string, Formatter.Data>, splits: seq<Split>, data: Formatter.Data, splitter: Splitter)
    ensures ParseFrom(attrs, splits, data, splitter).Ok? <==> AllSplit(splits, data, splitter)
    decreases |splits|
  {
    if |splits| > 0 && splitter(splits[0], data).Ok? {
      var (name, d) := splitter(splits[0], data).value;
      ParseFromOk(attrs[name := d], splits[1..], data, splitter);
      assert forall i :: 1 <= i < |splits| ==> splits[i] == splits[1..][i - 1];
    }
  }

  /** One attribute per label, added to those the holder already had. */
  lemma {:induction false} ParseFromKeys(attrs: map<string, Formatter.Data>, splits: seq<Split>, data: Formatter.Data, splitter: Splitter)
    requires AllSplit(splits, data, splitter)
    ensures ParseFrom(attrs, splits, data, splitter).Ok?
    ensures ParseFrom(attrs, splits, data, splitter).value.Keys
      == attrs.Keys + set i | 0 <= i < |splits| :: Label(splits, data, splitter, i)
    decreases |splits|
  {
    ParseFromOk(attrs, splits, data, splitter);
    if |splits| > 0 {
      var (name, d) := splitter(splits[0], data).value;
      var rest := splits[1..];
      assert AllSplit(rest, data, splitter) by {
        forall i | 0 <= i < |rest| ensures splitter(rest[i], data).Ok? {
          assert rest[i] == splits[i + 1];
        }
      }
      ParseFromKeys(attrs[name := d], rest, data, splitter);
      var labels := set i | 0 <= i < |splits| :: Label(splits, data, splitter, i);
      var restLabels := set i | 0 <= i < |rest| :: Label(rest, data, splitter, i);
      assert labels == {name} + restLabels by {
        assert Label(splits, data, splitter, 0) == name;
        forall l | l in labels ensures l in {name} + restLabels {
          var i :| 0 <= i < |splits| && Label(splits, data, splitter, i) == l;
          if i > 0 { LabelOfRest(splits, data, splitter, i - 1); }
        }
        forall l | l in restLabels ensures l in labels {
          var i :| 0 <= i < |rest| && Label(rest, data, splitter, i) == l;
          LabelOfRest(splits, data, splitter, i);
        }
      }
    }
  }

  /** A label given to several splits holds the data of the last of them. */
  lemma {:induction false} ParseFromLastWins(attrs: map<string, Formatter.Data>, splits: seq<Split>, data: Formatter.Data,
                                             splitter: Splitter, j: nat)
    requires AllSplit(splits, data, splitter) && j < |splits|
    requires forall j' :: j < j' < |splits| ==> Label(splits, data, splitter, j') != Label(splits, data, splitter, j)
    ensures ParseFrom(attrs, splits, data, splitter).Ok?
    ensures var m := ParseFrom(attrs, splits, data, splitter).value;
      Label(splits, data, splitter, j) in m && m[Label(splits, data, splitter, j)] == splitter(splits[j], data).value.1
    decreases |splits|
  {
    ParseFromOk(attrs, splits, data, splitter);
    var (name, d) := splitter(splits[0], data).value;
    var rest := splits[1..];
    assert AllSplit(rest, data, splitter) by {
      forall i | 0 <= i < |rest| ensures splitter(rest[i], data).Ok? {
        assert rest[i] == splits[i + 1];
      }
    }
    ParseFromOk(attrs[name := d], rest, data, splitter);
    if j == 0 {
      forall j' | 0 <= j' < |rest| ensures Label(rest, data, splitter, j') != name {
        LabelOfRest(splits, data, splitter, j');
      }
      ParseFromKeepsUnset(attrs[name := d], rest, data, splitter, name);
    } else {
      assert rest[j - 1] == splits[j];
      forall j' | j - 1 < j' < |rest|
        ensures Label(rest, data, splitter, j') != Label(rest, data, splitter, j - 1)
      {
        LabelOfRest(splits, data, splitter, j');
      }
      LabelOfRest(splits, data, splitter, j - 1);
      ParseFromLastWins(attrs[name := d], rest, data, splitter, j - 1);
    }
  }

  /** An attribute no later split sets keeps its value. */
  lemma {:induction false} ParseFromKeepsUnset(attrs: map<string, Formatter.Data>, splits: seq<Split>, data: Formatter.Data,
                                               splitter: Splitter, name: string)
    requires AllSplit(splits, data, splitter) && name in attrs
    requires forall j :: 0 <= j < |splits| ==> Label(splits, data, splitter, j) != name
    ensures ParseFrom(attrs, splits, data, splitter).Ok?
    ensures var m := ParseFrom(attrs, splits, data, splitter).value;
      name in m && m[name] == attrs[name]
    decreases |splits|
  {
    ParseFromOk(attrs, splits, data, splitter);
    if |splits| > 0 {
      var (l, d) := splitter(splits[0], data).value;
      var rest := splits[1..];
      assert Label(splits, data, splitter, 0) == l;
      assert AllSplit(rest, data, splitter) by {
        forall i | 0 <= i < |rest| ensures splitter(rest[i], data).Ok? {
          assert rest[i] == splits[i + 1];
        }
      }
      forall j | 0 <= j < |rest| ensures Label(rest, data, splitter, j) != name {
        LabelOfRest(splits, data, splitter, j);
      }
      ParseFromKeepsUnset(attrs[l := d], rest, data, splitter, name);
    }
  }

  /** `DataHolder`: an object whose attributes are set one split at a time. */
  class DataHolder {
    var attrs: map<string, Formatter.Data>

    constructor ()
      ensures attrs == map[]
    {
      attrs := map[];
    }
  }

  /** The record `create_registry_record` builds from the card's fields. */
  datatype RegistryRecord = RegistryRecord(
    dataName: string,
    team: string,
    userEmail: string,
    dataSplits: seq<Split>,
    dataUri: Option<string>,
    driftUri: Option<string>,
    version: Option<int>,
    featureMap: Option<Formatter.FeatureMap>,
    dataType: Option<string>,
    uid: Option<string>,
    dependentVars: Option<seq<string>>)

  class DataCard {
    var dataName: string
    var team: string
    var userEmail: string
    var data: Formatter.Data
    var driftReport: PyValue
    var dataSplits: seq<Split>
    var dataUri: Option<string>
    var driftUri: Option<string>
    var version: Option<int>
    var featureMap: Option<Formatter.FeatureMap>
    var dataType: Option<string>
    var uid: Option<string>
    var dependentVars: Option<seq<string>>

    /** A card as pydantic builds it: `data_splits` goes through
        `convert_none`, every optional field not given is `None`. */
    constructor (dataName: string, team: string, userEmail: string, data: Formatter.Data,
                 driftReport: PyValue, dataSplits: Option<seq<Split>>, dependentVars: Option<seq<string>>)
      ensures this.dataName == dataName && this.team == team && this.userEmail == userEmail
      ensures this.data == data && this.driftReport == driftReport && this.dependentVars == dependentVars
      ensures dataSplits.None? ==> this.dataSplits == []
      ensures dataSplits.Some? ==> |this.dataSplits| == |dataSplits.value|
      ensures dataSplits.Some? ==> forall i :: 0 <= i < |this.dataSplits| ==>
        this.dataSplits[i].Keys == dataSplits.value[i].Keys
        && (forall k :: k in this.dataSplits[i] && k != "indices" ==> this.dataSplits[i][k] == dataSplits.value[i][k])
        && ("indices" in this.dataSplits[i] ==> this.dataSplits[i]["indices"] == IndicesAsList(dataSplits.value[i]["indices"]))
      ensures dataUri.None? && driftUri.None? && version.None? && featureMap.None? && dataType.None? && uid.None?
    {
      var splits := ConvertNone(dataSplits);
      this.dataName := dataName;
      this.team := team;
      this.userEmail := userEmail;
      this.data := data;
      this.driftReport := driftReport;
      this.dataSplits := splits;
      this.dataUri := None;
      this.driftUri := None;
      this.version := None;
      this.featureMap := None;
      this.dataType := None;
      this.uid := None;
      this.dependentVars := dependentVars;
    }

    /** `has_data_splits`: `bool(self.data_splits)`. */
    predicate HasDataSplits()
      reads this
      ensures HasDataSplits() <==> dataSplits != []
    {
      |dataSplits| > 0
    }

    /** `_parse_data_splits`: one holder attribute per split label, set in
        list order. */
    method ParseDataSplits(splitter: Splitter) returns (r: Result<DataHolder, string>)
      ensures r.Ok? <==> AllSplit(dataSplits, data, splitter)
      ensures r.Ok? ==> fresh(r.value) && Ok(r.value.attrs) == ParseFrom(map[], dataSplits, data, splitter)
    {
      ParseFromOk(map[], dataSplits, data, splitter);
      var holder := new DataHolder();
      var i := 0;
      while i < |dataSplits|
        invariant 0 <= i <= |dataSplits|
        invariant fresh(holder)
        invariant ParseFrom(holder.attrs, dataSplits[i..], data, splitter) == ParseFrom(map[], dataSplits, data, splitter)
      {
        assert dataSplits[i..][1..] == dataSplits[i + 1..];
        var result := splitter(dataSplits[i], data);
        if result.Err? {
          return Err(result.error);
        }
        var (name, split) := result.value;
        holder.attrs := holder.attrs[name := split];
        i := i + 1;
      }
      return Ok(holder);
    }

    /** `split_data`: `None` when the card has no splits, otherwise the
        parsed holder. */
    method SplitData(splitter: Splitter) returns (r: Result<Option<DataHolder>, string>)
      ensures r == Ok(None) <==> !HasDataSplits()
      ensures r.Err? <==> HasDataSplits() && !AllSplit(dataSplits, data, splitter)
      ensures r.Ok? && r.value.Some? ==> fresh(r.value.value) && Ok(r.value.value.attrs) == ParseFrom(map[], dataSplits, data, splitter)
    {
      if !HasDataSplits() {
        return Ok(None);
      }
      var parsed := ParseDataSplits(splitter);
      match parsed
      case Err(e) => return Err(e);
      case Ok(holder) => return Ok(Some(holder));
    }

    /** `overwrite_converted_data_attributes`. */
    method OverwriteConvertedDataAttributes(converted: Formatter.ArrowTable)
      modifies this`dataUri, this`featureMap, this`dataType
      ensures dataUri == converted.storageUri && featureMap == converted.featureMap
      ensures dataType == Some(converted.tableType)
    {
      dataUri := converted.storageUri;
      featureMap := converted.featureMap;
      dataType := Some(converted.tableType);
    }

    /** `_convert_and_save_data`: convert, derive the schema, store the
        table, then copy the outcome onto the card. */
    method ConvertAndSaveData(blobPath: string, version: int, arrowType: string -> string, store: Store)
      returns (r: Result<(), string>)
      modifies this`dataUri, this`featureMap, this`dataType
      ensures r.Ok? <==> Formatter.ConvertDataToArrow(data, arrowType).Ok?
      ensures r.Err? ==> unchanged(this)
      ensures r.Ok? ==>
        var converted := Formatter.ConvertDataToArrow(data, arrowType).value;
        dataUri == Some(store(StoreRequest(TableData(converted.table), dataName, version, team, blobPath)))
        && featureMap == Some(Formatter.TableSchema(converted.table))
        && dataType == Some(data.className)
    {
      Formatter.ConvertDataToArrowFacts(data, arrowType);
      var conversion := Formatter.ConvertDataToArrow(data, arrowType);
      if conversion.Err? {
        return Err(conversion.error);
      }
      var converted := conversion.value;
      var schema := Formatter.CreateTableSchema(converted.table);
      converted := converted.(featureMap := Some(schema));
      var storageUri := store(StoreRequest(TableData(converted.table), dataName, version, team, blobPath));
      converted := converted.(storageUri := Some(storageUri));
      OverwriteConvertedDataAttributes(converted);
      return Ok(());
    }

    /** `_save_drift`: the drift report is stored, and `drift_uri` set, only
        when the report is truthy. */
    method SaveDrift(blobPath: string, version: int, store: Store)
      modifies this`driftUri
      ensures Truthy(driftReport) ==>
        driftUri == Some(store(StoreRequest(DriftData(driftReport), "drift_report", version, team, blobPath)))
      ensures !Truthy(driftReport) ==> driftUri == old(driftUri)
    {
      if Truthy(driftReport) {
        var storagePath := store(StoreRequest(DriftData(driftReport), "drift_report", version, team, blobPath));
        driftUri := Some(storagePath);
      }
    }

    /** The card's fields as a record. */
    function Record(): RegistryRecord
      reads this
    {
      RegistryRecord(dataName, team, userEmail, dataSplits, dataUri, driftUri, version, featureMap, dataType, uid, dependentVars)
    }

    /** `create_registry_record`: `uid` and `version` are set first, and stay
        set even when the conversion then fails. */
    method CreateRegistryRecord(dataRegistry: string, uid: string, version: int, arrowType: string -> string, store: Store)
      returns (r: Result<RegistryRecord, string>)
      modifies this`uid, this`version, this`dataUri, this`featureMap, this`dataType, this`driftUri
      ensures this.uid == Some(uid) && this.version == Some(version)
      ensures r.Ok? <==> Formatter.ConvertDataToArrow(data, arrowType).Ok?
      ensures r.Err? ==> dataUri == old(dataUri) && featureMap == old(featureMap) && dataType == old(dataType) && driftUri == old(driftUri)
      ensures r.Ok? ==>
        var converted := Formatter.ConvertDataToArrow(data, arrowType).value;
        dataUri == Some(store(StoreRequest(TableData(converted.table), dataName, version, team, dataRegistry)))
        && featureMap == Some(Formatter.TableSchema(converted.table))
        && dataType == Some(data.className)
        && driftUri == (if Truthy(driftReport) then Some(store(StoreRequest(DriftData(driftReport), "drift_report", version, team, dataRegistry))) else old(driftUri))
        && r.value == Record()
    {
      this.uid := Some(uid);
      this.version := Some(version);
      var saved := ConvertAndSaveData(dataRegistry, version, arrowType, store);
      if saved.Err? {
        return Err(saved.error);
      }
      SaveDrift(dataRegistry, version, store);
      return Ok(Record());
    }
  }
}
