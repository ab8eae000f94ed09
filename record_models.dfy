/** The registry records of opsml_artifacts/registry/cards/record_models.py:
    how `data_splits` is wrapped on the way into the data registry and
    unwrapped on the way out, how a loaded data record fills in its data and
    drift report from storage, and how a model record loads its card
    definition. Storage is the function `load(storage_uri, artifact_type)`,
    standing for `load_record_artifact_from_storage`. */
module RecordModels {
  import opened Wrappers
  import opened PyValues

  /** `load_record_artifact_from_storage(storage_uri=…, artifact_type=…)`. */
  type Loader = (PyValue, PyValue) -> PyValue

  /** `DataRegistryRecord.convert_to_dict`: a truthy split list is wrapped
      under the key `"splits"`, anything falsy passes through. */
  function ConvertToDict(splits: PyValue): (r: PyValue)
    ensures Truthy(splits) ==> r == PyDict(map["splits" := splits])
    ensures !Truthy(splits) ==> r == splits
  {
    if Truthy(splits) then PyDict(map["splits" := splits]) else splits
  }

  /** `LoadedDataRecord.get_splits`: a truthy value is unwrapped with
      `.get("splits")`; a truthy value without `.get` raises `AttributeError`;
      a falsy value is returned as it is. */
  function GetSplits(splits: PyValue): (r: Result<PyValue, string>)
    ensures !Truthy(splits) ==> r == Ok(splits)
    ensures Truthy(splits) && splits.PyDict? ==> r == Ok(Get(splits.entries, "splits"))
    ensures r.Err? <==> Truthy(splits) && !splits.PyDict?
  {
    if Truthy(splits) then
      match splits
      case PyDict(entries) => Ok(Get(entries, "splits"))
      case _ => Err("AttributeError")
    else Ok(splits)
  }

  /** Unwrapping what was wrapped gives back the split list, whatever it was. */
  lemma SplitsRoundTrip(splits: PyValue)
    ensures GetSplits(ConvertToDict(splits)) == Ok(splits)
  {
    if Truthy(splits) {
      var m := map["splits" := splits];
      assert "splits" in m;
      assert |m| == 1;
    }
  }

  /** `LoadedDataRecord.load_data`. */
  function LoadData(values: map<string, PyValue>, load: Loader): (r: Result<PyValue, string>)
    ensures r.Ok? <==> "data_uri" in values && "data_type" in values
    ensures r.Ok? ==> r.value == load(values["data_uri"], values["data_type"])
    ensures "data_uri" !in values ==> r == Err("KeyError: 'data_uri'")
  {
    if "data_uri" !in values then Err("KeyError: 'data_uri'")
    else if "data_type" !in values then Err("KeyError: 'data_type'")
    else Ok(load(values["data_uri"], values["data_type"]))
  }

  /** `LoadedDataRecord.load_drift_report`: storage is read only when
      `drift_uri` is present and truthy. */
  function LoadDriftReport(values: map<string, PyValue>, load: Loader): (r: PyValue)
    ensures !Truthy(Get(values, "drift_uri")) ==> r == PyNone
    ensures Truthy(Get(values, "drift_uri")) ==> r == load(values["drift_uri"], PyStr("dict"))
  {
    if Truthy(Get(values, "drift_uri")) then load(values["drift_uri"], PyStr("dict")) else PyNone
  }

  /** Without a drift uri the report does not depend on storage at all. */
  lemma DriftReportNeedsNoStorage(values: map<string, PyValue>, load1: Loader, load2: Loader)
    requires !Truthy(Get(values, "drift_uri"))
    ensures LoadDriftReport(values, load1) == LoadDriftReport(values, load2) == PyNone
  {
  }

  /** `LoadedDataRecord.load_attributes`, the root validator: `data_splits`
      is unwrapped, then `data` is loaded, then `drift_report`; every other
      key is left as it was. `Err` is the `KeyError` or `AttributeError`
      raised on the way. */
  function LoadAttributes(values: map<string, PyValue>, load: Loader): (r: Result<map<string, PyValue>, string>)
    ensures r.Ok? <==>
      "data_splits" in values && GetSplits(values["data_splits"]).Ok? && "data_uri" in values && "data_type" in values
    ensures r.Ok? ==>
      r.value.Keys == values.Keys + {"data", "drift_report"}
      && r.value["data_splits"] == GetSplits(values["data_splits"]).value
      && r.value["data"] == load(values["data_uri"], values["data_type"])
      && r.value["drift_report"] == LoadDriftReport(values, load)
      && forall k :: k in values && k !in {"data_splits", "data", "drift_report"} ==> r.value[k] == values[k]
  {
    if "data_splits" !in values then Err("KeyError: 'data_splits'")
    else
      match GetSplits(values["data_splits"])
      case Err(e) => Err(e)
      case Ok(splits) =>
        var values1 := values["data_splits" := splits];
        match LoadData(values1, load)
        case Err(e) => Err(e)
        case Ok(data) =>
          var values2 := values1["data" := data];
          Ok(values2["drift_report" := LoadDriftReport(values2, load)])
  }

  datatype LoadedModelRecord = LoadedModelRecord(
    uid: string,
    version: int,
    team: string,
    userEmail: string,
    name: string,
    modelUri: string,
    modelType: string)

  /** `LoadedModelRecord.load_model_card_definition`: the loaded dict with
      `model_uri` overwritten by the record's own; a loaded value that is
      not a dict cannot take the assignment (`TypeError`). */
  function LoadModelCardDefinition(record: LoadedModelRecord, load: Loader): (r: Result<map<string, PyValue>, string>)
    ensures r.Ok? <==> load(PyStr(record.modelUri), PyStr("dict")).PyDict?
    ensures r.Ok? ==>
      var loaded := load(PyStr(record.modelUri), PyStr("dict")).entries;
      r.value.Keys == loaded.Keys + {"model_uri"}
      && r.value["model_uri"] == PyStr(record.modelUri)
      && forall k :: k in loaded && k != "model_uri" ==> r.value[k] == loaded[k]
  {
    match load(PyStr(record.modelUri), PyStr("dict"))
    case PyDict(definition) => Ok(definition["model_uri" := PyStr(record.modelUri)])
    case _ => Err("TypeError")
  }
}
