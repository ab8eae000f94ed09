# opsml core, modelled in Dafny

This project models the small deterministic routines that opsml, an ML
artifact registry, runs around its libraries. Library objects become
descriptors: kind flags, class and module names, column lists and row
sequences. Storage, the filesystem, the splitter and the library
conversions are functions handed in by the caller. The routines are:

- the data-type dispatcher `check_data_type` and `get_class_name`
  (module `DataTypes`);
- the arrow formatters, `convert_data_to_arrow` and
  `create_table_schema` (module `Formatter`);
- `RegistryType.from_str`, `DataCardMetadata.lower_descriptions`,
  `NON_PIPELINE_CARDS` and `Comment.__eq__` (module `CardTypes`);
- the `ProjectInfo` identifier validator, `project_id` and
  `project_name` (module `ProjectTypes`);
- the registry records' `data_splits` wrap and unwrap (a round trip), and
  the loaded records' storage loads (module `RecordModels`);
- the data card (module `DataCards`), a class whose registration step
  updates its fields in place:
  - the `convert_none` validator;
  - `split_data` and `_parse_data_splits`;
  - data conversion and storage, drift storage and `create_registry_record`;
- the two settings routes, the table-name parse, `/upload` and
  `/download_model` (modules `SettingsRoute` and `ArtifactsRoutes`);
- file datasets (module `CustomData`):
  - `get_metadata_filepath`;
  - the `FileRecord` validator;
  - `Metadata.size` and `write_to_file`;
  - `Dataset.split_data`, a class method filling `splits` in place;
- the TensorFlow interface's `get_sample_data` and `check_model`
  (module `TfModel`).

Helper modules:

- `Wrappers`: `Option` and `Result`.
- `PyValues`: the Python values these routines keep in dicts, and Python's
  truth test on them.
- `Strings`:
  - `str.strip` with the exact whitespace set of `str.isspace`;
  - ASCII `str.lower`;
  - `str.split` on one character, and substring search.
- `Paths`: `/` joining, and `Path.name`.
- `Collections`: an insertion-ordered dict with Python's assignment
  semantics. An existing key keeps its place and takes the new value; a
  new key goes last.

Loops the source runs are methods with loop invariants. Each is proved
equal to a specification function, and the lemmas state what the source
promises about that function. Examples: `LowerDescriptions`,
`CreateTableSchema`, `ConvertNone`, `ReceiveStream`, `WriteToFile`,
`GetSampleData` and `CheckModel`.

Where the code and its documentation disagree, the model follows the code.
`project_id` is `team:name` (opsml/projects/base/types.py:57), although the
docstring describes it as `name:team`.

## Model

| member | source | states |
|---|---|---|
| DataTypes.GetClassName | opsml/registry/data/types.py:20-34 | The name ends in the qualname. For `builtins` it is the bare qualname; otherwise it is the module, a `.`, then the qualname. |
| DataTypes.CheckDataType | opsml/registry/data/types.py:70-107 | Never `sql` or `profile`. A class-name tag only when no isinstance test held and the class name equals the tag. `ValueError` exactly when nothing matches, with the message built from `str(type(data))`. |
| DataTypes.EarliestCheckWins | opsml/registry/data/types.py:82-101 | An object passing several checks gets the tag of the earliest one in the fixed order. |
| DataTypes.DispatchIsFirstMatch | opsml/registry/data/types.py:80-103 | The dispatcher equals "first match in the priority list", and fails exactly when the list has no match. |
| DataTypes.MessageNamesType | opsml/registry/data/types.py:103-107 | The error message contains the type repr of the object received. |
| DataTypes.FirstMatchIsEarliest | opsml/registry/data/types.py:82-101 | The first check that holds decides the tag. |
| Formatter.ValidateData | opsml_data/registry/formatter.py:43-97 | Each formatter accepts exactly its own library type. |
| Formatter.FromPandas | opsml_data/registry/formatter.py:35 | The converted frame is an arrow table with the same columns, in order. |
| Formatter.Convert | opsml_data/registry/formatter.py:25-91 | `table_type` is the input's class name. The numpy and arrow formatters return the input as the table; the pandas formatter returns an arrow table. No uri or feature map is set. |
| Formatter.SelectFormatterIsFirstValid | opsml_data/registry/formatter.py:113-119 | A formatter is found iff some formatter accepts the data, and the one found is the first that does. |
| Formatter.ConvertDataToArrowFacts | opsml_data/registry/formatter.py:103-121 | Conversion succeeds iff the data is a pandas frame, a numpy array or an arrow table; otherwise `next()` raises. The result comes from the formatter accepting the data, and numpy and arrow inputs come back as they are. |
| Formatter.SchemaPairs | opsml_data/registry/formatter.py:137-138 | The `(name, str(type))` pair of every column, in schema order. |
| Formatter.CreateTableSchema | opsml_data/registry/formatter.py:124-146 | Equals the schema function. An ndarray gives exactly `{"numpy_dtype": dtype}`; any other non-table gives exactly `{"data_dtype": None}`. |
| Formatter.TableSchemaKeys | opsml_data/registry/formatter.py:134-138 | A table's schema has one entry per distinct column name and no other key. |
| Formatter.TableSchemaLastWins | opsml_data/registry/formatter.py:137-138 | A repeated column name maps to the type of its last column. |
| Formatter.PandasSchemaKeys | opsml_data/registry/formatter.py:35-138 | A converted pandas frame's schema is keyed by the frame's column names. |
| CardTypes.FromStr | opsml/registry/types/card.py:34-48 | A result's value is the stripped, lowered name. `NotImplementedError` only when no registry type has that value. |
| CardTypes.FromStrRoundTrip | opsml/registry/types/card.py:25-48 | Every registry type parses back from its own value. |
| CardTypes.FromStrAccepts | opsml/registry/types/card.py:35-48 | A name gives type `t` iff, stripped and lowered, it is `t`'s value. |
| CardTypes.FromStrIgnoresPadding | opsml/registry/types/card.py:35 | Whitespace around the name does not change the result. |
| CardTypes.FromStrIgnoresCase | opsml/registry/types/card.py:35 | Names equal up to letter case give the same result. |
| CardTypes.LoweredPairs | opsml/registry/types/card.py:296-297 | The lowered `(feature, description)` pair of every entry, in order. |
| CardTypes.LowerDescriptions | opsml/registry/types/card.py:291-299 | An empty dict comes back unchanged. Otherwise the result is the dict the lowering loop builds. |
| CardTypes.LoweredDescriptionsFacts | opsml/registry/types/card.py:295-299 | Distinct keys stay distinct. The keys are exactly the lowered input keys. Every key and description is lower case. |
| CardTypes.LoweredDescriptionsLastWins | opsml/registry/types/card.py:296-297 | Keys that collide once lowered keep the description of the last one. |
| CardTypes.LoweredDescriptionsIdempotent | opsml/registry/types/card.py:291-299 | Validating the validated dict changes nothing. |
| CardTypes.ValuesExcept | opsml/registry/types/card.py:302 | The comprehension yields no excluded value and at most one value per card type. A value is in the list iff some card type has it and it is not excluded. |
| CardTypes.ValuesExceptAppend | opsml/registry/types/card.py:302 | The comprehension over two runs of card types is the comprehension over the first followed by that over the second, so the values keep the enum's order. |
| CardTypes.ValuesExceptSingle | opsml/registry/types/card.py:302 | One card type yields its value unless that value is excluded. |
| CardTypes.NonPipelineCards | opsml/registry/types/card.py:302 | `NON_PIPELINE_CARDS` is exactly `["data", "run", "model"]`. |
| CardTypes.CommentEquals | opsml/registry/types/card.py:72-73 | Two comments are equal iff name, comment and timestamp all are. |
| ProjectTypes.IdentifierValidator | opsml/projects/base/types.py:65-72 | `None` iff the input is `None`. A string comes back with no surrounding whitespace, no upper-case letter and no `_`. |
| ProjectTypes.NormalizeFacts | opsml/projects/base/types.py:72 | The normalised identifier is stripped, lower case and `_`-free. It equals the stripped case-and-dash fold of the input. |
| ProjectTypes.NormalizeIdempotent | opsml/projects/base/types.py:72 | Normalising twice is normalising once. |
| ProjectTypes.NormalizeFoldsCase | opsml/projects/base/types.py:72 | Identifiers differing only in case or in `_` versus `-` normalise equal. |
| ProjectTypes.NormalizeIgnoresPadding | opsml/projects/base/types.py:72 | Surrounding whitespace does not change the normalised identifier. |
| ProjectTypes.MakeProjectInfo | opsml/projects/base/types.py:28-37 | Validation succeeds iff the normalised name and team are non-empty and a given email is non-empty. The fields hold the normalised values. |
| ProjectTypes.ProjectId | opsml/projects/base/types.py:55-57 | The id is the team, a `:`, then the name, team first. |
| ProjectTypes.ProjectName | opsml/projects/base/types.py:59-62 | The project name is the validated name, and it ends the project id. |
| ProjectTypes.ProjectIdInjective | opsml/projects/base/types.py:55-57 | For teams without `:`, equal ids mean equal team and name. |
| ProjectTypes.AcceptedProject | opsml/projects/base/types.py:28-62 | An accepted project has a non-empty normalised name and team. `project_name` is the normalised name and `project_id` is `team:name`. |
| RecordModels.ConvertToDict | opsml_artifacts/registry/cards/record_models.py:26-31 | A truthy split list is wrapped as `{"splits": splits}`; a falsy value passes through. |
| RecordModels.GetSplits | opsml_artifacts/registry/cards/record_models.py:70-74 | A falsy value passes through and a truthy dict is unwrapped at `"splits"`. Any other truthy value raises. |
| RecordModels.SplitsRoundTrip | opsml_artifacts/registry/cards/record_models.py:26-74 | Unwrapping what was wrapped gives back the original value, for every value. |
| RecordModels.LoadData | opsml_artifacts/registry/cards/record_models.py:76-82 | Succeeds iff `data_uri` and `data_type` are both present, with the value storage loads for them. A missing `data_uri` is the `KeyError` for it. |
| RecordModels.LoadDriftReport | opsml_artifacts/registry/cards/record_models.py:84-92 | `None` without a truthy `drift_uri`; otherwise the value loaded from that uri as a dict. |
| RecordModels.DriftReportNeedsNoStorage | opsml_artifacts/registry/cards/record_models.py:87-92 | Without a drift uri, the report does not depend on storage. |
| RecordModels.LoadAttributes | opsml_artifacts/registry/cards/record_models.py:62-68 | Succeeds iff the needed keys are present and the splits unwrap. Sets `data_splits`, `data` and `drift_report` and leaves every other key alone. |
| RecordModels.LoadModelCardDefinition | opsml_artifacts/registry/cards/record_models.py:112-117 | The loaded dict with `model_uri` set to the record's own uri and nothing else changed. A non-dict raises. |
| DataCards.IndicesAsList | opsml_data/registry/data_card.py:49-50 | An ndarray becomes the list of its elements; anything else is kept. |
| DataCards.ConvertNone | opsml_data/registry/data_card.py:42-52 | `None` becomes `[]`. Otherwise the same number of splits, each with the same keys and values, except that ndarray `indices` become lists. |
| DataCards.DataCard.constructor | opsml_data/registry/data_card.py:17-52 | The given fields are kept. `data_splits` goes through `convert_none`: `None` becomes `[]`, and otherwise each split keeps its keys and values except that ndarray `indices` become lists. Every other optional field is `None`. |
| DataCards.DataCard.HasDataSplits | opsml_data/registry/data_card.py:38-40 | True iff the card has at least one split. |
| DataCards.ParseFromOk | opsml_data/registry/data_card.py:116-121 | Parsing succeeds iff the splitter accepts every split. |
| DataCards.ParseFromKeys | opsml_data/registry/data_card.py:117-119 | One holder attribute per split label, added to those already set. |
| DataCards.ParseFromLastWins | opsml_data/registry/data_card.py:117-119 | A label given to several splits holds the data of the last of them. |
| DataCards.ParseFromKeepsUnset | opsml_data/registry/data_card.py:117-119 | An attribute that no later split sets keeps its value. |
| DataCards.DataCard.ParseDataSplits | opsml_data/registry/data_card.py:114-121 | Succeeds iff the splitter accepts every split. The fresh holder's attributes are those the in-order parse sets. |
| DataCards.DataCard.SplitData | opsml_data/registry/data_card.py:99-112 | `None` iff the card has no splits. An error iff some split is rejected. Otherwise the parsed holder. |
| DataCards.DataCard.OverwriteConvertedDataAttributes | opsml_data/registry/data_card.py:54-57 | Only `data_uri`, `feature_map` and `data_type` change, each copied from the converted table. |
| DataCards.DataCard.ConvertAndSaveData | opsml_data/registry/data_card.py:123-144 | Fails, leaving the card unchanged, iff conversion fails. Otherwise `data_uri` is the uri storage returns for the converted table, `feature_map` its schema and `data_type` the data's class name. |
| DataCards.DataCard.SaveDrift | opsml_data/registry/data_card.py:146-159 | The report is stored, and `drift_uri` set to the returned uri, only when the report is truthy. |
| DataCards.DataCard.CreateRegistryRecord | opsml_data/registry/data_card.py:161-179 | `uid` and `version` are set whatever follows. Conversion, storage and drift then update the card as above, and the record is the card's fields. |
| SettingsRoute.StorageType | opsml/app/routes/settings.py:18-24 | An empty uri gives LOCAL. A uri with proxy gives API. A `gs://` uri without proxy gives GCS; any other uri without proxy gives LOCAL. GCS never comes with proxy. |
| SettingsRoute.GetStorageSettings | opsml/app/routes/settings.py:18-31 | The decided storage type, with uri, proxy flag and version echoed from the config. |
| ArtifactsRoutes.GetStorageSettings | opsml/app/routes/artifacts_routes.py:51-75 | API iff a uri with proxy; GCS iff a `gs://` uri without proxy; otherwise LOCAL. The uri is echoed. Only non-GCS answers carry the proxy flag. |
| ArtifactsRoutes.StorageSettingsAgree | opsml/app/routes/artifacts_routes.py:51-75 | Both settings routes report the same storage system and uri for every config. |
| ArtifactsRoutes.TableForRegistry | opsml/app/routes/artifacts_routes.py:84 | Succeeds iff the name contains `_`. The key is lower case and holds no `_`. |
| ArtifactsRoutes.TableForRegistrySegment | opsml/app/routes/artifacts_routes.py:84 | The key is the lowered text between the first and the second `_`, or the end. |
| ArtifactsRoutes.PlainNameSelectsNothing | opsml/app/routes/artifacts_routes.py:84 | Every name without `_` fails with the `IndexError` and selects no registry. |
| ArtifactsRoutes.FirstHeader | opsml/app/routes/artifacts_routes.py:238-239 | The first header whose name equals the one looked up up to case; no earlier header has that name. |
| ArtifactsRoutes.HeaderGet | opsml/app/routes/artifacts_routes.py:238-239 | A value is found iff some header has the name up to case, and it is the value of the first such header. |
| ArtifactsRoutes.HeaderGetIgnoresCase | opsml/app/routes/artifacts_routes.py:238-239 | Names that differ only in case find the same header. |
| ArtifactsRoutes.LowerCaseHeadersFound | opsml/app/routes/artifacts_routes.py:238-251 | `filename` and `writepath` headers sent in lower case are found by the lookups of `Filename` and `WritePath`. |
| ArtifactsRoutes.StepAt | opsml/app/routes/artifacts_routes.py:263-265 | A chunk passes iff the body so far is within the body limit and the parser carries on. |
| ArtifactsRoutes.FirstFailing | opsml/app/routes/artifacts_routes.py:263-282 | Every chunk before it passes, and the chunk at it fails. |
| ArtifactsRoutes.InterleavedFacts | opsml/app/routes/artifacts_routes.py:263-265 | In the trace of passing chunks, chunk `j`'s body check sits at `2j` and its parse at `2j+1`. |
| ArtifactsRoutes.UploadTraceOrder | opsml/app/routes/artifacts_routes.py:263-265 | The parser sees a chunk only right after the body validator has passed it. Every chunk before the first failure is both checked and parsed. |
| ArtifactsRoutes.ReceiveStream | opsml/app/routes/artifacts_routes.py:263-298 | The loop's response is the one the first failing chunk decides: 413 for either limit, 500 for a parser error. With no failure it is 422 without a file and the joined path otherwise. Its event trace is the upload trace. |
| ArtifactsRoutes.UploadFile | opsml/app/routes/artifacts_routes.py:234-298 | The response is the upload result. Nothing reaches the validator or parser when a header is missing (looked up regardless of case) or setup fails. |
| ArtifactsRoutes.UploadHeaderChecks | opsml/app/routes/artifacts_routes.py:238-251 | A missing `Filename` header, in any case, gives 422 before `WritePath` is looked at. A missing `WritePath` gives 422. |
| ArtifactsRoutes.UploadOutcomes | opsml/app/routes/artifacts_routes.py:263-298 | 413 iff the first failing chunk breaks the body or the file limit. Success iff every chunk passes and a file was found; then `storage_uri` is `join(write_path, filename)`, both taken from the headers. |
| ArtifactsRoutes.BodyLimitAboveFileLimit | opsml/app/routes/artifacts_routes.py:47-48 | The body limit is exactly 1024 bytes above the 50 GiB file limit. |
| ArtifactsRoutes.DownloadModel | opsml/app/routes/artifacts_routes.py:201-223 | Several cards or none each give 500, with distinct messages. The call succeeds iff there is exactly one card; it then streams that card's `onnx_model_uri` in `CHUNK_SIZE` chunks as an attachment. |
| CustomData.FirstNamed | opsml/data/interfaces/custom_data/base.py:48-50 | The first path with the given name, all earlier paths having another name. |
| CustomData.GetMetadataFilepath | opsml/data/interfaces/custom_data/base.py:31-52 | Returns the first path named `metadata.jsonl` under `data_dir/split` (or `data_dir`). `ValueError` iff none exists, with the message. |
| CustomData.AsPath | opsml/data/interfaces/custom_data/base.py:75-76 | A `str` becomes a path, and a path is always true. |
| CustomData.CheckArgs | opsml/data/interfaces/custom_data/base.py:69-88 | A reload (filepath and size both truthy) is returned unchanged. Otherwise it fails iff the path is missing or does not exist. On success `size` is set to the file's size and every other key is unchanged. |
| CustomData.ZeroSizeRecomputed | opsml/data/interfaces/custom_data/base.py:79-86 | A size of 0 is recomputed from the file. |
| CustomData.CheckArgsIdempotent | opsml/data/interfaces/custom_data/base.py:69-88 | Validating the validated arguments again changes nothing. |
| CustomData.Metadata.Size | opsml/data/interfaces/custom_data/base.py:129-132 | No records give 0. With non-negative record sizes the size is non-negative and at least every record's size. |
| CustomData.TotalSize | opsml/data/interfaces/custom_data/base.py:132 | The sum of non-negative sizes is non-negative. |
| CustomData.TotalSizeAppend | opsml/data/interfaces/custom_data/base.py:129-132 | The total size of two record lists is the sum of their totals. |
| CustomData.TotalSizeBounds | opsml/data/interfaces/custom_data/base.py:129-132 | No records give 0 and one record gives its size. With non-negative sizes the total is non-negative and at least every size. |
| CustomData.WriteToFile | opsml/data/interfaces/custom_data/base.py:100-116 | Fails iff the file is not named `metadata.jsonl`. Otherwise each record's JSON is written followed by a newline, in record order. |
| CustomData.LoadSplitsValues | opsml/data/interfaces/custom_data/base.py:176-178 | Every split stored holds the metadata its load returned, and that load succeeded. |
| CustomData.LoadSplitsOutcome | opsml/data/interfaces/custom_data/base.py:176-178 | The loop succeeds iff every subdirectory loads, and then holds one split per subdirectory. Otherwise the error is that of the first failing load, and the splits stored are exactly the subdirectories before it. |
| CustomData.PartialSplitsStay | opsml/data/interfaces/custom_data/base.py:171-178 | When the first subdirectory loads and a later one fails, the dataset keeps a split, so a retry of `split_data` returns at once. |
| CustomData.LoadSplitsPrefixFails | opsml/data/interfaces/custom_data/base.py:176-178 | Once a load fails, loading further subdirectories keeps the error and the splits stored so far. |
| CustomData.Dataset.SplitData | opsml/data/interfaces/custom_data/base.py:165-180 | Existing splits are left alone. Otherwise the subdirectories are loaded in order into the splits, stopping at the first failing load with its error and the splits stored before it. Without subdirectories a single `None` split is loaded. On success the dataset has a split. |
| TfModel.Take1 | opsml/registry/model/interfaces/tf.py:58 | `[0:1]` keeps at most the first element, and keeps it when there is one. |
| TfModel.Slice | opsml/registry/model/interfaces/tf.py:58-69 | Arrays, tensors, lists and tuples slice to their first element and keep their kind. Anything else cannot be sliced. |
| TfModel.SliceIdempotent | opsml/registry/model/interfaces/tf.py:58-69 | Slicing a slice changes nothing. |
| TfModel.SliceItems | opsml/registry/model/interfaces/tf.py:61 | Succeeds iff every element slices, giving the same number of sliced elements. |
| TfModel.SliceEntries | opsml/registry/model/interfaces/tf.py:68-69 | Succeeds iff every value slices, giving the same keys in order with sliced values. |
| TfModel.GetSampleData | opsml/registry/model/interfaces/tf.py:49-72 | The method, including the dict loop, returns the reduction the specification function gives. |
| TfModel.SampleOfFacts | opsml/registry/model/interfaces/tf.py:57-72 | An array or tensor keeps at most its first row. A list keeps its length with each element sliced. A tuple becomes a generator over its elements. Anything else, `None` included, raises `ValueError`. |
| TfModel.SampleOfDict | opsml/registry/model/interfaces/tf.py:66-70 | A dict keeps its key set with every value sliced; with distinct keys it keeps their order too. |
| TfModel.ReductionStable | opsml/registry/model/interfaces/tf.py:57-72 | Reducing a reduced sample changes nothing, except a tuple: its generator is then refused. |
| TfModel.HasKerasBase | opsml/registry/model/interfaces/tf.py:90-92 | True iff some base name contains `keras`. |
| TfModel.ModelTypeOrder | opsml/registry/model/interfaces/tf.py:86-92 | A keras module gives the class name. Otherwise a keras base gives `subclass`. With neither, no model type is set. |
| TfModel.CheckModelResult | opsml/registry/model/interfaces/tf.py:76-101 | A truthy `modelcard_uid` returns the args unchanged. Otherwise it succeeds iff the model is a keras model and the sample reduces; it then sets the reduced sample, its class name, the preprocessor name and any inferred model type, and changes no other key; a `model_type` in the args is kept when none is inferred. |
| TfModel.CheckModel | opsml/registry/model/interfaces/tf.py:76-101 | The method, including the loop over the bases, returns what the specification function gives. |

## Left out

- HTTP plumbing of the routes is not modelled. This covers FastAPI's request and response objects, `request.stream()`, `StreamingFormDataParser` and `ExternalFileTarget`. The body validator and the parser are functions of the body received so far. `opsml.app.routes.utils`, where `MaxBodySizeValidator` sits, is not part of this model, so the exact boundary of the body limit (`>` or `>=`) is left to that function.
- ArtifactsRoutes.UploadFile: a `ClientDisconnect` is treated as the end of the stream, which is what the source's handler amounts to. The log line it writes is not modelled.
- ArtifactsRoutes.UploadFile models errors raised inside the parser only as the parser's outcome. Errors raised elsewhere in the loop are not modelled.
- The `{error.body_len}` of the 413 message is printed with a decimal conversion of the byte count. The two limits appear as fixed decimal texts.
- The registry routes `check_uid`, `set_version`, `list`, `create` and `update` call registry methods that are not part of this model. Only the table-name parse they share is modelled.
- `download_model`: the registry listing and the storage client's `iterfile` are not part of this model. The cards listed are an input, and the stream is described by its file path, chunk size and headers. Errors raised while streaming are not modelled.
- The `StorageSettingsResponse` defaults (`proxy` and `version` left unset) are kept as "not set". The `StorageSystem` string values are not part of this model.
- RecordModels.LoadAttributes: the storage load `load_record_artifact_from_storage` is a function. Pydantic's field parsing after the root validator is not modelled.
- RecordModels: `RegistryRecord`'s own validation (field types, `version` parsing) is not modelled, and neither is `ModelRegistryRecord`.
- DataCards: the splitter is a function. Its range, index and column rules are not part of this model.
- DataCards.ConvertNone: the source rewrites the caller's split dicts in place. The model returns new dicts, so aliasing of the caller's list is not captured.
- The library conversions `pa.Table.from_pandas`, parquet writes and polars conversions are not modelled. `pa.Table.from_pandas` is a column-type mapping passed in.
- `save_record_data_to_storage` is a function returning the uri it wrote to.
- Python `str.lower` is modelled on ASCII letters only. Non-ASCII case mappings are not modelled.
- CardTypes.LowerDescriptions: only dict inputs are modelled. A falsy non-dict such as `None` would also come back unchanged.
- CardTypes: `Comment`'s timestamp default (the wall clock at import time) is not modelled; the timestamp is always given.
- CardTypes: `Metric`, `Param`, the other card metadata models and `Description.load_summary`, which reads a markdown file, are not modelled.
- ProjectTypes.MakeProjectInfo: the defaults of `run_id` (an environment variable) and `tracking_uri` (the settings) are inputs. Pydantic's type coercion is not modelled.
- PyValues: `bool()` of a numpy array with more than one element raises in numpy. The model counts it as true when it is non-empty.
- PyValues: an arbitrary Python object is modelled by its class name and truth value. A non-dict object with a `.get` method is treated as lacking one in `get_splits`.
- CustomData: filesystem access is not modelled except through the functions handed in. These are `iterdir`/`is_dir`, `rglob` (in the order it yields), `exists`, `stat().st_size` and `_load_metadata_from_file`.
- CustomData: `mkdir` and the opening of the file are not modelled.
- CustomData.WriteToFile: what is written is the sequence of strings. `json.dump` is a function, so JSON escaping is not modelled.
- CustomData.AsPath: `Path` normalisation is not modelled beyond `Path("")` being `.`.
- CustomData.SearchPath: the directory `get_metadata_filepath` searches is built with the string join of `Paths`, not with `Path`'s `/`. They differ when the join drops or adds separators: `Path("data") / ""` is `data`, where the model's join gives `data/`.
- CustomData: a `Path` is always true, as in Python.
- CustomData: the caching of `size` by `cached_property` is not modelled; the total is recomputed from the records.
- CustomData: `to_arrow`, `load_from_file`, `arrow_schema`, `name` and `data_type` only raise or return constants, and are not modelled.
- TfModel: `get_model_args`, the helpers' `get_class_name` and `_get_preprocessor_name` are functions.
- TfModel: the key spellings of `CommonKwargs` (`model_type`, `sample_data`, `data_type`, `preprocessor_name`, `preprocessor`) are taken as those strings. The `CommonKwargs` module is not part of this model.
- TfModel.AsSample: a plain non-`None` value under `sample_data` is treated as an object that is not sample data.
- TfModel.Slice: slicing an element that is not an array, tensor, list or tuple is modelled as a `TypeError`, for dicts and strings too. Strings, which Python does slice, are not modelled as sample elements.
- TfModel: `save_model` and `load_model` are not modelled, and neither is the fallback class that raises `ModuleNotFoundError` when TensorFlow is missing.
- TfModel: `model_suffix` and `name()` are the constants `ModelSuffix` and `Name`.
- Not modelled: opsml/registry/data/interfaces/polars_.py (conversions), the storage type modules (schemas and a protocol), the scripts, and the tests of ML tooling.
