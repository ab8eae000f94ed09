/** The artifact routes of opsml/app/routes/artifacts_routes.py that decide
    something themselves: the storage settings, which registry a table name
    names, the header, size and result checks of `/upload`, and the card
    count check of `/download_model`. The registry calls, the storage client
    and the multipart parser are functions given by the caller. */
module ArtifactsRoutes {
  import opened Wrappers
  import opened PyValues
  import Strings
  import Paths
  import SettingsRoute

  const ChunkSize: nat := 31457280
  /** 50 GiB. */
  const MaxFileSize: nat := 1024 * 1024 * 1024 * 50
  const MaxRequestBodySize: nat := MaxFileSize + 1024

  /** This route's `get_storage_settings`: GCS answers carry no proxy flag,
      the others carry it; no answer carries a version. */
  function GetStorageSettings(config: SettingsRoute.AppConfig): (r: SettingsRoute.StorageSettingsResponse)
    ensures r.storageUri == config.storageUri && r.version.None?
    ensures r.storageType == SettingsRoute.Api <==> |config.storageUri| > 0 && config.isProxy
    ensures r.storageType == SettingsRoute.Gcs <==>
      |config.storageUri| > 0 && !config.isProxy && Strings.Contains(config.storageUri, "gs://")
    ensures r.storageType == SettingsRoute.Gcs ==> r.proxy.None?
    ensures r.storageType != SettingsRoute.Gcs ==> r.proxy == Some(config.isProxy)
  {
    if |config.storageUri| > 0 && !config.isProxy && Strings.Contains(config.storageUri, "gs://") then
      SettingsRoute.StorageSettingsResponse(SettingsRoute.Gcs, config.storageUri, None, None)
    else if |config.storageUri| > 0 && config.isProxy then
      SettingsRoute.StorageSettingsResponse(SettingsRoute.Api, config.storageUri, Some(config.isProxy), None)
    else
      SettingsRoute.StorageSettingsResponse(SettingsRoute.Local, config.storageUri, Some(config.isProxy), None)
  }

  /** The two settings routes report the same storage system for every
      configuration. */
  lemma StorageSettingsAgree(config: SettingsRoute.AppConfig)
    ensures GetStorageSettings(config).storageType == SettingsRoute.GetStorageSettings(config).storageType
    ensures GetStorageSettings(config).storageUri == SettingsRoute.GetStorageSettings(config).storageUri
  {
  }

  /** `table_name.split("_")[1].lower()`: the registry attribute a table
      name selects; `Err` is the `IndexError` of a name without `_`. */
  function TableForRegistry(tableName: string): (r: Result<string, string>)
    ensures r.Ok? <==> '_' in tableName
    ensures r.Ok? ==> '_' !in r.value && Strings.LowerCase(r.value)
  {
    var parts := Strings.SplitOn(tableName, '_');
    Strings.SecondPiece(tableName, '_');
    if |parts| < 2 then Err("IndexError: list index out of range")
    else
      Strings.PiecesHaveNoSeparator(tableName, '_', 1);
      Strings.LowerIsLowerCase(parts[1]);
      assert forall i :: 0 <= i < |parts[1]| ==> Strings.Lower(parts[1])[i] != '_' by {
        forall i | 0 <= i < |parts[1]| ensures Strings.Lower(parts[1])[i] != '_' {
          Strings.LowerCharFacts(parts[1][i]);
        }
      }
      Ok(Strings.Lower(parts[1]))
  }

  /** The segment selected is the lowered text between the first and the
      second `_` (or the end). */
  lemma TableForRegistrySegment(tableName: string)
    requires '_' in tableName
    ensures var rest := tableName[Strings.FirstIndex(tableName, '_') + 1..];
      TableForRegistry(tableName) == Ok(Strings.Lower(if '_' in rest then rest[..Strings.FirstIndex(rest, '_')] else rest))
  {
    Strings.SecondPiece(tableName, '_');
  }

  /** A name without `_` selects no registry. */
  lemma PlainNameSelectsNothing(tableName: string)
    requires '_' !in tableName
    ensures TableForRegistry(tableName) == Err("IndexError: list index out of range")
  {
    Strings.SecondPiece(tableName, '_');
  }

  // ---------------------------------------------------------------------
  // /upload

  type Chunk = seq<bv8>

  /** The request headers in the order they arrived, each name as the
      client wrote it. */
  type Headers = seq<(string, string)>

  /** The first header whose name equals `name` up to case, or `|headers|`. */
  function FirstHeader(headers: Headers, name: string): (i: nat)
    ensures i <= |headers|
    ensures forall j :: 0 <= j < i ==> Strings.Lower(headers[j].0) != Strings.Lower(name)
    ensures i < |headers| ==> Strings.Lower(headers[i].0) == Strings.Lower(name)
  {
    if |headers| == 0 then 0
    else if Strings.Lower(headers[0].0) == Strings.Lower(name) then 0
    else 1 + FirstHeader(headers[1..], name)
  }

  /** `request.headers.get(name)`: the server hands the names over lower-cased
      and the lookup lowers `name`, so case does not matter; of several
      headers with the name the first wins. */
  function HeaderGet(headers: Headers, name: string): (r: Option<string>)
    ensures r.Some? <==> exists i :: 0 <= i < |headers| && Strings.Lower(headers[i].0) == Strings.Lower(name)
    ensures r.Some? ==> exists i :: (0 <= i < |headers| && Strings.Lower(headers[i].0) == Strings.Lower(name)
      && r.value == headers[i].1 && forall j :: 0 <= j < i ==> Strings.Lower(headers[j].0) != Strings.Lower(name))
  {
    var i := FirstHeader(headers, name);
    if i < |headers| then Some(headers[i].1) else None
  }

  /** Two names that differ only in case find the same header. */
  lemma HeaderGetIgnoresCase(headers: Headers, a: string, b: string)
    requires Strings.Lower(a) == Strings.Lower(b)
    ensures HeaderGet(headers, a) == HeaderGet(headers, b)
  {
    assert FirstHeader(headers, a) == FirstHeader(headers, b);
  }

  /** Headers sent in lower case pass the checks of `upload_file`. */
  lemma LowerCaseHeadersFound(fileName: string, writePath: string)
    ensures HeaderGet([("filename", fileName), ("writepath", writePath)], "Filename") == Some(fileName)
    ensures HeaderGet([("filename", fileName), ("writepath", writePath)], "WritePath") == Some(writePath)
  {
    var headers := [("filename", fileName), ("writepath", writePath)];
    assert Strings.Lower("Filename") == "filename" == Strings.Lower("filename");
    assert Strings.Lower("WritePath") == "writepath" == Strings.Lower("writepath");
    assert FirstHeader(headers, "WritePath") == 1 + FirstHeader(headers[1..], "WritePath");
  }

  /** An error answer of the artifact routes, or the storage path of a
      finished upload. */
  datatype RouteResponse = Uploaded(storageUri: string) | HttpError(status: nat, detail: string)

  /** What the multipart parser does with the body received so far
      (`parser.data_received`), the file target checking the file against
      the limit it is given. */
  datatype ParseOutcome = Continue | FileTooLarge | ParseFailed(message: string)

  /** One step of the upload loop, in the order it happens. */
  datatype UploadEvent = BodyChecked(chunk: nat) | Parsed(chunk: nat)

  /** The number of bytes in `chunks`. */
  function BodyLength(chunks: seq<Chunk>): nat
  {
    if |chunks| == 0 then 0 else BodyLength(chunks[..|chunks| - 1]) + |chunks[|chunks| - 1]|
  }

  /** The verdict on chunk `i`: the body limit is checked first, then the
      parser sees the chunk. `bodyExceeded(limit, n)` is the body validator's
      verdict after `n` bytes; `parse(limit, body)` is the parser's after the
      body so far. */
  datatype StepVerdict = StepOk | BodyTooLarge(bodyLength: nat) | FileLimit | ParserError(message: string)

  /** A step passes exactly when the body is within its limit and the parser
      carries on. */
  function StepAt(chunks: seq<Chunk>, i: nat, bodyExceeded: (nat, nat) -> bool, parse: (nat, seq<Chunk>) -> ParseOutcome): StepVerdict
    requires i < |chunks|
    ensures StepAt(chunks, i, bodyExceeded, parse) == StepOk <==>
      !bodyExceeded(MaxRequestBodySize, BodyLength(chunks[..i + 1])) && parse(MaxFileSize, chunks[..i + 1]) == Continue
  {
    var n := BodyLength(chunks[..i + 1]);
    if bodyExceeded(MaxRequestBodySize, n) then BodyTooLarge(n)
    else match parse(MaxFileSize, chunks[..i + 1])
      case Continue => StepOk
      case FileTooLarge => FileLimit
      case ParseFailed(m) => ParserError(m)
  }

  /** The first chunk from `i` on whose step fails, or `|chunks|`. */
  function FirstFailing(chunks: seq<Chunk>, i: nat, bodyExceeded: (nat, nat) -> bool, parse: (nat, seq<Chunk>) -> ParseOutcome): (k: nat)
    requires i <= |chunks|
    ensures i <= k <= |chunks|
    ensures forall j :: i <= j < k ==> StepAt(chunks, j, bodyExceeded, parse) == StepOk
    ensures k < |chunks| ==> StepAt(chunks, k, bodyExceeded, parse) != StepOk
    decreases |chunks| - i
  {
    if i == |chunks| then i
    else if StepAt(chunks, i, bodyExceeded, parse) != StepOk then i
    else FirstFailing(chunks, i + 1, bodyExceeded, parse)
  }

  function NatToString(n: nat): string
  {
    var d := ['0', '1', '2', '3', '4', '5', '6', '7', '8', '9'][n % 10];
    if n < 10 then [d] else NatToString(n / 10) + [d]
  }

  /** The limits in decimal, as the f-strings print them. */
  const MaxRequestBodySizeText: string := "53687092224"
  const MaxFileSizeText: string := "53687091200"

  function BodyTooLargeDetail(bodyLength: nat): string
  {
    "\n               Maximum request body size limit (" + MaxRequestBodySizeText
    + ".\n               Bytes exceeded (" + NatToString(bodyLength) + " bytes read)"
  }

  const FileTooLargeDetail: string := "Maximum file size limit (" + MaxFileSizeText + " bytes) exceeded"
  const UploadErrorPrefix: string := "There was an error uploading the file. "

  /** The error response for a failed step. */
  function StepError(v: StepVerdict): RouteResponse
  {
    match v
    case BodyTooLarge(n) => HttpError(413, BodyTooLargeDetail(n))
    case FileLimit => HttpError(413, FileTooLargeDetail)
    case ParserError(m) => HttpError(500, UploadErrorPrefix + m)
    case StepOk => HttpError(500, UploadErrorPrefix)
  }

  /** The response once the headers are in place and the parser is set up:
      the first failing chunk decides, else the parser must have found a
      file, which is then stored at `join(write_path, filename)`. */
  function StreamResult(writePath: string, fileName: string, chunks: seq<Chunk>,
                        bodyExceeded: (nat, nat) -> bool, parse: (nat, seq<Chunk>) -> ParseOutcome,
                        filename: seq<Chunk> -> Option<string>): RouteResponse
  {
    var k := FirstFailing(chunks, 0, bodyExceeded, parse);
    if k < |chunks| then StepError(StepAt(chunks, k, bodyExceeded, parse))
    else if filename(chunks).None? || |filename(chunks).value| == 0 then HttpError(422, "File is missing")
    else Uploaded(Paths.Join(writePath, fileName))
  }

  /** The response of `upload_file`, given the request headers, the error
      (if any) raised while setting up the file target and the parser, the
      chunks the client sent before the stream ended or the client
      disconnected, and `filename(body)`, the `multipart_filename` of the
      file target once that body has been parsed. */
  function UploadResult(headers: Headers, setupError: Option<string>, chunks: seq<Chunk>,
                        bodyExceeded: (nat, nat) -> bool, parse: (nat, seq<Chunk>) -> ParseOutcome,
                        filename: seq<Chunk> -> Option<string>): RouteResponse
  {
    var fileName := HeaderGet(headers, "Filename");
    var writePath := HeaderGet(headers, "WritePath");
    if fileName.None? then HttpError(422, "Filename header is missing")
    else if writePath.None? then HttpError(422, "No write path provided")
    else if setupError.Some? then HttpError(500, UploadErrorPrefix + setupError.value)
    else StreamResult(writePath.value, fileName.value, chunks, bodyExceeded, parse, filename)
  }

  lemma BodyLengthSnoc(chunks: seq<Chunk>, i: nat)
    requires i < |chunks|
    ensures BodyLength(chunks[..i + 1]) == BodyLength(chunks[..i]) + |chunks[i]|
  {
    assert chunks[..i + 1][..i] == chunks[..i];
  }

  /** The events of `n` chunks that both passed the body check and were
      parsed. */
  function Interleaved(n: nat): seq<UploadEvent>
  {
    if n == 0 then [] else Interleaved(n - 1) + [BodyChecked(n - 1), Parsed(n - 1)]
  }

  /** The events of a whole upload: every chunk before the first failing
      one is checked and parsed; the failing chunk is checked, and parsed
      too unless it broke the body limit. */
  function UploadTrace(chunks: seq<Chunk>, bodyExceeded: (nat, nat) -> bool, parse: (nat, seq<Chunk>) -> ParseOutcome): seq<UploadEvent>
  {
    var k := FirstFailing(chunks, 0, bodyExceeded, parse);
    if k == |chunks| then Interleaved(k)
    else if StepAt(chunks, k, bodyExceeded, parse).BodyTooLarge? then Interleaved(k) + [BodyChecked(k)]
    else Interleaved(k) + [BodyChecked(k), Parsed(k)]
  }

  lemma {:induction false} InterleavedFacts(n: nat)
    ensures |Interleaved(n)| == 2 * n
    ensures forall j :: 0 <= j < n ==> Interleaved(n)[2 * j] == BodyChecked(j) && Interleaved(n)[2 * j + 1] == Parsed(j)
  {
    if n > 0 {
      InterleavedFacts(n - 1);
    }
  }

  /** The parser only ever sees a chunk right after the body validator has
      passed it. */
  lemma UploadTraceOrder(chunks: seq<Chunk>, bodyExceeded: (nat, nat) -> bool, parse: (nat, seq<Chunk>) -> ParseOutcome)
    ensures var t := UploadTrace(chunks, bodyExceeded, parse);
      forall p :: 0 <= p < |t| && t[p].Parsed? ==> p > 0 && t[p - 1] == BodyChecked(t[p].chunk)
    ensures var t := UploadTrace(chunks, bodyExceeded, parse);
      forall j :: 0 <= j < FirstFailing(chunks, 0, bodyExceeded, parse) ==> BodyChecked(j) in t && Parsed(j) in t
  {
    var k := FirstFailing(chunks, 0, bodyExceeded, parse);
    InterleavedFacts(k);
    var t := UploadTrace(chunks, bodyExceeded, parse);
    var il := Interleaved(k);
    assert t[..2 * k] == il;
    forall p | 0 <= p < |t| && t[p].Parsed? ensures p > 0 && t[p - 1] == BodyChecked(t[p].chunk) {
      if p < 2 * k {
        var j := p / 2;
        assert t[p] == il[p];
        if p == 2 * j + 1 {
          assert t[p - 1] == il[2 * j];
        }
      } else {
        assert p == 2 * k + 1;
      }
    }
    forall j | 0 <= j < k ensures BodyChecked(j) in t && Parsed(j) in t {
      assert t[2 * j] == il[2 * j] && t[2 * j + 1] == il[2 * j + 1];
    }
  }

  /** The loop's view of `upload_file` once the headers are checked. */
  method ReceiveStream(writePath: string, fileName: string, chunks: seq<Chunk>,
                       bodyExceeded: (nat, nat) -> bool, parse: (nat, seq<Chunk>) -> ParseOutcome,
                       filename: seq<Chunk> -> Option<string>)
    returns (response: RouteResponse, trace: seq<UploadEvent>)
    ensures response == StreamResult(writePath, fileName, chunks, bodyExceeded, parse, filename)
    ensures trace == UploadTrace(chunks, bodyExceeded, parse)
  {
    trace := [];
    var bodyLength := 0;
    var i := 0;
    while i < |chunks|
      invariant 0 <= i <= |chunks|
      invariant bodyLength == BodyLength(chunks[..i])
      invariant FirstFailing(chunks, i, bodyExceeded, parse) == FirstFailing(chunks, 0, bodyExceeded, parse)
      invariant trace == Interleaved(i)
    {
      BodyLengthSnoc(chunks, i);
      trace := trace + [BodyChecked(i)];
      bodyLength := bodyLength + |chunks[i]|;
      if bodyExceeded(MaxRequestBodySize, bodyLength) {
        assert StepAt(chunks, i, bodyExceeded, parse) == BodyTooLarge(bodyLength);
        return HttpError(413, BodyTooLargeDetail(bodyLength)), trace;
      }
      trace := trace + [Parsed(i)];
      var outcome := parse(MaxFileSize, chunks[..i + 1]);
      if outcome.FileTooLarge? {
        assert StepAt(chunks, i, bodyExceeded, parse) == FileLimit;
        return HttpError(413, FileTooLargeDetail), trace;
      }
      if outcome.ParseFailed? {
        assert StepAt(chunks, i, bodyExceeded, parse) == ParserError(outcome.message);
        return HttpError(500, UploadErrorPrefix + outcome.message), trace;
      }
      assert StepAt(chunks, i, bodyExceeded, parse) == StepOk;
      i := i + 1;
    }
    var multipartFilename := filename(chunks);
    if multipartFilename.None? || |multipartFilename.value| == 0 {
      return HttpError(422, "File is missing"), trace;
    }
    return Uploaded(Paths.Join(writePath, fileName)), trace;
  }

  /** `upload_file`. `trace` records the order in which the body validator
      and the parser see the chunks. */
  method UploadFile(headers: Headers, setupError: Option<string>, chunks: seq<Chunk>,
                    bodyExceeded: (nat, nat) -> bool, parse: (nat, seq<Chunk>) -> ParseOutcome,
                    filename: seq<Chunk> -> Option<string>)
    returns (response: RouteResponse, trace: seq<UploadEvent>)
    ensures response == UploadResult(headers, setupError, chunks, bodyExceeded, parse, filename)
    ensures HeaderGet(headers, "Filename").None? || HeaderGet(headers, "WritePath").None? || setupError.Some? ==> trace == []
    ensures HeaderGet(headers, "Filename").Some? && HeaderGet(headers, "WritePath").Some? && setupError.None? ==>
      trace == UploadTrace(chunks, bodyExceeded, parse)
  {
    var fileName := HeaderGet(headers, "Filename");
    var writePath := HeaderGet(headers, "WritePath");
    if fileName.None? {
      return HttpError(422, "Filename header is missing"), [];
    }
    if writePath.None? {
      return HttpError(422, "No write path provided"), [];
    }
    if setupError.Some? {
      return HttpError(500, UploadErrorPrefix + setupError.value), [];
    }
    response, trace := ReceiveStream(writePath.value, fileName.value, chunks, bodyExceeded, parse, filename);
  }

  /** The header checks come first, `Filename` before `WritePath`. */
  lemma UploadHeaderChecks(headers: Headers, setupError: Option<string>, chunks: seq<Chunk>,
                           bodyExceeded: (nat, nat) -> bool, parse: (nat, seq<Chunk>) -> ParseOutcome,
                           filename: seq<Chunk> -> Option<string>)
    ensures HeaderGet(headers, "Filename").None? ==>
      UploadResult(headers, setupError, chunks, bodyExceeded, parse, filename) == HttpError(422, "Filename header is missing")
    ensures HeaderGet(headers, "Filename").Some? && HeaderGet(headers, "WritePath").None? ==>
      UploadResult(headers, setupError, chunks, bodyExceeded, parse, filename) == HttpError(422, "No write path provided")
  {
  }

  /** A 413 answers exactly a body over its limit or a file over its limit,
      whichever the first failing chunk breaks; a success means no chunk
      broke either limit, the parser found a file, and the file lands at
      `join(write_path, filename)`. */
  lemma UploadOutcomes(headers: Headers, chunks: seq<Chunk>,
                       bodyExceeded: (nat, nat) -> bool, parse: (nat, seq<Chunk>) -> ParseOutcome,
                       filename: seq<Chunk> -> Option<string>)
    requires HeaderGet(headers, "Filename").Some? && HeaderGet(headers, "WritePath").Some?
    ensures var r := UploadResult(headers, None, chunks, bodyExceeded, parse, filename);
      var k := FirstFailing(chunks, 0, bodyExceeded, parse);
      (r.HttpError? && r.status == 413 <==>
        k < |chunks| && (bodyExceeded(MaxRequestBodySize, BodyLength(chunks[..k + 1]))
                         || parse(MaxFileSize, chunks[..k + 1]) == FileTooLarge))
      && (r.Uploaded? <==>
        (forall j :: 0 <= j < |chunks| ==> StepAt(chunks, j, bodyExceeded, parse) == StepOk)
        && filename(chunks).Some? && |filename(chunks).value| > 0)
      && (r.Uploaded? ==> r.storageUri == Paths.Join(HeaderGet(headers, "WritePath").value, HeaderGet(headers, "Filename").value))
  {
    var k := FirstFailing(chunks, 0, bodyExceeded, parse);
    if k < |chunks| {
      var v := StepAt(chunks, k, bodyExceeded, parse);
      assert v != StepOk;
    }
  }

  /** The request body may be exactly 1024 bytes longer than the file. */
  lemma BodyLimitAboveFileLimit()
    ensures MaxRequestBodySize - MaxFileSize == 1024 && MaxFileSize == 53687091200
  {
  }

  // ---------------------------------------------------------------------
  // /download_model

  /** A streamed answer: the file the storage client's `iterfile` reads, in
      chunks of the given size, with the given headers. */
  datatype StreamResponse = StreamResponse(filePath: PyValue, chunkSize: nat, headers: map<string, string>)

  /** `download_model`, given the cards the model registry listed for the
      request and the name `MODEL_FILE` the attachment is given. */
  function DownloadModel(cards: seq<map<string, PyValue>>, modelFile: string): (r: Result<StreamResponse, RouteResponse>)
    ensures |cards| > 1 ==> r == Err(HttpError(500, "More than one model found"))
    ensures |cards| == 0 ==> r == Err(HttpError(500, "No model found"))
    ensures r.Ok? <==> |cards| == 1
    ensures r.Ok? ==>
      r.value.filePath == Get(cards[0], "onnx_model_uri") && r.value.chunkSize == ChunkSize
      && r.value.headers == map["Content-Disposition" := "attachment; filename=\"" + modelFile + "\""]
  {
    if |cards| > 1 then Err(HttpError(500, "More than one model found"))
    else if |cards| == 0 then Err(HttpError(500, "No model found"))
    else
      var headers := map["Content-Disposition" := "attachment; filename=\"" + modelFile + "\""];
      Ok(StreamResponse(Get(cards[0], "onnx_model_uri"), ChunkSize, headers))
  }
}
