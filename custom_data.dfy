/** The file datasets of opsml/data/interfaces/custom_data/base.py: finding a
    split's `metadata.jsonl`, the `FileRecord` validator that fills in a
    file's size, the metadata's total size and its jsonl form, and
    `Dataset.split_data`, which loads one metadata per subdirectory.
    The filesystem is the caller's: `rglob`, `fileExists`, `fileSize`, `dirs`
    and `load` stand for the calls the source makes on it. */
module CustomData {
  import opened Wrappers
  import opened PyValues
  import Paths

  const MetadataFileName: string := "metadata.jsonl"

  // ---------------------------------------------------------------------
  // get_metadata_filepath

  /** The directory searched: `data_dir / split` when a split is given. */
  function SearchPath(dataDir: string, split: Option<string>): string
  {
    if split.Some? then Paths.Join(dataDir, split.value) else dataDir
  }

  /** The index of the first path whose name is `name`, or `|paths|`. */
  function FirstNamed(paths: seq<string>, name: string): (i: nat)
    ensures i <= |paths|
    ensures i < |paths| ==> Paths.Name(paths[i]) == name
    ensures forall j :: 0 <= j < i ==> Paths.Name(paths[j]) != name
  {
    if |paths| == 0 then 0
    else if Paths.Name(paths[0]) == name then 0
    else 1 + FirstNamed(paths[1..], name)
  }

  /** `get_metadata_filepath`; `rglob(dir)` lists `dir.rglob("*.jsonl")` in
      the order the filesystem yields it. `Err` is the `ValueError`. */
  function GetMetadataFilepath(dataDir: string, split: Option<string>, rglob: string -> seq<string>): (r: Result<string, string>)
    ensures var found := rglob(SearchPath(dataDir, split));
      r.Ok? ==> (exists i :: 0 <= i < |found| && found[i] == r.value
                   && Paths.Name(found[i]) == MetadataFileName
                   && forall j :: 0 <= j < i ==> Paths.Name(found[j]) != MetadataFileName)
    ensures var found := rglob(SearchPath(dataDir, split));
      r.Err? <==> forall p :: p in found ==> Paths.Name(p) != MetadataFileName
    ensures r.Err? ==> r.error == "Could not find metadata.jsonl in " + dataDir + " or subdirectories"
  {
    var found := rglob(SearchPath(dataDir, split));
    var i := FirstNamed(found, MetadataFileName);
    if i < |found| then Ok(found[i])
    else Err("Could not find metadata.jsonl in " + dataDir + " or subdirectories")
  }

  // ---------------------------------------------------------------------
  // FileRecord.check_args

  /** `Path(filepath)` for a `str`, anything else as it is; `Path("")` is
      the path `.`. */
  function AsPath(v: PyValue): (p: PyValue)
    ensures v.PyStr? ==> p.PyPath? && Truthy(p)
    ensures !v.PyStr? ==> p == v
  {
    if v.PyStr? then PyPath(if |v.s| == 0 then "." else v.s) else v
  }

  /** A reloaded record: both a file path and a size that Python finds true. */
  predicate IsReload(args: map<string, PyValue>)
  {
    Truthy(AsPath(Get(args, "filepath"))) && Truthy(Get(args, "size"))
  }

  /** `check_args`, the `FileRecord` validator run before field parsing;
      `fileExists(p)` and `fileSize(p)` are `Path(p).exists()` and
      `Path(p).stat().st_size`. `Err` is the assertion or attribute error
      raised. */
  function CheckArgs(args: map<string, PyValue>, fileExists: string -> bool, fileSize: string -> nat): (r: Result<map<string, PyValue>, string>)
    ensures IsReload(args) ==> r == Ok(args)
    ensures var fp := AsPath(Get(args, "filepath"));
      r.Err? <==> !IsReload(args) && (!Truthy(fp) || !fp.PyPath? || !fileExists(fp.posix))
    ensures var fp := AsPath(Get(args, "filepath"));
      !IsReload(args) && r.Ok? ==>
        r.value.Keys == args.Keys + {"size"}
        && r.value["size"] == PyInt(fileSize(fp.posix))
        && forall k :: k in args && k != "size" ==> r.value[k] == args[k]
  {
    var filepath := AsPath(Get(args, "filepath"));
    var size := Get(args, "size");
    if Truthy(filepath) && Truthy(size) then Ok(args)
    else if !Truthy(filepath) then Err("AssertionError: Filepath is required")
    else if !filepath.PyPath? then Err("AttributeError")
    else if !fileExists(filepath.posix) then Err("AssertionError: Image file " + filepath.posix + " does not exist")
    else Ok(args["size" := PyInt(fileSize(filepath.posix))])
  }

  /** A size of 0 is not trusted: it is recomputed from the file. */
  lemma ZeroSizeRecomputed(args: map<string, PyValue>, fileExists: string -> bool, fileSize: string -> nat)
    requires Get(args, "size") == PyInt(0)
    requires AsPath(Get(args, "filepath")).PyPath? && fileExists(AsPath(Get(args, "filepath")).posix)
    ensures CheckArgs(args, fileExists, fileSize) == Ok(args["size" := PyInt(fileSize(AsPath(Get(args, "filepath")).posix))])
  {
  }

  /** Validating the validated arguments again changes nothing: the record
      is a reload unless its size came out 0, and then the same size is
      computed again. */
  lemma CheckArgsIdempotent(args: map<string, PyValue>, fileExists: string -> bool, fileSize: string -> nat)
    requires CheckArgs(args, fileExists, fileSize).Ok?
    ensures CheckArgs(CheckArgs(args, fileExists, fileSize).value, fileExists, fileSize) == CheckArgs(args, fileExists, fileSize)
  {
    if !IsReload(args) {
      var a := CheckArgs(args, fileExists, fileSize).value;
      assert Get(a, "filepath") == Get(args, "filepath");
      var fp := AsPath(Get(args, "filepath"));
      assert a["size" := PyInt(fileSize(fp.posix))] == a;
    }
  }

  // ---------------------------------------------------------------------
  // Metadata

  /** A `FileRecord`: the file's posix path and its size. */
  datatype FileRecord = FileRecord(filepath: string, size: int)

  datatype Metadata = Metadata(records: seq<FileRecord>)
  {
    /** `size`: the total size of the records; no records weigh nothing,
        and file sizes, never negative, add up to a total that is not
        either and that bounds each of them. */
    function Size(): (s: int)
      ensures |records| == 0 ==> s == 0
      ensures (forall i :: 0 <= i < |records| ==> records[i].size >= 0) ==>
        s >= 0 && forall i :: 0 <= i < |records| ==> records[i].size <= s
    {
      TotalSizeBounds(records);
      TotalSize(records)
    }
  }

  /** `sum(record.size for record in records)`. */
  function TotalSize(records: seq<FileRecord>): (total: int)
    ensures (forall i :: 0 <= i < |records| ==> records[i].size >= 0) ==> total >= 0
  {
    if |records| == 0 then 0
    else
      assert forall i :: 0 <= i < |records| - 1 ==> records[1..][i] == records[i + 1];
      records[0].size + TotalSize(records[1..])
  }

  /** The total of two runs of records is the sum of their totals. */
  lemma {:induction false} TotalSizeAppend(a: seq<FileRecord>, b: seq<FileRecord>)
    ensures TotalSize(a + b) == TotalSize(a) + TotalSize(b)
  {
    if |a| > 0 {
      assert (a + b)[0] == a[0] && (a + b)[1..] == a[1..] + b;
      TotalSizeAppend(a[1..], b);
    } else {
      assert a + b == b;
    }
  }

  /** No records weigh nothing; a record weighs its own size; sizes that are
      never negative (as `st_size` is not) add up to a total that is not
      either, and that bounds each one. */
  lemma {:induction false} TotalSizeBounds(records: seq<FileRecord>)
    ensures |records| == 0 ==> TotalSize(records) == 0
    ensures |records| == 1 ==> TotalSize(records) == records[0].size
    ensures (forall i :: 0 <= i < |records| ==> records[i].size >= 0) ==>
      TotalSize(records) >= 0 && forall i :: 0 <= i < |records| ==> records[i].size <= TotalSize(records)
  {
    if |records| > 0 {
      TotalSizeBounds(records[1..]);
      if forall i :: 0 <= i < |records| ==> records[i].size >= 0 {
        forall i | 0 < i < |records| ensures records[i].size <= TotalSize(records) {
          assert records[1..][i - 1] == records[i];
        }
      }
    }
  }

  /** The dict `json.dump` writes for a record: `model_dump()` with the
      path in posix form. */
  function RecordDict(record: FileRecord): map<string, PyValue>
  {
    map["filepath" := PyStr(record.filepath), "size" := PyInt(record.size)]
  }

  /** `write_to_file`: `writes` is the sequence of strings written to the
      file, `dump(d)` being what `json.dump` writes for the dict `d`. A
      path whose name is not `metadata.jsonl` fails before anything is
      written. */
  method WriteToFile(records: seq<FileRecord>, filepath: string, dump: map<string, PyValue> -> string)
    returns (r: Result<seq<string>, string>)
    ensures r.Err? <==> Paths.Name(filepath) != MetadataFileName
    ensures r.Err? ==> r.error == "AssertionError: Filename must be metadata.jsonl"
    ensures r.Ok? ==> |r.value| == 2 * |records|
    ensures r.Ok? ==> forall i :: 0 <= i < |records| ==> r.value[2 * i] == dump(RecordDict(records[i])) && r.value[2 * i + 1] == "\n"
  {
    if Paths.Name(filepath) != MetadataFileName {
      return Err("AssertionError: Filename must be metadata.jsonl");
    }
    var writes: seq<string> := [];
    var i := 0;
    while i < |records|
      invariant 0 <= i <= |records|
      invariant |writes| == 2 * i
      invariant forall j :: 0 <= j < i ==> writes[2 * j] == dump(RecordDict(records[j])) && writes[2 * j + 1] == "\n"
    {
      var record := RecordDict(records[i]);
      writes := writes + [dump(record)];
      writes := writes + ["\n"];
      i := i + 1;
    }
    return Ok(writes);
  }

  // ---------------------------------------------------------------------
  // Dataset.split_data

  /** `_load_metadata_from_file(d, split)`: the split's metadata, or the
      error raised loading it (the `ValueError` of a missing
      `metadata.jsonl`, say). */
  type Loader = (string, Option<string>) -> Result<Metadata, string>

  /** The loop over the subdirectories `found`: each split is stored as soon
      as it is loaded, and the first error ends the loop, leaving the splits
      stored so far in place. */
  function LoadSplits(dataDir: string, found: seq<string>, load: Loader): (Result<(), string>, map<Option<string>, Metadata>)
  {
    if |found| == 0 then (Ok(()), map[])
    else
      var before := LoadSplits(dataDir, found[..|found| - 1], load);
      if before.0.Err? then before
      else
        match load(dataDir, Some(found[|found| - 1]))
        case Err(e) => (Err(e), before.1)
        case Ok(m) => (Ok(()), before.1[Some(found[|found| - 1]) := m])
  }

  /** Every split the loop stores holds the metadata loaded for it. */
  lemma {:induction false} LoadSplitsValues(dataDir: string, found: seq<string>, load: Loader)
    ensures var splits := LoadSplits(dataDir, found, load).1;
      forall k :: k in splits ==> load(dataDir, k).Ok? && splits[k] == load(dataDir, k).value
  {
    if |found| > 0 {
      LoadSplitsValues(dataDir, found[..|found| - 1], load);
    }
  }

  /** The loop succeeds exactly when every subdirectory loads, and then
      holds one split per subdirectory. When it fails, it fails at the first
      subdirectory that does not load, with that error, and holds the splits
      of the subdirectories before it. */
  lemma {:induction false} LoadSplitsOutcome(dataDir: string, found: seq<string>, load: Loader)
    ensures var (r, splits) := LoadSplits(dataDir, found, load);
      r.Ok? <==> forall j :: 0 <= j < |found| ==> load(dataDir, Some(found[j])).Ok?
    ensures var (r, splits) := LoadSplits(dataDir, found, load);
      r.Ok? ==> splits.Keys == set j | 0 <= j < |found| :: Some(found[j])
    ensures var (r, splits) := LoadSplits(dataDir, found, load);
      r.Err? ==>
        (exists k :: 0 <= k < |found| && load(dataDir, Some(found[k])).Err?
          && (forall j :: 0 <= j < k ==> load(dataDir, Some(found[j])).Ok?)
          && r.error == load(dataDir, Some(found[k])).error
          && splits.Keys == set j | 0 <= j < k :: Some(found[j]))
  {
    if |found| > 0 {
      var n := |found| - 1;
      var init := found[..n];
      LoadSplitsOutcome(dataDir, init, load);
      assert forall j :: 0 <= j < n ==> init[j] == found[j];
      var before := LoadSplits(dataDir, init, load);
      if before.0.Err? {
        var k :| 0 <= k < |init| && load(dataDir, Some(init[k])).Err?
          && (forall j :: 0 <= j < k ==> load(dataDir, Some(init[j])).Ok?)
          && before.0.error == load(dataDir, Some(init[k])).error
          && before.1.Keys == set j | 0 <= j < k :: Some(init[j]);
        assert (set j | 0 <= j < k :: Some(init[j])) == set j | 0 <= j < k :: Some(found[j]);
      } else if load(dataDir, Some(found[n])).Err? {
        assert (set j | 0 <= j < n :: Some(init[j])) == set j | 0 <= j < n :: Some(found[j]);
      } else {
        assert (set j | 0 <= j < n :: Some(init[j])) + {Some(found[n])} == set j | 0 <= j < n + 1 :: Some(found[j]);
      }
    }
  }

  /** A failure after the first subdirectory leaves splits behind. */
  lemma PartialSplitsStay(dataDir: string, found: seq<string>, load: Loader)
    requires |found| > 0 && load(dataDir, Some(found[0])).Ok?
    requires LoadSplits(dataDir, found, load).0.Err?
    ensures |LoadSplits(dataDir, found, load).1| > 0
  {
    LoadSplitsOutcome(dataDir, found, load);
    var splits := LoadSplits(dataDir, found, load).1;
    var k :| 0 <= k < |found| && load(dataDir, Some(found[k])).Err?
      && (forall j :: 0 <= j < k ==> load(dataDir, Some(found[j])).Ok?)
      && splits.Keys == set j | 0 <= j < k :: Some(found[j]);
    assert k > 0;
    assert Some(found[0]) in splits;
  }

  /** Once the loop over a prefix has failed, the rest changes nothing. */
  lemma {:induction false} LoadSplitsPrefixFails(dataDir: string, found: seq<string>, load: Loader, i: nat)
    requires i <= |found| && LoadSplits(dataDir, found[..i], load).0.Err?
    ensures LoadSplits(dataDir, found, load) == LoadSplits(dataDir, found[..i], load)
    decreases |found| - i
  {
    if i < |found| {
      assert found[..i + 1][..i] == found[..i];
      LoadSplitsPrefixFails(dataDir, found, load, i + 1);
    } else {
      assert found[..i] == found;
    }
  }

  class Dataset {
    var dataDir: string
    var splits: map<Option<string>, Metadata>

    constructor(dataDir: string, splits: map<Option<string>, Metadata>)
      ensures this.dataDir == dataDir && this.splits == splits
    {
      this.dataDir := dataDir;
      this.splits := splits;
    }

    /** `split_data`; `dirs(d)` is `check_for_dirs(d)`, the posix paths of
        the subdirectories of `d`. Splits already present are left alone.
        Otherwise each subdirectory gets its metadata, or, with no
        subdirectory, the whole directory does under `None`. A load that
        fails ends the call with its error and keeps the splits stored
        before it, so a failure after the first subdirectory leaves a
        dataset that later calls do not complete. */
    method SplitData(dirs: string -> seq<string>, load: Loader) returns (r: Result<(), string>)
      modifies this
      ensures dataDir == old(dataDir)
      ensures |old(splits)| > 0 ==> r.Ok? && splits == old(splits)
      ensures |old(splits)| == 0 && |dirs(dataDir)| > 0 ==> (r, splits) == LoadSplits(dataDir, dirs(dataDir), load)
      ensures |old(splits)| == 0 && |dirs(dataDir)| == 0 ==>
        (r.Ok? <==> load(dataDir, None).Ok?)
        && (r.Ok? ==> splits == map[None := load(dataDir, None).value])
        && (r.Err? ==> splits == old(splits) && r.error == load(dataDir, None).error)
      ensures r.Ok? ==> |splits| > 0
    {
      if |splits| > 0 {
        return Ok(());
      }
      var found := dirs(dataDir);
      if |found| > 0 {
        var i := 0;
        while i < |found|
          invariant 0 <= i <= |found|
          invariant dataDir == old(dataDir)
          invariant LoadSplits(dataDir, found[..i], load) == (Ok(()), splits)
        {
          assert found[..i + 1][..i] == found[..i];
          var metadata := load(dataDir, Some(found[i]));
          if metadata.Err? {
            LoadSplitsPrefixFails(dataDir, found, load, i + 1);
            return Err(metadata.error);
          }
          splits := splits[Some(found[i]) := metadata.value];
          i := i + 1;
        }
        assert found[..i] == found;
        LoadSplitsOutcome(dataDir, found, load);
        assert Some(found[0]) in splits;
        return Ok(());
      } else {
        var metadata := load(dataDir, None);
        if metadata.Err? {
          return Err(metadata.error);
        }
        splits := splits[None := metadata.value];
        assert splits == map[None := metadata.value];
        return Ok(());
      }
    }
  }
}
