/** Posix path handling as `os.path.join`, `pathlib.PurePosixPath.__truediv__`
    and `.name` perform it on normalised paths. */
module Paths {
  import Strings

  /** `os.path.join(a, b)`: an absolute `b` replaces `a`; otherwise one `/`
      separates them unless `a` is empty or already ends in `/`. */
  function Join(a: string, b: string): string
  {
    if |b| > 0 && b[0] == '/' then b
    else if |a| == 0 || a[|a| - 1] == '/' then a + b
    else a + "/" + b
  }

  /** `.name`: the part after the last `/`. */
  function Name(p: string): string
  {
    var parts := Strings.SplitOn(p, '/');
    parts[|parts| - 1]
  }

  /** The joined path ends with the file name, and a relative file name is
      placed under the directory. */
  lemma JoinFacts(a: string, b: string)
    ensures |b| <= |Join(a, b)| && Join(a, b)[|Join(a, b)| - |b|..] == b
    ensures !(|b| > 0 && b[0] == '/') ==> a <= Join(a, b)
    ensures !(|b| > 0 && b[0] == '/') && |a| > 0 ==> Join(a, b)[..|Join(a, b)| - |b|] == (if a[|a| - 1] == '/' then a else a + "/")
  {
  }

  lemma {:induction false} NameOfLastPiece(p: string)
    ensures '/' !in Name(p)
  {
    var parts := Strings.SplitOn(p, '/');
    Strings.PiecesHaveNoSeparator(p, '/', |parts| - 1);
  }

  lemma {:induction false} NameOfPlain(p: string)
    requires '/' !in p
    ensures Name(p) == p
  {
  }

  /** The name of `dir / file` is `file` when `file` is a plain file name. */
  lemma {:induction false} NameOfJoin(dir: string, file: string)
    requires |file| > 0 && '/' !in file
    ensures Name(Join(dir, file)) == file
  {
    var j := Join(dir, file);
    NameTail(j, file);
  }

  /** A path ending in `/` + `file` (or equal to `file`) has name `file`. */
  lemma {:induction false} NameTail(p: string, file: string)
    requires '/' !in file
    requires p == file || (|p| > |file| && p[|p| - |file| - 1] == '/' && p[|p| - |file|..] == file)
    ensures Name(p) == file
    decreases |p|
  {
    if '/' in p {
      var i := Strings.FirstIndex(p, '/');
      if p == file {
        assert false;
      }
      var rest := p[i + 1..];
      if |rest| == |file| {
        assert rest == p[|p| - |file|..];
        NameOfPlain(rest);
      } else {
        assert |rest| > |file|;
        assert rest[|rest| - |file| - 1] == p[|p| - |file| - 1];
        assert rest[|rest| - |file|..] == p[|p| - |file|..];
        NameTail(rest, file);
      }
      assert Strings.SplitOn(p, '/') == [p[..i]] + Strings.SplitOn(rest, '/');
    }
  }
}
