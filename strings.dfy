/** The pieces of Python's `str` that the modelled code uses: `strip()`,
    `lower()`, `replace()` on one character, `in` on substrings and
    `split(sep)`, with the facts about them that the other modules need. */
module Strings {

  /** `str.isspace()` on one character: exactly the code points CPython
      classifies as whitespace (the ASCII controls 9-13 and 28-31, the space,
      and the Unicode separators). */
  predicate IsSpace(c: char)
  {
    ('\t' <= c <= '\r') || ('\U{1C}' <= c <= ' ') || c == '\U{85}' || c == '\U{A0}'
    || c == '\U{1680}' || ('\U{2000}' <= c <= '\U{200A}') || c == '\U{2028}'
    || c == '\U{2029}' || c == '\U{202F}' || c == '\U{205F}' || c == '\U{3000}'
  }

  predicate IsUpper(c: char)
  {
    'A' <= c <= 'Z'
  }

  /** `str.lower()` on one character, restricted to the ASCII letters. */
  function LowerChar(c: char): char
  {
    if IsUpper(c) then (c as int + 32) as char else c
  }

  /** `str.lower()` (ASCII letters). */
  function Lower(s: string): string
  {
    seq(|s|, i requires 0 <= i < |s| => LowerChar(s[i]))
  }

  /** `str.replace(from, to)` for one-character arguments: every occurrence. */
  function ReplaceChar(s: string, from: char, to: char): string
  {
    seq(|s|, i requires 0 <= i < |s| => if s[i] == from then to else s[i])
  }

  predicate AllSpace(s: string)
  {
    forall i :: 0 <= i < |s| ==> IsSpace(s[i])
  }

  /** No whitespace at either end (what `strip()` guarantees). */
  predicate Stripped(s: string)
  {
    |s| == 0 || (!IsSpace(s[0]) && !IsSpace(s[|s| - 1]))
  }

  predicate LowerCase(s: string)
  {
    forall i :: 0 <= i < |s| ==> !IsUpper(s[i])
  }

  /** Two strings of one length with whitespace at the same positions. */
  predicate SameSpacing(a: string, b: string)
  {
    |a| == |b| && forall i :: 0 <= i < |a| ==> (IsSpace(a[i]) <==> IsSpace(b[i]))
  }

  /** How many whitespace characters `s` starts with. */
  function LeadingSpaces(s: string): (n: nat)
    ensures n <= |s|
    decreases |s|
  {
    if |s| > 0 && IsSpace(s[0]) then 1 + LeadingSpaces(s[1..]) else 0
  }

  /** How many whitespace characters `s` ends with. */
  function TrailingSpaces(s: string): (n: nat)
    ensures n <= |s|
    decreases |s|
  {
    if |s| > 0 && IsSpace(s[|s| - 1]) then 1 + TrailingSpaces(s[..|s| - 1]) else 0
  }

  lemma {:induction false} LeadingSpacesFacts(s: string)
    ensures AllSpace(s[..LeadingSpaces(s)])
    ensures LeadingSpaces(s) < |s| ==> !IsSpace(s[LeadingSpaces(s)])
    decreases |s|
  {
    if |s| > 0 && IsSpace(s[0]) {
      LeadingSpacesFacts(s[1..]);
      assert s[..LeadingSpaces(s)] == [s[0]] + s[1..][..LeadingSpaces(s[1..])];
    }
  }

  lemma {:induction false} TrailingSpacesFacts(s: string)
    ensures AllSpace(s[|s| - TrailingSpaces(s)..])
    ensures TrailingSpaces(s) < |s| ==> !IsSpace(s[|s| - 1 - TrailingSpaces(s)])
    decreases |s|
  {
    if |s| > 0 && IsSpace(s[|s| - 1]) {
      var t := s[..|s| - 1];
      TrailingSpacesFacts(t);
      var n := TrailingSpaces(t);
      assert TrailingSpaces(s) == n + 1;
      assert s[|s| - (n + 1)..] == t[|t| - n..] + [s[|s| - 1]];
      if n + 1 < |s| {
        assert s[|s| - 1 - (n + 1)] == t[|t| - 1 - n];
      }
    }
  }

  /** `str.lstrip()`. */
  function StripLeft(s: string): string
  {
    s[LeadingSpaces(s)..]
  }

  /** `str.rstrip()`. */
  function StripRight(s: string): string
  {
    s[..|s| - TrailingSpaces(s)]
  }

  /** `str.strip()`: both ends, left first, as CPython does. */
  function Strip(s: string): (r: string)
    ensures Stripped(r)
  {
    var l := StripLeft(s);
    var r := StripRight(l);
    LeadingSpacesFacts(s);
    TrailingSpacesFacts(l);
    assert |r| > 0 ==> r[0] == l[0];
    r
  }

  /** `sub in s` for strings. */
  predicate Contains(s: string, sub: string)
    decreases |s|
  {
    sub <= s || (|s| > 0 && Contains(s[1..], sub))
  }

  /** The first position of `c` in `s`. */
  function FirstIndex(s: string, c: char): (i: nat)
    requires c in s
    ensures i < |s| && s[i] == c && c !in s[..i]
  {
    if s[0] == c then 0
    else
      var i := 1 + FirstIndex(s[1..], c);
      assert s[..i] == [s[0]] + s[1..][..i - 1];
      i
  }

  /** `s.split(sep)` with an explicit one-character separator: every
      occurrence splits, empty pieces are kept, there is always one piece. */
  function SplitOn(s: string, sep: char): (parts: seq<string>)
    ensures |parts| >= 1
    decreases |s|
  {
    if sep !in s then [s]
    else
      var i := FirstIndex(s, sep);
      [s[..i]] + SplitOn(s[i + 1..], sep)
  }

  // ---------------------------------------------------------------------
  // Facts about the definitions above.

  lemma LowerCharFacts(c: char)
    ensures !IsUpper(LowerChar(c))
    ensures IsSpace(LowerChar(c)) <==> IsSpace(c)
    ensures LowerChar(c) == '_' <==> c == '_'
    ensures !IsUpper(c) ==> LowerChar(c) == c
  {
  }

  /** `lower()` leaves no upper-case letter and is idempotent. */
  lemma LowerIsLowerCase(s: string)
    ensures LowerCase(Lower(s))
    ensures Lower(Lower(s)) == Lower(s)
    ensures SameSpacing(s, Lower(s))
  {
    forall i | 0 <= i < |s| ensures !IsUpper(Lower(s)[i]) && (IsSpace(s[i]) <==> IsSpace(Lower(s)[i])) {
      LowerCharFacts(s[i]);
    }
    forall i | 0 <= i < |s| ensures Lower(Lower(s))[i] == Lower(s)[i] {
      LowerCharFacts(Lower(s)[i]);
    }
  }

  lemma LowerOfLowerCase(s: string)
    requires LowerCase(s)
    ensures Lower(s) == s
  {
  }

  lemma {:induction false} LeadingSpacesOfPadded(ws: string, x: string)
    requires AllSpace(ws)
    ensures LeadingSpaces(ws + x) == |ws| + LeadingSpaces(x)
    decreases |ws|
  {
    if |ws| > 0 {
      assert IsSpace(ws[0]);
      assert (ws + x)[0] == ws[0];
      assert (ws + x)[1..] == ws[1..] + x;
      LeadingSpacesOfPadded(ws[1..], x);
    } else {
      assert ws + x == x;
    }
  }

  lemma {:induction false} LeadingSpacesOfExtended(x: string, y: string)
    requires LeadingSpaces(x) < |x|
    ensures LeadingSpaces(x + y) == LeadingSpaces(x)
    decreases |x|
  {
    assert (x + y)[0] == x[0];
    if IsSpace(x[0]) {
      assert (x + y)[1..] == x[1..] + y;
      LeadingSpacesOfExtended(x[1..], y);
    }
  }

  lemma {:induction false} TrailingSpacesOfPadded(x: string, ws: string)
    requires AllSpace(ws)
    ensures TrailingSpaces(x + ws) == |ws| + TrailingSpaces(x)
    decreases |ws|
  {
    if |ws| > 0 {
      assert (x + ws)[|x + ws| - 1] == ws[|ws| - 1];
      assert IsSpace(ws[|ws| - 1]);
      assert (x + ws)[..|x + ws| - 1] == x + ws[..|ws| - 1];
      TrailingSpacesOfPadded(x, ws[..|ws| - 1]);
    } else {
      assert x + ws == x;
    }
  }

  lemma StripLeftPadded(ws: string, s: string)
    requires AllSpace(ws)
    ensures StripLeft(ws + s) == StripLeft(s)
  {
    LeadingSpacesOfPadded(ws, s);
    assert (ws + s)[|ws|..] == s;
  }

  lemma StripRightPadded(s: string, ws: string)
    requires AllSpace(ws)
    ensures StripRight(s + ws) == StripRight(s)
  {
    TrailingSpacesOfPadded(s, ws);
    assert (s + ws)[..|s|] == s;
  }

  lemma StripLeftExtended(s: string, y: string)
    requires LeadingSpaces(s) < |s|
    ensures StripLeft(s + y) == StripLeft(s) + y
  {
    LeadingSpacesOfExtended(s, y);
  }

  /** `strip()` ignores whatever whitespace surrounds its argument. */
  lemma StripPadded(ws1: string, s: string, ws2: string)
    requires AllSpace(ws1) && AllSpace(ws2)
    ensures Strip(ws1 + s + ws2) == Strip(s)
  {
    assert ws1 + s + ws2 == ws1 + (s + ws2);
    StripLeftPadded(ws1, s + ws2);
    if LeadingSpaces(s) == |s| {
      LeadingSpacesFacts(s);
      assert s[..|s|] == s;
      assert AllSpace(s + ws2);
      StripLeftPadded(s + ws2, "");
      assert s + ws2 + "" == s + ws2;
    } else {
      StripLeftExtended(s, ws2);
      StripRightPadded(StripLeft(s), ws2);
    }
  }

  lemma {:induction false} LeadingSpacesSameSpacing(a: string, b: string)
    requires SameSpacing(a, b)
    ensures LeadingSpaces(a) == LeadingSpaces(b)
    decreases |a|
  {
    if |a| > 0 && IsSpace(a[0]) {
      LeadingSpacesSameSpacing(a[1..], b[1..]);
    }
  }

  lemma {:induction false} TrailingSpacesSameSpacing(a: string, b: string)
    requires SameSpacing(a, b)
    ensures TrailingSpaces(a) == TrailingSpaces(b)
    decreases |a|
  {
    if |a| > 0 && IsSpace(a[|a| - 1]) {
      TrailingSpacesSameSpacing(a[..|a| - 1], b[..|b| - 1]);
    }
  }

  lemma SameSpacingSuffix(a: string, b: string, lo: nat)
    requires SameSpacing(a, b) && lo <= |a|
    ensures SameSpacing(a[lo..], b[lo..])
  {
    forall i | 0 <= i < |a| - lo ensures IsSpace(a[lo..][i]) <==> IsSpace(b[lo..][i]) {
      assert a[lo..][i] == a[lo + i] && b[lo..][i] == b[lo + i];
    }
  }

  /** Strings with whitespace at the same positions are stripped at the same
      positions. */
  lemma StripSameSpacing(a: string, b: string)
    requires SameSpacing(a, b)
    ensures |Strip(a)| == |Strip(b)|
    ensures LeadingSpaces(a) + |Strip(a)| <= |a|
    ensures Strip(a) == a[LeadingSpaces(a)..LeadingSpaces(a) + |Strip(a)|]
    ensures Strip(b) == b[LeadingSpaces(a)..LeadingSpaces(a) + |Strip(a)|]
  {
    LeadingSpacesSameSpacing(a, b);
    var lo := LeadingSpaces(a);
    SameSpacingSuffix(a, b, lo);
    TrailingSpacesSameSpacing(a[lo..], b[lo..]);
    var n := |a| - lo - TrailingSpaces(a[lo..]);
    assert Strip(a) == a[lo..][..n];
    assert Strip(b) == b[lo..][..n];
  }

  lemma StripOfStripped(s: string)
    requires Stripped(s)
    ensures Strip(s) == s
  {
  }

  /** Lowering and stripping commute: `lower()` never turns a character into
      whitespace or back. */
  lemma LowerStripCommute(s: string)
    ensures Lower(Strip(s)) == Strip(Lower(s))
  {
    LowerIsLowerCase(s);
    StripSameSpacing(s, Lower(s));
  }

  /** Replacing one non-whitespace character by another commutes with
      stripping. */
  lemma ReplaceStripCommute(s: string, from: char, to: char)
    requires !IsSpace(from) && !IsSpace(to)
    ensures ReplaceChar(Strip(s), from, to) == Strip(ReplaceChar(s, from, to))
  {
    var r := ReplaceChar(s, from, to);
    assert SameSpacing(s, r);
    StripSameSpacing(s, r);
  }

  /** The first occurrence is the one with no earlier occurrence. */
  lemma {:induction false} FirstIndexAt(s: string, c: char, k: nat)
    requires k < |s| && s[k] == c && c !in s[..k]
    ensures FirstIndex(s, c) == k
    decreases k
  {
    if k > 0 {
      assert s[0] in s[..k];
      assert s[1..][..k - 1] == s[1..k];
      assert forall x :: x in s[1..k] ==> x in s[..k];
      FirstIndexAt(s[1..], c, k - 1);
    }
  }

  /** `sub in s` holds when `sub` occurs at `i`. */
  lemma {:induction false} ContainsAt(s: string, sub: string, i: nat)
    requires i + |sub| <= |s| && s[i..i + |sub|] == sub
    ensures Contains(s, sub)
    decreases i
  {
    if i == 0 {
      assert sub <= s;
    } else {
      assert s[1..][i - 1..i - 1 + |sub|] == sub;
      ContainsAt(s[1..], sub, i - 1);
    }
  }

  /** `sep in s` for a one-character string `sep` is membership. */
  lemma {:induction false} ContainsChar(s: string, c: char)
    ensures Contains(s, [c]) <==> c in s
    decreases |s|
  {
    if |s| > 0 {
      ContainsChar(s[1..], c);
      assert s == [s[0]] + s[1..];
    }
  }

  /** `s.split(sep)` has a second piece exactly when `sep` occurs in `s`, and
      that piece runs from just after the first `sep` to the next one. */
  lemma SecondPiece(s: string, sep: char)
    ensures |SplitOn(s, sep)| >= 2 <==> sep in s
    ensures sep in s ==>
      var rest := s[FirstIndex(s, sep) + 1..];
      SplitOn(s, sep)[1] == if sep in rest then rest[..FirstIndex(rest, sep)] else rest
  {
  }

  /** A piece of `split(sep)` never contains `sep`. */
  lemma {:induction false} PiecesHaveNoSeparator(s: string, sep: char, k: nat)
    requires k < |SplitOn(s, sep)|
    ensures sep !in SplitOn(s, sep)[k]
    decreases |s|
  {
    if sep in s && k > 0 {
      var i := FirstIndex(s, sep);
      PiecesHaveNoSeparator(s[i + 1..], sep, k - 1);
    }
  }
}
