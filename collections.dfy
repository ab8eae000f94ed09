/** Python's insertion-ordered `dict`, as a sequence of key/value pairs.
    `Put` is `d[k] = v`: an existing key keeps its place and takes the new
    value, a new key goes to the end. `Build` is the loop
    `d = {}; for k, v in pairs: d[k] = v`, which several modelled routines run. */
module Collections {
  import opened Wrappers

  type OrderedDict<K, V> = seq<(K, V)>

  function Keys<K(==), V>(d: OrderedDict<K, V>): set<K>
  {
    set i | 0 <= i < |d| :: d[i].0
  }

  predicate DistinctKeys<K(==), V>(d: OrderedDict<K, V>)
  {
    forall i, j :: 0 <= i < j < |d| ==> d[i].0 != d[j].0
  }

  /** `d.get(k)`. */
  function Lookup<K(==), V>(d: OrderedDict<K, V>, k: K): Option<V>
  {
    if |d| == 0 then None
    else if d[0].0 == k then Some(d[0].1)
    else Lookup(d[1..], k)
  }

  /** `d[k] = v`. */
  function Put<K(==), V>(d: OrderedDict<K, V>, k: K, v: V): OrderedDict<K, V>
  {
    if |d| == 0 then [(k, v)]
    else if d[0].0 == k then [(k, v)] + d[1..]
    else [d[0]] + Put(d[1..], k, v)
  }

  /** The dict left by `for k, v in pairs: d[k] = v`, starting from `{}`. */
  function Build<K(==), V>(pairs: seq<(K, V)>): OrderedDict<K, V>
  {
    if |pairs| == 0 then [] else Put(Build(pairs[..|pairs| - 1]), pairs[|pairs| - 1].0, pairs[|pairs| - 1].1)
  }

  /** `pairs[j]` is the last pair with key `k`. */
  predicate IsLastWith<K(==), V>(pairs: seq<(K, V)>, k: K, j: int)
  {
    0 <= j < |pairs| && pairs[j].0 == k && forall j' :: j < j' < |pairs| ==> pairs[j'].0 != k
  }

  // ---------------------------------------------------------------------

  lemma {:induction false} KeysCons<K, V>(d: OrderedDict<K, V>)
    requires |d| > 0
    ensures Keys(d) == {d[0].0} + Keys(d[1..])
  {
    forall k | k in Keys(d) ensures k in {d[0].0} + Keys(d[1..]) {
      var i :| 0 <= i < |d| && d[i].0 == k;
      if i > 0 { assert d[1..][i - 1].0 == k; }
    }
    forall k | k in Keys(d[1..]) ensures k in Keys(d) {
      var i :| 0 <= i < |d[1..]| && d[1..][i].0 == k;
      assert d[i + 1].0 == k;
    }
  }

  lemma KeysSnoc<K, V>(d: OrderedDict<K, V>)
    requires |d| > 0
    ensures Keys(d) == Keys(d[..|d| - 1]) + {d[|d| - 1].0}
  {
    var n := |d| - 1;
    forall k | k in Keys(d) ensures k in Keys(d[..n]) + {d[n].0} {
      var i :| 0 <= i < |d| && d[i].0 == k;
      if i < n { assert d[..n][i].0 == k; }
    }
  }

  /** `d.get(k)` finds a key exactly when it is one of the keys. */
  lemma {:induction false} LookupKeys<K, V>(d: OrderedDict<K, V>, k: K)
    ensures Lookup(d, k).Some? <==> k in Keys(d)
    decreases |d|
  {
    if |d| > 0 {
      KeysCons(d);
      LookupKeys(d[1..], k);
    }
  }

  /** `d[k] = v` adds `k` to the keys and nothing else. */
  lemma {:induction false} PutKeys<K, V>(d: OrderedDict<K, V>, k: K, v: V)
    ensures Keys(Put(d, k, v)) == Keys(d) + {k}
    decreases |d|
  {
    var p := Put(d, k, v);
    if |d| == 0 {
      assert Keys(p) == {k} by { assert p[0].0 == k; }
    } else {
      KeysCons(d);
      KeysCons(p);
      if d[0].0 == k {
        assert p[1..] == d[1..];
      } else {
        PutKeys(d[1..], k, v);
        assert p[1..] == Put(d[1..], k, v);
      }
    }
  }

  /** After `d[k] = v`, `k` finds `v` and every other key finds what it did. */
  lemma {:induction false} PutLookup<K, V>(d: OrderedDict<K, V>, k: K, v: V)
    ensures Lookup(Put(d, k, v), k) == Some(v)
    ensures forall k' :: k' != k ==> Lookup(Put(d, k, v), k') == Lookup(d, k')
    decreases |d|
  {
    if |d| > 0 {
      var p := Put(d, k, v);
      if d[0].0 == k {
        assert p[1..] == d[1..];
      } else {
        PutLookup(d[1..], k, v);
        assert p[1..] == Put(d[1..], k, v);
      }
    }
  }

  /** `d[k] = v` keeps the keys distinct. */
  lemma {:induction false} PutDistinct<K, V>(d: OrderedDict<K, V>, k: K, v: V)
    requires DistinctKeys(d)
    ensures DistinctKeys(Put(d, k, v))
    decreases |d|
  {
    if |d| > 0 {
      var p := Put(d, k, v);
      if d[0].0 == k {
        assert p[1..] == d[1..];
        forall i, j | 0 <= i < j < |p| ensures p[i].0 != p[j].0 {
          assert p[i].0 == d[i].0 && p[j].0 == d[j].0;
        }
      } else {
        var tail := d[1..];
        assert p[1..] == Put(tail, k, v);
        assert DistinctKeys(tail) by {
          forall i, j | 0 <= i < j < |tail| ensures tail[i].0 != tail[j].0 {
            assert tail[i] == d[i + 1] && tail[j] == d[j + 1];
          }
        }
        PutDistinct(tail, k, v);
        PutKeys(tail, k, v);
        forall i | 0 <= i < |tail| ensures tail[i].0 != d[0].0 {
          assert tail[i] == d[i + 1];
        }
        assert d[0].0 !in Keys(p[1..]);
        forall i, j | 0 <= i < j < |p| ensures p[i].0 != p[j].0 {
          if i > 0 {
            assert p[i] == p[1..][i - 1] && p[j] == p[1..][j - 1];
          } else {
            assert p[j].0 == p[1..][j - 1].0 && p[1..][j - 1].0 in Keys(p[1..]);
          }
        }
      }
    }
  }

  /** A new key goes to the end. */
  lemma {:induction false} PutNew<K, V>(d: OrderedDict<K, V>, k: K, v: V)
    requires k !in Keys(d)
    ensures Put(d, k, v) == d + [(k, v)]
    decreases |d|
  {
    if |d| > 0 {
      KeysCons(d);
      PutNew(d[1..], k, v);
      assert d == [d[0]] + d[1..];
    }
  }

  /** What `d[k] = v` does to the keys, to the lookups and to the order. */
  lemma PutFacts<K, V>(d: OrderedDict<K, V>, k: K, v: V)
    ensures Keys(Put(d, k, v)) == Keys(d) + {k}
    ensures Lookup(Put(d, k, v), k) == Some(v)
    ensures forall k' :: k' != k ==> Lookup(Put(d, k, v), k') == Lookup(d, k')
    ensures DistinctKeys(d) ==> DistinctKeys(Put(d, k, v))
    ensures k !in Keys(d) ==> Put(d, k, v) == d + [(k, v)]
  {
    PutKeys(d, k, v);
    PutLookup(d, k, v);
    if DistinctKeys(d) {
      PutDistinct(d, k, v);
    }
    if k !in Keys(d) {
      PutNew(d, k, v);
    }
  }

  /** Every entry of `d[k] = v` was in `d` or is the new one. */
  lemma {:induction false} PutEntries<K, V>(d: OrderedDict<K, V>, k: K, v: V)
    ensures forall e :: e in Put(d, k, v) ==> e in d || e == (k, v)
    decreases |d|
  {
    if |d| > 0 && d[0].0 != k {
      PutEntries(d[1..], k, v);
    }
  }

  /** Every entry the loop leaves is one of the pairs it was given. */
  lemma {:induction false} BuildEntries<K, V>(pairs: seq<(K, V)>)
    ensures forall e :: e in Build(pairs) ==> e in pairs
    decreases |pairs|
  {
    if |pairs| > 0 {
      var n := |pairs| - 1;
      BuildEntries(pairs[..n]);
      PutEntries(Build(pairs[..n]), pairs[n].0, pairs[n].1);
    }
  }

  /** The loop keeps one entry per key, and its keys are the keys it was given. */
  lemma {:induction false} BuildKeys<K, V>(pairs: seq<(K, V)>)
    ensures DistinctKeys(Build(pairs))
    ensures Keys(Build(pairs)) == Keys(pairs)
    decreases |pairs|
  {
    if |pairs| > 0 {
      var n := |pairs| - 1;
      var b := Build(pairs[..n]);
      assert Build(pairs) == Put(b, pairs[n].0, pairs[n].1);
      BuildKeys(pairs[..n]);
      PutFacts(b, pairs[n].0, pairs[n].1);
      KeysSnoc(pairs);
    }
  }

  /** The loop gives each key the value of the LAST pair that carries it. */
  lemma {:induction false} BuildLastWins<K, V>(pairs: seq<(K, V)>, k: K, j: int)
    requires IsLastWith(pairs, k, j)
    ensures Lookup(Build(pairs), k) == Some(pairs[j].1)
    decreases |pairs|
  {
    var n := |pairs| - 1;
    PutFacts(Build(pairs[..n]), pairs[n].0, pairs[n].1);
    if j < n {
      BuildLastWins(pairs[..n], k, j);
    }
  }

  /** A key that no pair carries is not found. */
  lemma BuildMissing<K, V>(pairs: seq<(K, V)>, k: K)
    requires forall i :: 0 <= i < |pairs| ==> pairs[i].0 != k
    ensures Lookup(Build(pairs), k) == None
  {
    BuildKeys(pairs);
    LookupKeys(Build(pairs), k);
  }

  /** Replaying a dict with distinct keys through the loop rebuilds it. */
  lemma {:induction false} BuildOfDistinct<K, V>(d: OrderedDict<K, V>)
    requires DistinctKeys(d)
    ensures Build(d) == d
    decreases |d|
  {
    if |d| > 0 {
      var n := |d| - 1;
      assert DistinctKeys(d[..n]);
      BuildOfDistinct(d[..n]);
      forall i | 0 <= i < n ensures d[..n][i].0 != d[n].0 {
        assert d[..n][i] == d[i];
      }
      assert d[n].0 !in Keys(d[..n]);
      PutFacts(d[..n], d[n].0, d[n].1);
      assert d[..n] + [(d[n].0, d[n].1)] == d;
    }
  }
}
