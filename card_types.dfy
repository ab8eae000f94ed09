/** The card vocabulary of opsml/registry/types/card.py: `RegistryType` and
    its lenient parser `from_str`, the lowering validator of
    `DataCardMetadata.feature_descriptions`, `CardType` with the
    `NON_PIPELINE_CARDS` list derived from it, and `Comment` equality. */
module CardTypes {
  import opened Wrappers
  import opened Strings
  import Collections

  datatype RegistryType = Data | Model | Run | Pipeline | Audit | Project
  {
    function Value(): string
    {
      match this
      case Data => "data"
      case Model => "model"
      case Run => "run"
      case Pipeline => "pipeline"
      case Audit => "audit"
      case Project => "project"
    }
  }

  /** `RegistryType.from_str`: the member whose value is the stripped,
      lowered name; `Err` is the `NotImplementedError` for any other name. */
  function FromStr(name: string): (r: Result<RegistryType, string>)
    ensures r.Ok? ==> r.value.Value() == Lower(Strip(name))
    ensures r.Err? ==> forall t: RegistryType :: t.Value() != Lower(Strip(name))
  {
    var lName := Lower(Strip(name));
    if lName == "data" then Ok(Data)
    else if lName == "model" then Ok(Model)
    else if lName == "run" then Ok(Run)
    else if lName == "pipeline" then Ok(Pipeline)
    else if lName == "project" then Ok(Project)
    else if lName == "audit" then Ok(Audit)
    else Err("NotImplementedError")
  }

  /** Every registry type parses back from its own value. */
  lemma FromStrRoundTrip(t: RegistryType)
    ensures FromStr(t.Value()) == Ok(t)
  {
    var v := t.Value();
    assert Stripped(v);
    StripOfStripped(v);
    assert LowerCase(v);
    LowerOfLowerCase(v);
  }

  /** A name is accepted exactly when, stripped and lowered, it is the value
      of a registry type, and then that type is returned. */
  lemma FromStrAccepts(name: string, t: RegistryType)
    ensures FromStr(name) == Ok(t) <==> Lower(Strip(name)) == t.Value()
  {
  }

  /** Whitespace around the name is ignored. */
  lemma FromStrIgnoresPadding(ws1: string, name: string, ws2: string)
    requires AllSpace(ws1) && AllSpace(ws2)
    ensures FromStr(ws1 + name + ws2) == FromStr(name)
  {
    StripPadded(ws1, name, ws2);
  }

  /** Letter case is ignored. */
  lemma FromStrIgnoresCase(a: string, b: string)
    requires Lower(a) == Lower(b)
    ensures FromStr(a) == FromStr(b)
  {
    LowerStripCommute(a);
    LowerStripCommute(b);
  }

  // ---------------------------------------------------------------------
  // DataCardMetadata.lower_descriptions

  /** The `(feature.lower(), description.lower())` pairs the loop assigns. */
  function LoweredPairs(fd: Collections.OrderedDict<string, string>): (pairs: seq<(string, string)>)
    ensures |pairs| == |fd|
    ensures forall i :: 0 <= i < |fd| ==> pairs[i] == (Lower(fd[i].0), Lower(fd[i].1))
  {
    seq(|fd|, i requires 0 <= i < |fd| => (Lower(fd[i].0), Lower(fd[i].1)))
  }

  /** What the validator returns: an empty dict unchanged, otherwise the dict
      the lowering loop builds. */
  function LoweredDescriptions(fd: Collections.OrderedDict<string, string>): Collections.OrderedDict<string, string>
  {
    if |fd| == 0 then fd else Collections.Build(LoweredPairs(fd))
  }

  /** `lower_descriptions`. */
  method LowerDescriptions(featureDescriptions: Collections.OrderedDict<string, string>)
    returns (r: Collections.OrderedDict<string, string>)
    ensures |featureDescriptions| == 0 ==> r == featureDescriptions
    ensures r == LoweredDescriptions(featureDescriptions)
  {
    if |featureDescriptions| == 0 {
      return featureDescriptions;
    }
    var featDict: Collections.OrderedDict<string, string> := [];
    var i := 0;
    while i < |featureDescriptions|
      invariant 0 <= i <= |featureDescriptions|
      invariant featDict == Collections.Build(LoweredPairs(featureDescriptions[..i]))
    {
      var (feature, description) := featureDescriptions[i];
      assert LoweredPairs(featureDescriptions[..i + 1])[..i] == LoweredPairs(featureDescriptions[..i]);
      featDict := Collections.Put(featDict, Lower(feature), Lower(description));
      i := i + 1;
    }
    assert featureDescriptions[..i] == featureDescriptions;
    r := featDict;
  }

  /** The result has one entry per lowered key, and every key and every
      description in it is lower case. */
  lemma LoweredDescriptionsFacts(fd: Collections.OrderedDict<string, string>)
    ensures Collections.DistinctKeys(fd) ==> Collections.DistinctKeys(LoweredDescriptions(fd))
    ensures Collections.Keys(LoweredDescriptions(fd)) == set i | 0 <= i < |fd| :: Lower(fd[i].0)
    ensures forall e :: e in LoweredDescriptions(fd) ==> LowerCase(e.0) && LowerCase(e.1)
  {
    if |fd| > 0 {
      var pairs := LoweredPairs(fd);
      Collections.BuildKeys(pairs);
      Collections.BuildEntries(pairs);
      assert Collections.Keys(pairs) == set i | 0 <= i < |fd| :: Lower(fd[i].0) by {
        forall k | k in set i | 0 <= i < |fd| :: Lower(fd[i].0) ensures k in Collections.Keys(pairs) {
          var i :| 0 <= i < |fd| && Lower(fd[i].0) == k;
          assert pairs[i].0 == k;
        }
      }
      forall e | e in pairs ensures LowerCase(e.0) && LowerCase(e.1) {
        var i :| 0 <= i < |pairs| && pairs[i] == e;
        LowerIsLowerCase(fd[i].0);
        LowerIsLowerCase(fd[i].1);
      }
    }
  }

  /** Keys that collide once lowered keep the description of the last one. */
  lemma LoweredDescriptionsLastWins(fd: Collections.OrderedDict<string, string>, j: nat)
    requires j < |fd|
    requires forall j' :: j < j' < |fd| ==> Lower(fd[j'].0) != Lower(fd[j].0)
    ensures Collections.Lookup(LoweredDescriptions(fd), Lower(fd[j].0)) == Some(Lower(fd[j].1))
  {
    Collections.BuildLastWins(LoweredPairs(fd), Lower(fd[j].0), j);
  }

  /** Validating an already validated dict changes nothing. */
  lemma LoweredDescriptionsIdempotent(fd: Collections.OrderedDict<string, string>)
    ensures LoweredDescriptions(LoweredDescriptions(fd)) == LoweredDescriptions(fd)
  {
    var d := LoweredDescriptions(fd);
    if |d| > 0 {
      LoweredDescriptionsFacts(fd);
      Collections.BuildKeys(LoweredPairs(fd));
      assert LoweredPairs(d) == d by {
        forall i | 0 <= i < |d| ensures LoweredPairs(d)[i] == d[i] {
          assert d[i] in d;
          LowerOfLowerCase(d[i].0);
          LowerOfLowerCase(d[i].1);
        }
      }
      Collections.BuildOfDistinct(d);
    }
  }

  // ---------------------------------------------------------------------

  datatype CardType = DataCard | RunCard | ModelCard | PipelineCard | ProjectCard | AuditCard
  {
    function Value(): string
    {
      match this
      case DataCard => "data"
      case RunCard => "run"
      case ModelCard => "model"
      case PipelineCard => "pipeline"
      case ProjectCard => "project"
      case AuditCard => "audit"
    }
  }

  /** Iterating `CardType` yields its members in declaration order. */
  const AllCardTypes: seq<CardType> := [DataCard, RunCard, ModelCard, PipelineCard, ProjectCard, AuditCard]

  /** The values of `cards`, in order, leaving out those in `excluded`. */
  function ValuesExcept(cards: seq<CardType>, excluded: seq<string>): (r: seq<string>)
    ensures |r| <= |cards|
    ensures forall i :: 0 <= i < |r| ==> r[i] !in excluded
    ensures forall v :: v in r <==> v !in excluded && exists i :: 0 <= i < |cards| && cards[i].Value() == v
  {
    if |cards| == 0 then []
    else if cards[0].Value() in excluded then ValuesExcept(cards[1..], excluded)
    else [cards[0].Value()] + ValuesExcept(cards[1..], excluded)
  }

  /** The comprehension works card by card: the values of a run of cards
      followed by another are the values of the first run followed by those
      of the second, and a single card yields its value unless excluded. */
  lemma {:induction false} ValuesExceptAppend(a: seq<CardType>, b: seq<CardType>, excluded: seq<string>)
    ensures ValuesExcept(a + b, excluded) == ValuesExcept(a, excluded) + ValuesExcept(b, excluded)
  {
    if |a| > 0 {
      var c := a + b;
      assert c[0] == a[0] && c[1..] == a[1..] + b;
      ValuesExceptAppend(a[1..], b, excluded);
      var rest := ValuesExcept(c[1..], excluded);
      assert rest == ValuesExcept(a[1..], excluded) + ValuesExcept(b, excluded);
      if a[0].Value() in excluded {
        assert ValuesExcept(c, excluded) == rest;
        assert ValuesExcept(a, excluded) == ValuesExcept(a[1..], excluded);
      } else {
        assert ValuesExcept(c, excluded) == [a[0].Value()] + rest;
        assert ValuesExcept(a, excluded) == [a[0].Value()] + ValuesExcept(a[1..], excluded);
      }
    } else {
      assert a + b == b;
    }
  }

  /** A single card yields its value unless that value is excluded. */
  lemma ValuesExceptSingle(c: CardType, excluded: seq<string>)
    ensures ValuesExcept([c], excluded) == if c.Value() in excluded then [] else [c.Value()]
  {
    assert [c][1..] == [];
  }

  /** `NON_PIPELINE_CARDS`. */
  function NonPipelineCards(): (r: seq<string>)
    ensures r == ["data", "run", "model"]
  {
    var excluded := ["pipeline", "project", "audit"];
    var c := AllCardTypes;
    assert ValuesExcept(c[6..], excluded) == [];
    assert c[5..][1..] == c[6..];
    assert ValuesExcept(c[5..], excluded) == [];
    assert c[4..][1..] == c[5..];
    assert ValuesExcept(c[4..], excluded) == [];
    assert c[3..][1..] == c[4..];
    assert ValuesExcept(c[3..], excluded) == [];
    assert c[2..][1..] == c[3..];
    assert ValuesExcept(c[2..], excluded) == ["model"];
    assert c[1..][1..] == c[2..];
    assert ValuesExcept(c[1..], excluded) == ["run", "model"];
    assert c[0..] == c;
    ValuesExcept(c, excluded)
  }

  // ---------------------------------------------------------------------

  /** A `Comment`; the timestamp's default (the wall clock at import time) is
      not modelled, so it is always given. */
  datatype Comment = Comment(name: string, comment: string, timestamp: string)

  /** `Comment.__eq__`: the instances' attribute dicts compare equal. */
  function CommentEquals(a: Comment, b: Comment): (eq: bool)
    ensures eq <==> a.name == b.name && a.comment == b.comment && a.timestamp == b.timestamp
  {
    a == b
  }
}
