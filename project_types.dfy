/** The project identifier of opsml/projects/base/types.py: `ProjectInfo`,
    whose `name` and `team` pass through `identifier_validator` before the
    `min_length=1` constraint is checked, and the derived `project_id` and
    `project_name`. */
module ProjectTypes {
  import opened Wrappers
  import opened Strings

  /** `value.strip().lower().replace("_", "-")`. */
  function Normalize(value: string): string
  {
    ReplaceChar(Lower(Strip(value)), '_', '-')
  }

  /** `identifier_validator`: `None` passes through, a string is normalised. */
  function IdentifierValidator(value: Option<string>): (r: Option<string>)
    ensures r.None? <==> value.None?
    ensures r.Some? ==> Stripped(r.value) && LowerCase(r.value) && '_' !in r.value
  {
    match value
    case None => None
    case Some(v) =>
      NormalizeFacts(v);
      Some(Normalize(v))
  }

  /** What normalisation guarantees: no surrounding whitespace, no upper-case
      letter, no underscore, and the same text once case and `_`/`-` are
      folded. */
  lemma NormalizeFacts(value: string)
    ensures Stripped(Normalize(value)) && LowerCase(Normalize(value)) && '_' !in Normalize(value)
    ensures Normalize(value) == Strip(Fold(value))
  {
    NormalizeShape(value);
    NormalizeIsStripFold(value);
  }

  lemma NormalizeShape(value: string)
    ensures Stripped(Normalize(value)) && LowerCase(Normalize(value)) && '_' !in Normalize(value)
  {
    var l := Lower(Strip(value));
    var n := Normalize(value);
    LowerIsLowerCase(Strip(value));
    LowerOfLowerCase(l);
    StripSameSpacing(Strip(value), l);
    StripOfStripped(Strip(value));
    assert Stripped(l);
    assert |n| == |l|;
    assert forall i :: 0 <= i < |n| ==> n[i] != '_';
    assert Stripped(n) by {
      if |n| > 0 {
        LowerCharFacts(l[0]);
        assert !IsSpace(n[0]) && !IsSpace(n[|n| - 1]);
      }
    }
  }

  lemma NormalizeIsStripFold(value: string)
    ensures Normalize(value) == Strip(Fold(value))
  {
    LowerStripCommute(value);
    ReplaceStripCommute(Lower(value), '_', '-');
  }

  /** The identifier with case and `_`/`-` folded, whitespace kept. */
  function Fold(value: string): string
  {
    ReplaceChar(Lower(value), '_', '-')
  }

  /** Normalising twice is normalising once. */
  lemma NormalizeIdempotent(value: string)
    ensures Normalize(Normalize(value)) == Normalize(value)
  {
    var n := Normalize(value);
    NormalizeFacts(value);
    StripOfStripped(n);
    LowerOfLowerCase(n);
    assert ReplaceChar(n, '_', '-') == n;
  }

  /** Identifiers that differ only in letter case and in `_` versus `-`
      normalise to the same identifier. */
  lemma NormalizeFoldsCase(a: string, b: string)
    requires Fold(a) == Fold(b)
    ensures Normalize(a) == Normalize(b)
  {
    NormalizeFacts(a);
    NormalizeFacts(b);
  }

  /** Whitespace around an identifier is ignored. */
  lemma NormalizeIgnoresPadding(ws1: string, value: string, ws2: string)
    requires AllSpace(ws1) && AllSpace(ws2)
    ensures Normalize(ws1 + value + ws2) == Normalize(value)
  {
    StripPadded(ws1, value, ws2);
  }

  datatype ProjectInfo = ProjectInfo(
    name: string,
    team: string,
    userEmail: Option<string>,
    runId: Option<string>,
    trackingUri: string)

  /** Constructing a `ProjectInfo`: the validator runs first, then the
      required-field and `min_length=1` checks; `Err` stands for pydantic's
      `ValidationError`. The defaults of `run_id` (an environment variable)
      and `tracking_uri` (the settings) are given by the caller. */
  function MakeProjectInfo(name: Option<string>, team: Option<string>, userEmail: Option<string>,
                           runId: Option<string>, trackingUri: string): (r: Result<ProjectInfo, string>)
    ensures r.Ok? <==>
      name.Some? && |Normalize(name.value)| >= 1 && team.Some? && |Normalize(team.value)| >= 1
      && (userEmail.Some? ==> |userEmail.value| >= 1)
    ensures r.Ok? ==>
      r.value.name == Normalize(name.value) && r.value.team == Normalize(team.value)
      && r.value.userEmail == userEmail && r.value.runId == runId && r.value.trackingUri == trackingUri
  {
    var n := IdentifierValidator(name);
    var t := IdentifierValidator(team);
    if n.None? || |n.value| < 1 then Err("ValidationError: name")
    else if t.None? || |t.value| < 1 then Err("ValidationError: team")
    else if userEmail.Some? && |userEmail.value| < 1 then Err("ValidationError: user_email")
    else Ok(ProjectInfo(n.value, t.value, userEmail, runId, trackingUri))
  }

  /** `project_id`: the team, a colon, then the name. */
  function ProjectId(info: ProjectInfo): (id: string)
    ensures |id| == |info.team| + 1 + |info.name|
    ensures id[..|info.team|] == info.team && id[|info.team|] == ':' && id[|info.team| + 1..] == info.name
  {
    info.team + ":" + info.name
  }

  /** `project_name`: the name alone, which the id ends with. */
  function ProjectName(info: ProjectInfo): (name: string)
    ensures name == info.name
    ensures |name| <= |ProjectId(info)| && ProjectId(info)[|ProjectId(info)| - |name|..] == name
  {
    info.name
  }

  /** A team without a colon is recovered from the id, and so is the name:
      distinct projects of such teams have distinct ids. */
  lemma ProjectIdInjective(a: ProjectInfo, b: ProjectInfo)
    requires ':' !in a.team && ':' !in b.team
    requires ProjectId(a) == ProjectId(b)
    ensures a.team == b.team && a.name == b.name
  {
    var id := ProjectId(a);
    Strings.FirstIndexAt(id, ':', |a.team|);
    Strings.FirstIndexAt(id, ':', |b.team|);
  }

  /** An accepted project has a non-empty, normalised name and team, and its
      name is the project name. */
  lemma AcceptedProject(name: Option<string>, team: Option<string>, userEmail: Option<string>,
                        runId: Option<string>, trackingUri: string)
    requires MakeProjectInfo(name, team, userEmail, runId, trackingUri).Ok?
    ensures var info := MakeProjectInfo(name, team, userEmail, runId, trackingUri).value;
      |info.name| >= 1 && |info.team| >= 1
      && ProjectName(info) == Normalize(name.value)
      && Normalize(info.name) == info.name && Normalize(info.team) == info.team
      && ProjectId(info) == Normalize(team.value) + ":" + Normalize(name.value)
  {
    NormalizeIdempotent(name.value);
    NormalizeIdempotent(team.value);
  }
}
