/**
 * The release tags a support line is opened and advanced from
 * (xtask/src/github/support.rs, `select_successor`, `require_fresh_progression`).
 * Reading and writing version text are parameters of the tag family.
 */
module SupportTags {
  import opened ReleasePolicy
  import opened SemVer
  import opened SupportRuns
  import opened Text
  import opened Wrappers

  const MAX_TAGS: nat := 4096

  /** A ref: its name, and whether it names an annotated tag object by a full object id. */
  datatype Reference = Reference(name: string, annotated: bool)

  datatype Family = Family(prefix: string, parse: string -> Option<Version>, show: Version -> string)
  {
    predicate Owns(ref: Reference) { StartsWith(ref.name, prefix) }

    /** The version a ref of the family names; other spellings are ignored. */
    function Named(ref: Reference): Option<Version> {
      if !Owns(ref) then None
      else
        var raw := ref.name[|prefix|..];
        var version := parse(raw);
        if version.Some? && show(version.value) == raw then version else None
    }
  }

  function Versions(refs: seq<Reference>, family: Family): seq<Version> {
    if refs == [] then []
    else
      var named := family.Named(refs[|refs| - 1]);
      Versions(refs[..|refs| - 1], family) + (if named.Some? then [named.value] else [])
  }

  lemma {:induction false} VersionsAreNamed(refs: seq<Reference>, family: Family)
    ensures forall v :: v in Versions(refs, family) <==> exists ref :: ref in refs && family.Named(ref) == Some(v)
  {
    if refs != [] {
      var rest, last := refs[..|refs| - 1], refs[|refs| - 1];
      VersionsAreNamed(rest, family);
      assert refs == rest + [last];
    }
  }

  /** A ref names a version exactly when it is the prefix and that version's own canonical text. */
  lemma NamedIff(ref: Reference, family: Family, v: Version)
    ensures family.Named(ref) == Some(v) <==>
              ref.name == family.prefix + family.show(v) && family.parse(family.show(v)) == Some(v)
  {
    if family.Owns(ref) {
      assert ref.name == family.prefix + ref.name[|family.prefix|..];
    }
  }

  /** Whether some ref is the canonical tag of `v`. */
  ghost predicate Tagged(refs: seq<Reference>, family: Family, v: Version) {
    family.parse(family.show(v)) == Some(v) && exists ref :: ref in refs && ref.name == family.prefix + family.show(v)
  }

  lemma VersionsAreTagged(refs: seq<Reference>, family: Family)
    ensures forall v :: v in Versions(refs, family) <==> Tagged(refs, family, v)
  {
    VersionsAreNamed(refs, family);
    forall v, ref | ref in refs
      ensures family.Named(ref) == Some(v) <==>
                ref.name == family.prefix + family.show(v) && family.parse(family.show(v)) == Some(v)
    {
      NamedIff(ref, family, v);
    }
  }

  /** The loop both operations share; a progression also demands annotated tags. */
  method CollectVersions(refs: seq<Reference>, family: Family, annotatedOnly: bool)
    returns (result: Result<seq<Version>>)
    ensures result.Ok? <==>
              && |refs| <= MAX_TAGS
              && (forall ref :: ref in refs ==> family.Owns(ref))
              && (annotatedOnly ==> forall ref :: ref in refs && family.Named(ref).Some? ==> ref.annotated)
    ensures result.Ok? ==>
              && result.value == Versions(refs, family)
              && forall v :: v in result.value <==> Tagged(refs, family, v)
  {
    VersionsAreTagged(refs, family);
    if |refs| > MAX_TAGS {
      return Err;
    }
    var versions: seq<Version> := [];
    for i := 0 to |refs|
      invariant versions == Versions(refs[..i], family)
      invariant forall k :: 0 <= k < i ==> family.Owns(refs[k])
      invariant annotatedOnly ==> forall k :: 0 <= k < i && family.Named(refs[k]).Some? ==> refs[k].annotated
    {
      assert refs[..i + 1][..i] == refs[..i];
      if !family.Owns(refs[i]) {
        return Err;
      }
      var named := family.Named(refs[i]);
      if named.Some? {
        if annotatedOnly && !refs[i].annotated {
          return Err;
        }
        versions := versions + [named.value];
      }
    }
    assert refs[..|refs|] == refs;
    result := Ok(versions);
  }

  /** `require_fresh_progression`. */
  method RequireFreshProgression(refs: seq<Reference>, family: Family, line: ReleaseLine, selected: Version)
    returns (accepted: bool)
    ensures line == Main ==> accepted
    ensures line != Main ==>
              (accepted <==> && |refs| <= MAX_TAGS
                             && (forall ref :: ref in refs ==> family.Owns(ref))
                             && (forall ref :: ref in refs && family.Named(ref).Some? ==> ref.annotated)
                             && Advanceable(line, Versions(refs, family), selected))
    ensures forall v :: v in Versions(refs, family) <==> Tagged(refs, family, v)
  {
    VersionsAreTagged(refs, family);
    if line == Main {
      return true;
    }
    AdvancesIff(line, Versions(refs, family), selected);
    var published := CollectVersions(refs, family, true);
    if published.Err? {
      return false;
    }
    accepted := RequireAdvancement(line, selected, published.value).Ok?;
  }

  function Successors(line: ReleaseLine, versions: seq<Version>): seq<Version> {
    Filter(v => RequireSuccessor(line, v).Ok?, versions)
  }

  /** `select_successor`: the answer is the greatest stable of a later line, and `selected` this line's greatest. */
  method SelectSuccessor(refs: seq<Reference>, family: Family, line: ReleaseLine, selected: Version)
    returns (result: Result<Version>)
    ensures result.Ok? <==>
              && |refs| <= MAX_TAGS && (forall ref :: ref in refs ==> family.Owns(ref))
              && LastStable(line, Versions(refs, family), selected)
              && exists ref :: ref in refs && family.Named(ref).Some?
                               && RequireSuccessor(line, family.Named(ref).value).Ok?
    ensures result.Ok? ==>
              && (exists ref :: ref in refs && family.Named(ref) == Some(result.value))
              && RequireSuccessor(line, result.value).Ok?
              && forall v :: v in Versions(refs, family) && RequireSuccessor(line, v).Ok? ==> AtMost(v, result.value)
  {
    VersionsAreNamed(refs, family);
    LastStableIff(line, Versions(refs, family), selected);
    var versions := CollectVersions(refs, family, false);
    if versions.Err? || Greatest(Stables(line, versions.value)) != Some(selected) {
      return Err;
    }
    var greatest := Greatest(Successors(line, versions.value));
    if greatest == None {
      assert forall v :: v in versions.value && RequireSuccessor(line, v).Ok? ==> v in Successors(line, versions.value);
      return Err;
    }
    result := Ok(greatest.value);
  }

  /** A version is a successor exactly if it is stable, outside the line, and follows every version of it. */
  lemma SuccessorIff(line: ReleaseLine, v: Version)
    requires line.Support?
    ensures RequireSuccessor(line, v).Ok? <==>
              v.pre == [] && v.build == "" && !Admits(line, v) && forall p :: Admits(line, p) ==> Precedes(p, v)
  {
    var first := Version(line.major, line.minor, 0, [], "");
    assert Admits(line, first);
  }

  /** `selected` is tagged, stable and in line, and no other tagged stable of the line exceeds it. */
  ghost predicate LastStable(line: ReleaseLine, versions: seq<Version>, selected: Version) {
    && selected in versions && Admits(line, selected) && selected.pre == [] && selected.build == ""
    && forall p :: p in versions && Admits(line, p) && p.pre == [] && p.build == "" ==> AtMost(p, selected)
  }

  lemma LastStableIff(line: ReleaseLine, versions: seq<Version>, selected: Version)
    ensures Greatest(Stables(line, versions)) == Some(selected) <==> LastStable(line, versions, selected)
  {
    var stables := Stables(line, versions);
    assert forall p :: p in stables <==> p in versions && Admits(line, p) && p.pre == [] && p.build == "";
    if Greatest(stables).Some? && LastStable(line, versions, selected) {
      var greatest := Greatest(stables).value;
      PrecedenceDichotomy(greatest, selected);
      PrecedenceIsTotalOrder(greatest, selected, greatest);
      assert greatest.(build := "") == greatest && selected.(build := "") == selected;
    }
  }

  /** A successor follows every version of the line, released or not. */
  lemma SuccessorExceedsLine(line: ReleaseLine, successor: Version, v: Version)
    requires RequireSuccessor(line, successor).Ok? && Admits(line, v)
    ensures Precedes(v, successor)
  {
  }

  /**
   * A line opened at `selected` accepts next only what directly follows it: a
   * stable or candidate of the next patch, above `selected` and below the
   * successor that made the line eligible.
   */
  lemma ActivationFixesNextPatch(
    refs: seq<Reference>, family: Family, line: ReleaseLine, selected: Version, successor: Version, next: Version)
    requires line.Support? && Greatest(Stables(line, Versions(refs, family))) == Some(selected)
    requires RequireSuccessor(line, successor).Ok?
    requires Advances(line, next, Versions(refs, family))
    ensures next.patch == selected.patch + 1 && (next.pre == [] || IsCandidate(next.pre))
    ensures Precedes(selected, next) && Precedes(next, successor)
    ensures forall ref :: ref in refs ==> family.Named(ref) != Some(next)
  {
    AcceptedShape(line, next, Versions(refs, family));
    AcceptedExceeds(line, next, Versions(refs, family), selected);
    SuccessorExceedsLine(line, successor, next);
    VersionsAreNamed(refs, family);
  }
}
