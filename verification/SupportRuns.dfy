/** What every sequence of versions accepted on one support line keeps. */
module SupportRuns {
  import opened Decimal
  import opened ReleasePolicy
  import opened SemVer
  import opened Wrappers

  /** Versions accepted one after another, each published before the next is selected. */
  ghost predicate AcceptedRun(line: ReleaseLine, published: seq<Version>, accepted: seq<Version>) {
    forall i :: 0 <= i < |accepted| ==> Advances(line, accepted[i], published + accepted[..i])
  }

  /** A stable baseline, and in the line nothing above it but prereleases of the next patch. */
  ghost predicate Settled(line: ReleaseLine, published: seq<Version>) {
    && line.Support?
    && Greatest(Stables(line, published)).Some?
    && var next := Greatest(Stables(line, published)).value.patch + 1;
       forall p :: p in published && Admits(line, p) ==> p.patch < next || (p.patch == next && p.pre != [])
  }

  predicate IsCandidate(pre: seq<Ident>) { |pre| == 2 && pre[1].Numeric? && pre[1].n > 0 && pre == Candidate(pre[1].n) }

  /** The only two ways forward: from a stable to the next patch, from rc.N to rc.N+1 or the stable. */
  predicate Follows(v: Version, w: Version) {
    if v.pre == [] then
      w.patch == v.patch + 1 && (w.pre == [] || IsCandidate(w.pre))
    else
      w.patch == v.patch && IsCandidate(v.pre) && (w.pre == [] || w.pre == Candidate(v.pre[1].n + 1))
  }

  // ----- The exact acceptance condition -----

  predicate InLine(line: ReleaseLine, published: seq<Version>, p: Version) { p in published && Admits(line, p) }

  /** The last stable of the line is of the patch before `patch`. */
  ghost predicate StableBefore(line: ReleaseLine, published: seq<Version>, patch: nat) {
    && (exists p :: InLine(line, published, p) && p.pre == [] && p.build == "" && p.patch + 1 == patch)
    && (forall p :: InLine(line, published, p) && p.pre == [] && p.build == "" ==> p.patch < patch)
  }

  /** Candidate `n` is the first thing at its patch, or follows candidate `n - 1` as the greatest there. */
  ghost predicate NextAtPatch(line: ReleaseLine, published: seq<Version>, patch: nat, n: nat) {
    || (forall p :: InLine(line, published, p) ==> p.patch != patch)
    || (n > 1 && TopAtPatch(line, published, patch, Candidate(n - 1)))
  }

  /** The in-line, unpublished next stable, or the next candidate of that patch. */
  ghost predicate Advanceable(line: ReleaseLine, published: seq<Version>, v: Version) {
    && Admits(line, v) && v.build == "" && v !in published
    && StableBefore(line, published, v.patch)
    && (v.pre == []
        || exists n: nat :: 0 < n <= U64_MAX && v.pre == Candidate(n) && NextAtPatch(line, published, v.patch, n))
  }

  lemma BaselineIff(line: ReleaseLine, published: seq<Version>, patch: nat)
    ensures var greatest := Greatest(Stables(line, published));
            (greatest.Some? && greatest.value.patch + 1 == patch && line.Support?)
            <==> StableBefore(line, published, patch) && line.Support?
  {
    var stables := Stables(line, published);
    assert forall p :: p in stables <==> InLine(line, published, p) && p.pre == [] && p.build == "";
    var greatest := Greatest(stables);
    if greatest.Some? && line.Support? {
      assert forall p :: p in stables ==> AtMost(p, greatest.value) && p.patch <= greatest.value.patch;
    }
  }

  /** Something published at the patch has this prerelease and nothing there exceeds it. */
  ghost predicate TopAtPatch(line: ReleaseLine, published: seq<Version>, patch: nat, pre: seq<Ident>) {
    exists last ::
      InLine(line, published, last) && last.patch == patch && last.pre == pre && Tops(line, published, last)
  }

  ghost predicate Tops(line: ReleaseLine, published: seq<Version>, last: Version) {
    forall p :: InLine(line, published, p) && p.patch == last.patch ==> AtMost(p, last)
  }

  lemma AtPatchIs(line: ReleaseLine, published: seq<Version>, patch: u64)
    ensures forall p :: p in AtPatch(line, patch, published) <==> InLine(line, published, p) && p.patch == patch
  {
  }

  lemma TopIff(line: ReleaseLine, published: seq<Version>, patch: u64, pre: seq<Ident>)
    ensures var greatest := Greatest(AtPatch(line, patch, published));
            (greatest.Some? && greatest.value.pre == pre) <==> TopAtPatch(line, published, patch, pre)
  {
    AtPatchIs(line, published, patch);
    hide AtPatch, InLine, AtMost, Greatest;
    var there := AtPatch(line, patch, published);
    if Greatest(there).Some? {
      var greatest := Greatest(there).value;
      assert Tops(line, published, greatest);
      if TopAtPatch(line, published, patch, pre) {
        var last :|
          InLine(line, published, last) && last.patch == patch && last.pre == pre && Tops(line, published, last);
        SameOrder(greatest, last);
      }
    }
  }

  /** The ordinal before `n` is that of candidate `n - 1`. */
  lemma OrdinalBefore(v: Version, n: nat)
    requires 0 < n <= U64_MAX
    ensures Ordinal(v).Ok? && CheckedAdd1(Ordinal(v).value) == Some(n) <==> n > 1 && v.pre == Candidate(n - 1)
  {
    OrdinalIsExact(v, n - 1);
    if Ordinal(v).Ok? {
      OrdinalIsExact(v, Ordinal(v).value);
    }
    hide Ordinal, Candidate;
  }

  lemma NoneAtPatch(line: ReleaseLine, published: seq<Version>, patch: u64)
    ensures Greatest(AtPatch(line, patch, published)).None? <==>
              forall p :: InLine(line, published, p) ==> p.patch != patch
  {
    AtPatchIs(line, published, patch);
    hide AtPatch, InLine, AtMost;
    var there := AtPatch(line, patch, published);
    assert there != [] ==> there[0] in there;
  }

  lemma NextIff(line: ReleaseLine, published: seq<Version>, patch: u64, n: nat)
    requires 0 < n <= U64_MAX
    ensures var last := Greatest(AtPatch(line, patch, published));
            (last.None? || (Ordinal(last.value).Ok? && CheckedAdd1(Ordinal(last.value).value) == Some(n)))
            <==> NextAtPatch(line, published, patch, n)
  {
    NoneAtPatch(line, published, patch);
    var greatest := Greatest(AtPatch(line, patch, published));
    if n > 1 {
      TopIff(line, published, patch, Candidate(n - 1));
    }
    if greatest.Some? {
      OrdinalBefore(greatest.value, n);
    }
    hide Ordinal, Candidate, AtPatch, TopAtPatch, Greatest, InLine, AtMost, CheckedAdd1;
  }

  lemma SameOrder(v: Version, w: Version)
    requires AtMost(v, w) && AtMost(w, v)
    ensures v.pre == w.pre
  {
    PrecedenceIsTotalOrder(v, w, v);
  }

  /** On a support line exactly the advanceable versions are accepted. */
  lemma AdvancesIff(line: ReleaseLine, published: seq<Version>, v: Version)
    requires line.Support?
    ensures Advances(line, v, published) <==> Advanceable(line, published, v)
  {
    BaselineIff(line, published, v.patch);
    if Ordinal(v).Ok? {
      OrdinalIsExact(v, Ordinal(v).value);
      NextIff(line, published, v.patch, Ordinal(v).value);
    }
    forall n: nat | 0 < n <= U64_MAX && v.pre == Candidate(n) ensures Ordinal(v) == Ok(n) {
      OrdinalIsExact(v, n);
    }
    hide Ordinal, StableBefore, NextAtPatch, Stables, AtPatch, Greatest;
  }

  /** An accepted version is stable or a positive candidate of the patch after the last stable. */
  lemma AcceptedShape(line: ReleaseLine, v: Version, published: seq<Version>)
    requires line.Support? && Advances(line, v, published)
    ensures Admits(line, v) && v.build == "" && v !in published
    ensures Greatest(Stables(line, published)).Some?
    ensures v.patch == Greatest(Stables(line, published)).value.patch + 1
    ensures v.pre == [] || IsCandidate(v.pre)
  {
    if v.pre != [] {
      OrdinalIsExact(v, Ordinal(v).value);
    }
  }

  /**
   * Exactly which earlier versions an accepted version exceeds: those of a
   * lower patch, and the prereleases of its own patch.
   */
  lemma AcceptedExceeds(line: ReleaseLine, v: Version, published: seq<Version>, p: Version)
    requires line.Support? && Advances(line, v, published)
    requires p in published && Admits(line, p)
    ensures Precedes(p, v) <==> p.patch < v.patch || (p.patch == v.patch && p.pre != [])
  {
    var stable := Greatest(Stables(line, published)).value;
    if p.patch == v.patch && v.pre != [] {
      var last := Greatest(AtPatch(line, v.patch, published)).value;
      assert AtMost(p, last);
      var n := Ordinal(last).value;
      OrdinalIsExact(last, n);
      OrdinalIsExact(v, n + 1);
      CandidateOrder(n, n + 1);
      PrecedenceIsTotalOrder(p, last, v);
      assert p.pre == [] ==> ComparePre(p.pre, last.pre) == Greater;
    }
  }

  /** The accepted version need not exceed everything published: a later candidate can already exist. */
  lemma AcceptedBelowPublished()
    ensures var line := Support(0, 5);
            var published := [Version(0, 5, 1, [], ""), Version(0, 5, 4, Candidate(1), "")];
            var v := Version(0, 5, 2, [], "");
            Advances(line, v, published) && !Precedes(published[1], v)
  {
    var line := Support(0, 5);
    var published := [Version(0, 5, 1, [], ""), Version(0, 5, 4, Candidate(1), "")];
    assert published[0] in Stables(line, published);
    var stable := Greatest(Stables(line, published)).value;
    assert stable == published[0] by { assert stable in published; }
  }

  /** An acceptance exceeds everything published in the line exactly when the set is settled. */
  lemma StepExceedsIff(line: ReleaseLine, published: seq<Version>, v: Version)
    requires line.Support? && Advances(line, v, published)
    ensures (forall p :: p in published && Admits(line, p) ==> Precedes(p, v)) <==> Settled(line, published)
  {
    AcceptedShape(line, v, published);
    hide Precedes, Advances;
    forall p | p in published && Admits(line, p)
      ensures Precedes(p, v) <==> p.patch < v.patch || (p.patch == v.patch && p.pre != [])
    {
      AcceptedExceeds(line, v, published, p);
    }
  }

  /** One acceptance keeps the set settled, and moves its baseline exactly when it is stable. */
  lemma StepStaysSettled(line: ReleaseLine, published: seq<Version>, v: Version)
    requires Settled(line, published) && Advances(line, v, published)
    ensures Settled(line, published + [v])
    ensures var last := Greatest(Stables(line, published + [v])).value;
            last.patch == if v.pre == [] then v.patch else v.patch - 1
  {
    var stable := Greatest(Stables(line, published)).value;
    var after := published + [v];
    AcceptedShape(line, v, published);
    assert stable in Stables(line, after);
    assert v.pre == [] ==> v in Stables(line, after);
    var last := Greatest(Stables(line, after)).value;
    assert last in after;
    assert AtMost(stable, last);
    if v.pre == [] {
      assert AtMost(v, last);
    } else {
      assert last in Stables(line, published) && AtMost(last, stable);
    }
  }

  /** The version just accepted is the greatest of its patch. */
  lemma AcceptedIsGreatest(line: ReleaseLine, published: seq<Version>, v: Version)
    requires Settled(line, published) && Advances(line, v, published)
    ensures Greatest(AtPatch(line, v.patch, published + [v])) == Some(v)
  {
    var after := published + [v];
    StepExceedsIff(line, published, v);
    assert Admits(line, v);
    assert v in AtPatch(line, v.patch, after);
    hide Settled, Advances, AtMost, Precedes;
    var last := Greatest(AtPatch(line, v.patch, after)).value;
    assert last in after && Admits(line, last) && AtMost(v, last);
    PrecedenceDichotomy(last, v);
    PrecedenceDichotomy(v, last);
  }

  /** Two candidates of one patch accepted in a row have consecutive ordinals. */
  lemma CandidatesFollow(line: ReleaseLine, published: seq<Version>, v: Version, w: Version)
    requires line.Support? && Advances(line, w, published) && v.pre != [] && w.pre != []
    requires Greatest(AtPatch(line, w.patch, published)) == Some(v)
    ensures IsCandidate(v.pre) && w.pre == Candidate(v.pre[1].n + 1)
  {
    var n := Ordinal(v).value;
    OrdinalIsExact(v, n);
    OrdinalIsExact(w, n + 1);
  }

  /** Two acceptances in a row are related in one of the permitted ways. */
  lemma StepFollows(line: ReleaseLine, published: seq<Version>, v: Version, w: Version)
    requires Settled(line, published) && Advances(line, v, published)
    requires Advances(line, w, published + [v])
    ensures Follows(v, w)
  {
    var after := published + [v];
    StepStaysSettled(line, published, v);
    AcceptedShape(line, v, published);
    AcceptedShape(line, w, after);
    AcceptedIsGreatest(line, published, v);
    hide Settled, Advances, IsCandidate;
    if v.pre != [] && w.pre != [] {
      CandidatesFollow(line, after, v, w);
    }
  }

  /** A settled set stays settled throughout a run. */
  lemma {:induction false} RunStaysSettled(
    line: ReleaseLine, published: seq<Version>, accepted: seq<Version>, i: nat)
    requires Settled(line, published) && AcceptedRun(line, published, accepted) && i <= |accepted|
    ensures Settled(line, published + accepted[..i])
  {
    hide Settled, Advances;
    if i == 0 {
      assert published + accepted[..0] == published;
    } else {
      var before := published + accepted[..i - 1];
      RunStaysSettled(line, published, accepted, i - 1);
      StepStaysSettled(line, before, accepted[i - 1]);
      assert published + accepted[..i] == before + [accepted[i - 1]];
    }
  }

  /** Every version of a run from a settled set exceeds everything in the line published before it. */
  lemma RunsIncrease(
    line: ReleaseLine, published: seq<Version>, accepted: seq<Version>, i: nat, p: Version)
    requires Settled(line, published) && AcceptedRun(line, published, accepted) && i < |accepted|
    requires p in published + accepted[..i] && Admits(line, p)
    ensures Precedes(p, accepted[i])
  {
    assert line.Support? && Advances(line, accepted[i], published + accepted[..i]);
    hide Settled, Advances, Precedes;
    RunStaysSettled(line, published, accepted, i);
    StepExceedsIff(line, published + accepted[..i], accepted[i]);
  }

  /** Whether every version of a run exceeds everything in the line published before it. */
  ghost predicate Increases(line: ReleaseLine, published: seq<Version>, accepted: seq<Version>) {
    forall i, p :: 0 <= i < |accepted| && p in published + accepted[..i] && Admits(line, p) ==> Precedes(p, accepted[i])
  }

  /** A nonempty run on a support line increases if and only if it starts from a settled set. */
  lemma RunsIncreaseIff(line: ReleaseLine, published: seq<Version>, accepted: seq<Version>)
    requires line.Support? && AcceptedRun(line, published, accepted) && accepted != []
    ensures Increases(line, published, accepted) <==> Settled(line, published)
  {
    assert published + accepted[..0] == published;
    assert Advances(line, accepted[0], published + accepted[..0]);
    StepExceedsIff(line, published, accepted[0]);
    hide Settled, Advances, Precedes;
    if Settled(line, published) {
      forall i, p | 0 <= i < |accepted| && p in published + accepted[..i] && Admits(line, p)
        ensures Precedes(p, accepted[i])
      {
        RunsIncrease(line, published, accepted, i, p);
      }
    } else {
      var p :| p in published && Admits(line, p) && !Precedes(p, accepted[0]);
      assert p in published + accepted[..0];
    }
  }

  /** Neighbours of a run from a settled set follow one another exactly. */
  lemma RunsFollow(line: ReleaseLine, published: seq<Version>, accepted: seq<Version>, i: nat)
    requires Settled(line, published) && AcceptedRun(line, published, accepted) && i + 1 < |accepted|
    ensures Follows(accepted[i], accepted[i + 1])
  {
    hide Settled, Advances, Follows;
    RunStaysSettled(line, published, accepted, i);
    assert published + accepted[..i + 1] == published + accepted[..i] + [accepted[i]];
    StepFollows(line, published + accepted[..i], accepted[i], accepted[i + 1]);
  }

  /** In a run, two stables with only candidates between them have consecutive patches. */
  lemma {:induction false} StablesConsecutive(accepted: seq<Version>, i: nat, j: nat)
    requires i < j < |accepted|
    requires forall k :: 0 <= k < |accepted| - 1 ==> Follows(accepted[k], accepted[k + 1])
    requires accepted[i].pre == [] && forall k :: i < k < j ==> accepted[k].pre != []
    ensures accepted[j].patch == accepted[i].patch + 1
  {
    if i + 1 < j {
      StablesConsecutive(accepted, i, j - 1);
    }
    assert Follows(accepted[j - 1], accepted[j]);
  }
}
