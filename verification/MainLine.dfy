/** Versions of the main line: coordination activation and release preparation. */
module MainLine {
  import opened Decimal
  import opened ReleasePolicy
  import opened SemVer
  import opened Wrappers

  function ActivationVersion(current: Version, target: Version): Result<Version> {
    if current.pre != [] || current.build != "" then Err
    else if target.pre != [] || target.build != "" then Err
    else
      var selected := target.(pre := Candidate(0));
      if AtMost(selected, current) then Err else Ok(selected)
  }

  /** `validate_selected_release_version`: no build metadata, and not the coordination stub. */
  predicate ValidSelection(v: Version) { v.build == "" && PreText(v.pre) != "rc.0" }

  datatype Adjustment = ReplacedStub | AdvancedCandidate | PromotedStable | StartedPrerelease | StartedNextPatch

  predicate RealCandidateText(text: string) {
    match StripPrefix(text, "rc.")
    case None => false
    case Some(ordinal) => ordinal != "" && ordinal != "0" && AllDigits(ordinal)
  }

  /** The ordinal after an existing positive candidate, when it still fits. */
  function NextCandidate(v: Version): Option<u64> {
    match StripPrefix(PreText(v.pre), "rc.")
    case None => None
    case Some(ordinal) =>
      match ParseU64(ordinal)
      case None => None
      case Some(n) => if n > 0 then CheckedAdd1(n) else None
  }

  /** Callers pass build-free versions, so Rust's version order is precedence here. */
  function RequireExactVersionAdjustment(original: Version, derived: Version, selected: Version): Result<Adjustment> {
    var sameCore := derived.SameCore(selected);
    var next := NextCandidate(original);
    if sameCore && PreText(original.pre) == "rc.0" && derived == original && Precedes(original, selected)
       && (selected.pre == [] || RealCandidateText(PreText(selected.pre)))
    then Ok(ReplacedStub)
    else if sameCore && derived == original && next.Some? && PreText(selected.pre) == "rc." + Print(next.value)
    then Ok(AdvancedCandidate)
    else if sameCore && original.pre != [] && selected.pre == [] && original.SameCore(selected)
            && derived.pre != [] && AtMost(original, derived) && Precedes(derived, selected)
    then Ok(PromotedStable)
    else if sameCore && original.pre == [] && selected.pre != [] && derived.pre == []
            && Precedes(original, selected) && Precedes(selected, derived)
    then Ok(StartedPrerelease)
    else if original.pre == [] && original.build == "" && derived == original
            && selected.major == original.major && selected.minor == original.minor
            && CheckedAdd1(original.patch) == Some(selected.patch)
            && PreText(selected.pre) == "rc.1" && selected.build == ""
    then Ok(StartedNextPatch)
    else Err
  }

  /** The version checks of `prepare` on main: the adjustment is checked only when one is made. */
  predicate Prepares(original: Version, derived: Version, selected: Version) {
    && ValidSelection(selected)
    && (derived != selected ==> RequireExactVersionAdjustment(original, derived, selected).Ok?)
  }

  /** The text of a candidate determines it. */
  lemma CandidateText(pre: seq<Ident>, n: nat)
    ensures PreText(pre) == "rc." + Print(n) <==> pre == Candidate(n)
  {
    assert Candidate(n)[1..] == [Numeric(n)];
    assert PreText(Candidate(n)) == "rc" + "." + Print(n) == "rc." + Print(n);
    if PreText(pre) == "rc." + Print(n) {
      CandidatePrefix(pre, Print(n));
      DigitsAreNumeric(pre[1..], n);
      assert pre == [pre[0]] + pre[1..];
    }
  }

  /** Exactly the positive candidates below the u64 maximum have a successor, and it is one more. */
  lemma NextCandidateIsExact(v: Version)
    ensures NextCandidate(v).Some? ==>
              NextCandidate(v).value > 1 && v.pre == Candidate(NextCandidate(v).value - 1)
    ensures forall n :: 0 < n < U64_MAX && v.pre == Candidate(n) ==> NextCandidate(v) == Some(n + 1)
  {
    forall n | 0 < n < U64_MAX && v.pre == Candidate(n) ensures NextCandidate(v) == Some(n + 1) {
      OrdinalIsExact(v, n);
    }
    if NextCandidate(v).Some? {
      var ordinal := StripPrefix(PreText(v.pre), "rc.").value;
      assert PreText(v.pre) == "rc." + ordinal;
      CandidatePrefix(v.pre, ordinal);
      assert PreText(v.pre[1..]) == ordinal;
      OneNumeric(v.pre[1..]);
      assert v.pre == [v.pre[0]] + v.pre[1..];
    }
  }

  /** Identifier text that parses as an unsigned number is one numeric identifier. */
  lemma OneNumeric(pre: seq<Ident>)
    requires ParseU64(PreText(pre)).Some?
    ensures |pre| == 1 && pre[0].Numeric? && ParseU64(PreText(pre)) == Some(pre[0].n)
  {
    var text := PreText(pre);
    var head := IdentText(pre[0]);
    IdentHasNoDot(pre[0]);
    SeparatorShows(pre);
    assert text[0] == head[0];
    assert pre[0].Numeric? ==> IsDigit(head[0]);
    assert pre[0].Alpha? ==> IsIdentChar(head[0]);
    assert AllDigits(text) && '.' !in text;
    assert text == head;
    ValueOfPrint(if pre[0].Numeric? then pre[0].n else 0);
  }

  // ----- Exactly what is accepted -----

  /** Activation opens a later core at candidate zero, from a stable to a stable target only. */
  lemma ActivationIff(current: Version, target: Version, v: Version)
    ensures ActivationVersion(current, target) == Ok(v) <==>
              && current.pre == [] && current.build == "" && target.pre == [] && target.build == ""
              && Precedes(current, target)
              && v == Version(target.major, target.minor, target.patch, Candidate(0), "")
  {
  }

  /** A selection is valid unless it is the coordination stub or carries build metadata. */
  lemma ValidSelectionIff(v: Version)
    ensures ValidSelection(v) <==> v.build == "" && v.pre != Candidate(0)
  {
    assert Print(0) == "0";
    CandidateText(v.pre, 0);
  }

  predicate PositiveCandidate(pre: seq<Ident>) {
    |pre| == 2 && pre[1].Numeric? && pre[1].n > 0 && pre == Candidate(pre[1].n)
  }

  /** The text test of a real candidate accepts exactly the positive candidates, of any size. */
  lemma RealCandidateIff(pre: seq<Ident>)
    ensures RealCandidateText(PreText(pre)) <==> PositiveCandidate(pre)
  {
    if RealCandidateText(PreText(pre)) {
      var ordinal := StripPrefix(PreText(pre), "rc.").value;
      assert PreText(pre) == "rc." + ordinal;
      CandidatePrefix(pre, ordinal);
      OneNumber(pre[1..]);
      assert pre == [pre[0]] + pre[1..];
      assert Print(0) == "0";
    }
    if PositiveCandidate(pre) {
      var n := pre[1].n;
      CandidateText(pre, n);
      ValueOfPrint(n);
      assert Print(0) == "0";
      assert Value("0") == 0;
    }
  }

  /** Identifier text made of digits is one numeric identifier. */
  lemma OneNumber(pre: seq<Ident>)
    requires PreText(pre) != "" && AllDigits(PreText(pre))
    ensures |pre| == 1 && pre[0].Numeric? && PreText(pre) == Print(pre[0].n)
  {
    var text, head := PreText(pre), IdentText(pre[0]);
    SeparatorShows(pre);
    assert '.' !in text;
    assert text == head;
  }

  /** The five adjustments, in terms of identifiers: which triples they accept. */
  predicate Adjustable(original: Version, derived: Version, selected: Version) {
    // The activation stub becomes its first candidate or its stable.
    || (derived == original && original.pre == Candidate(0) && original.SameCore(selected)
        && (selected.pre == [] || PositiveCandidate(selected.pre)))
    // A candidate becomes the next one.
    || (derived == original && PositiveCandidate(original.pre) && original.pre[1].n < U64_MAX
        && original.SameCore(selected) && selected.pre == Candidate(original.pre[1].n + 1))
    // A prerelease becomes its stable, whatever prerelease of that core was derived.
    || (original.pre != [] && selected.pre == [] && original.SameCore(selected) && derived.SameCore(selected)
        && derived.pre != [] && AtMost(original, derived))
    // A stable starts a prerelease of the derived stable.
    || (original.pre == [] && derived.pre == [] && selected.pre != [] && derived.SameCore(selected)
        && Precedes(original, selected))
    // A stable without changes starts the first candidate of its next patch.
    || (original.pre == [] && derived == original && original.patch < U64_MAX
        && selected.major == original.major && selected.minor == original.minor
        && selected.patch == original.patch + 1 && selected.pre == Candidate(1))
  }

  /** Exactly the adjustable triples are accepted. */
  lemma AdjustmentIff(original: Version, derived: Version, selected: Version)
    requires original.build == derived.build == selected.build == ""
    ensures RequireExactVersionAdjustment(original, derived, selected).Ok? <==> Adjustable(original, derived, selected)
  {
    assert Print(0) == "0" && Print(1) == "1";
    CandidateText(original.pre, 0);
    CandidateText(selected.pre, 1);
    RealCandidateIff(selected.pre);
    NextIsPositive(original);
    if NextCandidate(original).Some? {
      CandidateText(selected.pre, NextCandidate(original).value);
    }
    PositiveAboveZero(original, selected);
    StableAbove(derived, selected);
    hide NextCandidate, CompareIdents, PreText, RealCandidateText;
  }

  lemma NextIsPositive(v: Version)
    ensures NextCandidate(v).Some? <==> PositiveCandidate(v.pre) && v.pre[1].n < U64_MAX
    ensures NextCandidate(v).Some? ==> NextCandidate(v).value == v.pre[1].n + 1
  {
    NextCandidateIsExact(v);
    hide NextCandidate;
    assert forall n :: v.pre == Candidate(n) ==> v.pre[1].Numeric? && v.pre[1].n == n;
    if PositiveCandidate(v.pre) && v.pre[1].n < U64_MAX {
      assert v.pre == Candidate(v.pre[1].n);
    }
  }

  lemma PositiveAboveZero(v: Version, w: Version)
    ensures v.pre == Candidate(0) && v.SameCore(w) && PositiveCandidate(w.pre) ==> Precedes(v, w)
  {
    if PositiveCandidate(w.pre) {
      CandidateOrder(0, w.pre[1].n);
    }
  }

  lemma StableAbove(v: Version, w: Version)
    ensures v.SameCore(w) && v.pre != [] && w.pre == [] ==> Precedes(v, w)
    ensures v.SameCore(w) && v.pre == [] && w.pre != [] ==> Precedes(w, v)
  {
  }

  /** Every accepted adjustment moves up, from a prerelease within its core, from a stable to a prerelease. */
  lemma AdjustmentsAdvance(original: Version, derived: Version, selected: Version)
    requires original.build == derived.build == "" && ValidSelection(selected)
    requires RequireExactVersionAdjustment(original, derived, selected).Ok?
    ensures Precedes(original, selected)
    ensures original.pre != [] ==> original.SameCore(selected)
    ensures original.pre == [] ==> selected.pre != []
    ensures selected.pre != Candidate(0)
  {
    assert Print(0) == "0" && Print(1) == "1";
    CandidateText(selected.pre, 0);
    CandidateText(selected.pre, 1);
    CandidateText(original.pre, 0);
    match RequireExactVersionAdjustment(original, derived, selected).value
    case ReplacedStub =>
    case AdvancedCandidate =>
      var next := NextCandidate(original).value;
      NextCandidateIsExact(original);
      CandidateText(selected.pre, next);
      CandidateOrder(next - 1, next);
    case PromotedStable =>
    case StartedPrerelease =>
    case StartedNextPatch =>
  }

  /**
   * When an accepted preparation moves main up: exactly when the derived
   * version was adjusted, or release-plz itself derived a later one.
   */
  lemma PreparationAdvancesIff(original: Version, derived: Version, selected: Version)
    requires original.build == derived.build == "" && Prepares(original, derived, selected)
    ensures Precedes(original, selected) <==> derived != selected || Precedes(original, derived)
  {
    if derived != selected {
      AdjustmentsAdvance(original, derived, selected);
    }
  }

  /** An unadjusted preparation can move main down. */
  lemma PreparationCanRegress()
    ensures var original, derived := Version(1, 2, 0, [], ""), Version(1, 1, 0, [], "");
            Prepares(original, derived, derived) && Precedes(derived, original)
  {
  }

  // ----- Runs -----

  ghost predicate Activates(v: Version, w: Version) {
    exists target :: ActivationVersion(v, target) == Ok(w)
  }

  ghost predicate Adjusts(v: Version, w: Version) {
    exists derived: Version ::
      derived.build == "" && derived != w && Prepares(v, derived, w)
  }

  ghost predicate MainRun(run: seq<Version>) {
    && run != [] && run[0].build == ""
    && forall i :: 0 <= i < |run| - 1 ==> Activates(run[i], run[i + 1]) || Adjusts(run[i], run[i + 1])
  }

  /** One step of a run, whichever command made it. */
  lemma MainStep(v: Version, w: Version)
    requires v.build == "" && (Activates(v, w) || Adjusts(v, w))
    ensures Precedes(v, w) && w.build == ""
    ensures v.pre != [] ==> v.SameCore(w)
    ensures v.pre == [] ==> w.pre != []
    ensures Adjusts(v, w) ==> w.pre != Candidate(0)
  {
    if Adjusts(v, w) {
      var derived: Version :| derived.build == "" && derived != w && Prepares(v, derived, w);
      AdjustmentsAdvance(v, derived, w);
    }
    if Activates(v, w) {
      var target :| ActivationVersion(v, target) == Ok(w);
      PrecedenceIsTotalOrder(w, v, v);
    }
  }

  /** What relates neighbours of a run. */
  ghost predicate MainFollows(v: Version, w: Version) {
    && Precedes(v, w)
    && (v.pre != [] ==> v.SameCore(w))
    && (v.pre == [] ==> w.pre != [])
    && (w.pre == Candidate(0) ==> Activates(v, w) && v.pre == [])
  }

  lemma {:induction false} MainRunSteps(run: seq<Version>, i: nat)
    requires MainRun(run) && i < |run|
    ensures run[i].build == ""
    ensures i > 0 ==> MainFollows(run[i - 1], run[i])
  {
    if i > 0 {
      MainRunSteps(run, i - 1);
      MainStep(run[i - 1], run[i]);
    }
  }

  /** Every run of activations and adjusted preparations strictly increases. */
  lemma {:induction false} MainRunsIncrease(run: seq<Version>, i: nat, j: nat)
    requires MainRun(run) && i < j < |run|
    ensures Precedes(run[i], run[j])
    decreases j
  {
    MainRunSteps(run, j);
    if i + 1 < j {
      MainRunsIncrease(run, i, j - 1);
      PrecedenceIsTotalOrder(run[i], run[j - 1], run[j]);
    }
  }

  /** From a prerelease on, a run keeps its core until the stable release of that core. */
  lemma {:induction false} MainRunsKeepCore(run: seq<Version>, i: nat, j: nat)
    requires MainRun(run) && i < j < |run|
    requires forall k :: i <= k < j ==> run[k].pre != []
    ensures run[i].SameCore(run[j])
    decreases j
  {
    MainRunSteps(run, j);
    if i + 1 < j {
      MainRunsKeepCore(run, i, j - 1);
    }
  }
}
