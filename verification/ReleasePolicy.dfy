/** The release line, its canonical branch name, and progression on a support line. */
module ReleasePolicy {
  import opened Decimal
  import opened SemVer
  import opened Wrappers

  datatype ReleaseLine = Main | Support(major: u64, minor: u64)

  // ----- Branch names -----

  const MAIN_REF := "refs/heads/main"
  const SUPPORT_PREFIX := "refs/heads/support/"

  function Component(value: string): Result<u64> {
    if value == "" || |value| > 9 || (|value| > 1 && value[0] == '0') || !AllDigits(value) then Err
    else match ParseU64(value)
      case Some(n) => Ok(n)
      case None => Err
  }

  /** Rust's `split_once('.')`: the texts before and after the first dot. */
  function SplitOnceAtDot(text: string): Option<(string, string)> {
    if text == "" then None
    else if text[0] == '.' then Some(("", text[1..]))
    else match SplitOnceAtDot(text[1..])
      case Some((head, tail)) => Some(([text[0]] + head, tail))
      case None => None
  }

  function FromBaseRef(value: string): Result<ReleaseLine> {
    if value == MAIN_REF then Ok(Main)
    else match StripPrefix(value, SUPPORT_PREFIX)
      case None => Err
      case Some(line) =>
        match SplitOnceAtDot(line)
        case None => Err
        case Some((major, minor)) =>
          match (Component(major), Component(minor))
          case (Ok(m), Ok(n)) => Ok(Support(m, n))
          case _ => Err
  }

  function BaseRef(line: ReleaseLine): string {
    match line
    case Main => MAIN_REF
    case Support(major, minor) => SUPPORT_PREFIX + (Print(major) + "." + Print(minor))
  }

  /** The lines whose branch name can be read back. */
  predicate Nameable(line: ReleaseLine) {
    line.Support? ==> line.major <= 999_999_999 && line.minor <= 999_999_999
  }

  lemma {:induction false} SplitJoined(head: string, tail: string)
    requires '.' !in head
    ensures SplitOnceAtDot(head + "." + tail) == Some((head, tail))
  {
    var text := head + "." + tail;
    if head == "" {
      assert text[1..] == tail;
    } else {
      SplitJoined(head[1..], tail);
      assert text[1..] == head[1..] + "." + tail;
      assert [head[0]] + head[1..] == head;
    }
  }

  lemma {:induction false} SplitParts(text: string)
    ensures match SplitOnceAtDot(text)
      case Some((head, tail)) => text == head + "." + tail && '.' !in head
      case None => true
  {
    if text != "" && text[0] != '.' {
      SplitParts(text[1..]);
    }
  }

  lemma ComponentReads(n: u64)
    ensures Component(Print(n)) == if n <= 999_999_999 then Ok(n) else Err
  {
    ValueOfPrint(n);
    assert Power10(9) == 1_000_000_000;
    if n <= 999_999_999 {
      ShortPrint(n, 9);
    } else if |Print(n)| <= 9 {
      ValueBelowPower(Print(n));
      PowersGrow(|Print(n)|, 9);
    }
  }

  lemma {:induction false} PowersGrow(a: nat, b: nat)
    requires a <= b
    ensures Power10(a) <= Power10(b)
  {
    if a < b { PowersGrow(a, b - 1); }
  }

  lemma ComponentWrites(text: string)
    ensures Component(text).Ok? ==> Print(Component(text).value) == text && Component(text).value <= 999_999_999
  {
    if Component(text).Ok? {
      PrintOfValue(text);
      ValueBelowPower(text);
      PowersGrow(|text|, 9);
      assert Power10(9) == 1_000_000_000;
    }
  }

  /** Writing a line and reading it back succeeds exactly for components up to 999999999. */
  lemma BaseRefReadsBack(line: ReleaseLine)
    ensures FromBaseRef(BaseRef(line)) == if Nameable(line) then Ok(line) else Err
  {
    if line.Support? {
      var m, n := Print(line.major), Print(line.minor);
      assert StripPrefix(BaseRef(line), SUPPORT_PREFIX) == Some(m + "." + n);
      assert BaseRef(line)[11] != MAIN_REF[11];
      assert '.' !in m by { assert forall c :: c in m ==> IsDigit(c); }
      SplitJoined(m, n);
      ComponentReads(line.major);
      ComponentReads(line.minor);
    }
  }

  /** Every accepted branch name is the canonical name of the line it yields. */
  lemma BaseRefIsCanonical(value: string)
    ensures FromBaseRef(value).Ok? ==>
              BaseRef(FromBaseRef(value).value) == value && Nameable(FromBaseRef(value).value)
  {
    if FromBaseRef(value).Ok? && value != MAIN_REF {
      var line := StripPrefix(value, SUPPORT_PREFIX).value;
      SplitParts(line);
      var (major, minor) := SplitOnceAtDot(line).value;
      ComponentWrites(major);
      ComponentWrites(minor);
      assert value == SUPPORT_PREFIX + line;
    }
  }

  // ----- Line membership -----

  predicate MakeLatest(line: ReleaseLine, v: Version) { line == Main && v.pre == [] }

  predicate Admits(line: ReleaseLine, v: Version) {
    line.Support? ==> v.major == line.major && v.minor == line.minor
  }

  function RequireVersion(line: ReleaseLine, v: Version): Result<()> {
    if Admits(line, v) then Ok(()) else Err
  }

  function RequireSuccessor(line: ReleaseLine, v: Version): Result<()> {
    if line.Support? && (v.major > line.major || (v.major == line.major && v.minor > line.minor)) && v.Stable()
    then Ok(()) else Err
  }

  // ----- Advancement on a support line -----

  /**
   * Rust's `max` over versions. Its order also looks at build metadata, which
   * only chooses among versions of equal precedence: patch and prerelease, the
   * parts read from the result, are the same for each of them.
   */
  function Greatest(vs: seq<Version>): (r: Option<Version>)
    ensures r.None? <==> vs == []
    ensures r.Some? ==> r.value in vs && forall v :: v in vs ==> AtMost(v, r.value)
  {
    if vs == [] then None
    else
      match Greatest(vs[1..])
      case None => assert AtMost(vs[0], vs[0]) by { PrecedenceIsTotalOrder(vs[0], vs[0], vs[0]); } Some(vs[0])
      case Some(best) =>
        var pick := if AtMost(best, vs[0]) then vs[0] else best;
        assert forall v :: v in vs ==> AtMost(v, pick) by {
          forall v | v in vs ensures AtMost(v, pick) {
            PrecedenceIsTotalOrder(v, best, vs[0]);
            PrecedenceIsTotalOrder(vs[0], best, vs[0]);
            PrecedenceIsTotalOrder(vs[0], vs[0], vs[0]);
          }
        }
        Some(pick)
  }

  function Ordinal(v: Version): Result<u64> {
    match StripPrefix(PreText(v.pre), "rc.")
    case None => Err
    case Some(value) =>
      match ParseU64(value)
      case None => Err
      case Some(n) => if n == 0 || Print(n) != value then Err else Ok(n)
  }

  /** The text tests accept exactly the prereleases `rc.N` with N from 1 to the u64 maximum. */
  lemma OrdinalIsExact(v: Version, n: nat)
    ensures Ordinal(v) == Ok(n) <==> v.pre == Candidate(n) && 0 < n <= U64_MAX
  {
    ValueOfPrint(n);
    if Ordinal(v) == Ok(n) {
      var value := StripPrefix(PreText(v.pre), "rc.").value;
      assert PreText(v.pre) == "rc." + value;
      CandidatePrefix(v.pre, value);
      DigitsAreNumeric(v.pre[1..], n);
      assert v.pre == [v.pre[0]] + v.pre[1..];
    } else if v.pre == Candidate(n) {
      assert PreText(v.pre[1..]) == Print(n);
      assert PreText(v.pre) == "rc" + "." + Print(n) == "rc." + Print(n);
      assert Print(n)[0] != '+' by { assert IsDigit(Print(n)[0]); }
    }
  }

  function Stables(line: ReleaseLine, published: seq<Version>): seq<Version> {
    Filter(v => Admits(line, v) && v.Stable(), published)
  }

  function AtPatch(line: ReleaseLine, patch: u64, published: seq<Version>): seq<Version> {
    Filter(v => Admits(line, v) && v.patch == patch, published)
  }

  function CheckedAdd1(n: u64): Option<u64> { if n == U64_MAX then None else Some(n + 1) }

  function RequireAdvancement(line: ReleaseLine, selected: Version, published: seq<Version>): Result<()> {
    if RequireVersion(line, selected).Err? then Err
    else if line == Main then Ok(())
    else if selected.build != "" then Err
    else match Greatest(Stables(line, published))
      case None => Err
      case Some(stable) =>
        if CheckedAdd1(stable.patch) != Some(selected.patch) then Err
        else if selected in published then Err
        else if selected.pre == [] then Ok(())
        else match Ordinal(selected)
          case Err => Err
          case Ok(next) =>
            match Greatest(AtPatch(line, selected.patch, published))
            case None => Ok(())
            case Some(last) =>
              match Ordinal(last)
              case Err => Err
              case Ok(ordinal) => if CheckedAdd1(ordinal) == Some(next) then Ok(()) else Err
  }

  predicate Advances(line: ReleaseLine, selected: Version, published: seq<Version>) {
    RequireAdvancement(line, selected, published).Ok?
  }
}
