/**
 * Versions and their precedence, section 11 of Semantic Versioning 2.0.0.
 * The text grammar is that of section 9: a numeric identifier has no leading
 * zero, and any other identifier holds at least one non-digit.
 */
module SemVer {
  import opened Decimal
  import opened Wrappers

  datatype RawIdent = Numeric(n: nat) | Alpha(text: string)

  predicate IsIdentChar(c: char) {
    IsDigit(c) || 'a' <= c <= 'z' || 'A' <= c <= 'Z' || c == '-'
  }

  predicate IsIdent(i: RawIdent) {
    i.Alpha? ==> !AllDigits(i.text) && forall k :: 0 <= k < |i.text| ==> IsIdentChar(i.text[k])
  }

  type Ident = i: RawIdent | IsIdent(i) witness Numeric(0)

  datatype Version = Version(major: u64, minor: u64, patch: u64, pre: seq<Ident>, build: string)
  {
    predicate Stable() { pre == [] && build == "" }

    predicate SameCore(other: Version) {
      major == other.major && minor == other.minor && patch == other.patch
    }
  }

  datatype Order = Less | Equal | Greater

  function Flip(o: Order): Order {
    match o
    case Less => Greater
    case Equal => Equal
    case Greater => Less
  }

  function CompareNat(a: nat, b: nat): Order {
    if a < b then Less else if a == b then Equal else Greater
  }

  function Then(first: Order, second: Order): Order {
    if first == Equal then second else first
  }

  function CompareText(a: string, b: string): Order {
    if a == "" || b == "" then CompareNat(|a|, |b|)
    else Then(CompareNat(a[0] as nat, b[0] as nat), CompareText(a[1..], b[1..]))
  }

  function CompareIdent(a: Ident, b: Ident): Order {
    match (a, b)
    case (Numeric(m), Numeric(n)) => CompareNat(m, n)
    case (Numeric(_), Alpha(_)) => Less
    case (Alpha(_), Numeric(_)) => Greater
    case (Alpha(s), Alpha(t)) => CompareText(s, t)
  }

  function CompareIdents(a: seq<Ident>, b: seq<Ident>): Order {
    if a == [] || b == [] then CompareNat(|a|, |b|)
    else Then(CompareIdent(a[0], b[0]), CompareIdents(a[1..], b[1..]))
  }

  /** A version without a prerelease follows every prerelease of its core. */
  function ComparePre(a: seq<Ident>, b: seq<Ident>): Order {
    if a == [] || b == [] then CompareNat(|b|, |a|) else CompareIdents(a, b)
  }

  function Compare(v: Version, w: Version): Order {
    Then(CompareNat(v.major, w.major),
         Then(CompareNat(v.minor, w.minor),
              Then(CompareNat(v.patch, w.patch), ComparePre(v.pre, w.pre))))
  }

  predicate Precedes(v: Version, w: Version) { Compare(v, w) == Less }

  predicate AtMost(v: Version, w: Version) { Compare(v, w) != Greater }

  // ----- Precedence is a total order on versions without their build metadata -----

  lemma {:induction false} TextOrder(a: string, b: string, c: string)
    ensures CompareText(b, a) == Flip(CompareText(a, b))
    ensures CompareText(a, b) == Equal <==> a == b
    ensures CompareText(a, b) == CompareText(b, c) == Less ==> CompareText(a, c) == Less
    decreases |a| + |b| + |c|
  {
    if a != "" && b != "" {
      TextOrder(a[1..], b[1..], if c == "" then "" else c[1..]);
      assert a == b <==> a[0] == b[0] && a[1..] == b[1..];
    } else if b != "" && c != "" {
      TextOrder(b[1..], c[1..], "");
    }
  }

  lemma {:induction false} IdentsOrder(a: seq<Ident>, b: seq<Ident>, c: seq<Ident>)
    ensures CompareIdents(b, a) == Flip(CompareIdents(a, b))
    ensures CompareIdents(a, b) == Equal <==> a == b
    ensures CompareIdents(a, b) == CompareIdents(b, c) == Less ==> CompareIdents(a, c) == Less
    decreases |a| + |b| + |c|
  {
    if a != [] && b != [] {
      IdentsOrder(a[1..], b[1..], if c == [] then [] else c[1..]);
      IdentOrder(a[0], b[0], if c == [] then a[0] else c[0]);
      assert a == b <==> a[0] == b[0] && a[1..] == b[1..];
      if c != [] {
        IdentOrder(b[0], c[0], a[0]);
      }
    }
  }

  lemma IdentOrder(a: Ident, b: Ident, c: Ident)
    ensures CompareIdent(b, a) == Flip(CompareIdent(a, b))
    ensures CompareIdent(a, b) == Equal <==> a == b
    ensures CompareIdent(a, b) == CompareIdent(b, c) == Less ==> CompareIdent(a, c) == Less
  {
    if a.Alpha? && b.Alpha? {
      TextOrder(a.text, b.text, if c.Alpha? then c.text else "");
    }
  }

  /** Precedence is antisymmetric, transitive and total, and ignores build metadata only. */
  lemma PrecedenceIsTotalOrder(u: Version, v: Version, w: Version)
    ensures Compare(v, u) == Flip(Compare(u, v))
    ensures Compare(u, v) == Equal <==> u.(build := "") == v.(build := "")
    ensures Precedes(u, v) && Precedes(v, w) ==> Precedes(u, w)
    ensures AtMost(u, v) && AtMost(v, w) ==> AtMost(u, w)
    ensures AtMost(u, v) && Precedes(v, w) ==> Precedes(u, w)
    ensures Precedes(u, v) && AtMost(v, w) ==> Precedes(u, w)
  {
    IdentsOrder(u.pre, v.pre, w.pre);
    IdentsOrder(v.pre, w.pre, u.pre);
  }

  lemma PrecedenceDichotomy(u: Version, v: Version)
    ensures Precedes(u, v) <==> !AtMost(v, u)
    ensures Precedes(u, v) ==> AtMost(u, v)
    ensures AtMost(u, u)
  {
    PrecedenceIsTotalOrder(u, v, u);
    PrecedenceIsTotalOrder(u, u, u);
  }

  // ----- The rules of section 11 -----

  /** `a` and `b` agree before `k`, and there `a` ends or has the smaller character. */
  predicate TextBreaksAt(a: string, b: string, k: nat) {
    && k <= |a| && k < |b| && a[..k] == b[..k]
    && (k == |a| || a[k] < b[k])
  }

  /** Character by character, a proper prefix first. */
  ghost predicate TextPrecedes(a: string, b: string) { exists k: nat :: TextBreaksAt(a, b, k) }

  lemma {:induction false} TextRule(a: string, b: string)
    ensures CompareText(a, b) == Less <==> TextPrecedes(a, b)
  {
    if a == "" || b == "" {
      assert b != "" ==> TextBreaksAt(a, b, 0);
    } else if a[0] != b[0] {
      assert a[0] < b[0] ==> TextBreaksAt(a, b, 0);
      assert forall k: nat :: 0 < k <= |a| && k < |b| ==> a[..k][0] != b[..k][0];
    } else {
      TextRule(a[1..], b[1..]);
      if k: nat :| TextBreaksAt(a[1..], b[1..], k) {
        assert a[..k + 1] == [a[0]] + a[1..][..k] && b[..k + 1] == [b[0]] + b[1..][..k];
        assert TextBreaksAt(a, b, k + 1);
      }
      if k: nat :| TextBreaksAt(a, b, k) {
        assert k > 0;
        assert a[1..][..k - 1] == a[..k][1..] && b[1..][..k - 1] == b[..k][1..];
        assert TextBreaksAt(a[1..], b[1..], k - 1);
      }
    }
  }

  /** Numeric identifiers by value, and below the others, which go by their characters. */
  ghost predicate IdentPrecedes(a: Ident, b: Ident) {
    match (a, b)
    case (Numeric(m), Numeric(n)) => m < n
    case (Numeric(_), Alpha(_)) => true
    case (Alpha(_), Numeric(_)) => false
    case (Alpha(s), Alpha(t)) => TextPrecedes(s, t)
  }

  ghost predicate IdentsBreakAt(a: seq<Ident>, b: seq<Ident>, k: nat) {
    && k <= |a| && k < |b| && a[..k] == b[..k]
    && (k == |a| || IdentPrecedes(a[k], b[k]))
  }

  /** The first difference decides, and a proper prefix comes before its extensions. */
  ghost predicate IdentsPrecede(a: seq<Ident>, b: seq<Ident>) { exists k: nat :: IdentsBreakAt(a, b, k) }

  lemma IdentRule(a: Ident, b: Ident)
    ensures CompareIdent(a, b) == Less <==> IdentPrecedes(a, b)
    ensures CompareIdent(a, b) == Equal <==> a == b
  {
    IdentOrder(a, b, a);
    if a.Alpha? && b.Alpha? {
      TextRule(a.text, b.text);
    }
  }

  lemma {:induction false} IdentsRule(a: seq<Ident>, b: seq<Ident>)
    ensures CompareIdents(a, b) == Less <==> IdentsPrecede(a, b)
  {
    if a == [] || b == [] {
      assert b != [] ==> IdentsBreakAt(a, b, 0);
    } else {
      IdentRule(a[0], b[0]);
      hide CompareIdent, IdentPrecedes;
      if a[0] != b[0] {
        assert IdentPrecedes(a[0], b[0]) ==> IdentsBreakAt(a, b, 0);
        assert forall k: nat :: 0 < k <= |a| && k < |b| ==> a[..k][0] != b[..k][0];
      } else {
        IdentsRule(a[1..], b[1..]);
        if k: nat :| IdentsBreakAt(a[1..], b[1..], k) {
          assert a[..k + 1] == [a[0]] + a[1..][..k] && b[..k + 1] == [b[0]] + b[1..][..k];
          assert IdentsBreakAt(a, b, k + 1);
        }
        if IdentsPrecede(a, b) {
          IdentsBreakLater(a, b);
        }
      }
    }
  }

  lemma IdentsBreakLater(a: seq<Ident>, b: seq<Ident>)
    requires a != [] && b != [] && a[0] == b[0] && IdentsPrecede(a, b)
    ensures IdentsPrecede(a[1..], b[1..])
  {
    var k: nat :| IdentsBreakAt(a, b, k);
    IdentRule(a[0], b[0]);
    assert k > 0;
    assert a[1..][..k - 1] == a[..k][1..] && b[1..][..k - 1] == b[..k][1..];
    assert IdentsBreakAt(a[1..], b[1..], k - 1);
  }

  /**
   * Precedence is that of section 11: major, minor and patch by value, then a
   * prerelease below its stable, then identifier by identifier.
   */
  lemma PrecedenceRule(v: Version, w: Version)
    ensures Precedes(v, w) <==>
              || v.major < w.major
              || (v.major == w.major && v.minor < w.minor)
              || (v.major == w.major && v.minor == w.minor && v.patch < w.patch)
              || (v.SameCore(w) && v.pre != [] && (w.pre == [] || IdentsPrecede(v.pre, w.pre)))
  {
    IdentsRule(v.pre, w.pre);
    hide CompareIdents, IdentsPrecede;
  }

  // ----- Prerelease text -----

  function IdentText(i: Ident): string {
    if i.Numeric? then Print(i.n) else i.text
  }

  function PreText(pre: seq<Ident>): string {
    if pre == [] then ""
    else if |pre| == 1 then IdentText(pre[0])
    else IdentText(pre[0]) + "." + PreText(pre[1..])
  }

  function StripPrefix(text: string, prefix: string): Option<string> {
    if prefix <= text then Some(text[|prefix|..]) else None
  }

  const RC: Ident := assert !IsDigit("rc"[0]); Alpha("rc")

  function Candidate(n: nat): seq<Ident> { [RC, Numeric(n)] }

  /** Candidates are ordered by their ordinal. */
  lemma CandidateOrder(m: nat, n: nat)
    ensures ComparePre(Candidate(m), Candidate(n)) == CompareNat(m, n)
  {
    assert Candidate(m)[1..] == [Numeric(m)] && Candidate(n)[1..] == [Numeric(n)];
    IdentOrder(RC, RC, RC);
    assert CompareIdents([Numeric(m)], [Numeric(n)])
        == Then(CompareNat(m, n), CompareIdents([Numeric(m)][1..], [Numeric(n)][1..]));
  }

  /** Identifiers never contain the separator. */
  lemma IdentHasNoDot(i: Ident)
    ensures IdentText(i) != "" && '.' !in IdentText(i)
  {
    if i.Alpha? {
      assert i.text != "" by { assert AllDigits(""); }
    }
  }

  /** The first separator splits a text in one way only. */
  lemma SplitOnce(h: string, r: string, h': string, r': string)
    requires '.' !in h && '.' !in h'
    requires h + "." + r == h' + "." + r'
    ensures h == h' && r == r'
  {
    var t := h + "." + r;
    assert t[|h|] == '.' && t[|h'|] == '.';
    assert forall k :: 0 <= k < |h| ==> t[k] == h[k];
    assert forall k :: 0 <= k < |h'| ==> t[k] == h'[k];
    assert h == t[..|h|] && h' == t[..|h'|];
    assert r == t[|h| + 1..] && r' == t[|h'| + 1..];
  }

  /** Text that starts "rc." comes from the identifier `rc` and at least one more. */
  lemma CandidatePrefix(pre: seq<Ident>, rest: string)
    requires PreText(pre) == "rc." + rest
    ensures |pre| >= 2 && pre[0] == RC && PreText(pre[1..]) == rest
  {
    IdentHasNoDot(pre[0]);
    assert PreText(pre)[2] == '.';
    var head: string, tail := IdentText(pre[0]), PreText(pre[1..]);
    assert PreText(pre) == head + "." + tail;
    assert "rc." + rest == "rc" + "." + rest;
    SplitOnce("rc", rest, head, tail);
    assert !AllDigits(head) by { assert !IsDigit(head[0]); }
  }

  lemma SeparatorShows(pre: seq<Ident>)
    ensures |pre| > 1 ==> '.' in PreText(pre)
  {
    if |pre| > 1 {
      assert PreText(pre)[|IdentText(pre[0])|] == '.';
    }
  }

  /** Digits-only prerelease text is one numeric identifier. */
  lemma DigitsAreNumeric(pre: seq<Ident>, n: nat)
    requires PreText(pre) == Print(n)
    ensures pre == [Numeric(n)]
  {
    IdentHasNoDot(pre[0]);
    assert forall c :: c in Print(n) ==> IsDigit(c);
    SeparatorShows(pre);
    ValueOfPrint(n);
    if pre[0].Numeric? { ValueOfPrint(pre[0].n); }
  }
}
