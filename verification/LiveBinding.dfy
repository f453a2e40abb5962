/** A binding checked against live branch refs, which move between any two reads. */
module LiveBinding {
  import opened CommitGraph
  import opened Provenance
  import opened ReleasePolicy
  import opened Wrappers

  /** The two branch tips at one instant; a main-line release is based on main itself. */
  datatype Tips = Tips(main: nat, support: nat)
  {
    function Of(line: ReleaseLine): nat { if line == Main then main else support }
  }

  /** What the environment does before one request: branch updates, and whether the request fails. */
  datatype Turn = Turn(updates: seq<Tips>, fails: bool)

  predicate FastForward(g: Graph, before: Tips, after: Tips) {
    Ancestor(g, before.main, after.main) && Ancestor(g, before.support, after.support)
  }

  /** Every instant of the repository so far, each reached from the one before by fast-forwards. */
  ghost predicate Timeline(g: Graph, history: seq<Tips>) {
    history != [] && forall i :: 0 <= i < |history| - 1 ==> FastForward(g, history[i], history[i + 1])
  }

  lemma {:induction false} TimelineOrder(g: Graph, history: seq<Tips>, i: nat, j: nat)
    requires Timeline(g, history) && i < j < |history|
    ensures FastForward(g, history[i], history[j])
    decreases j
  {
    if i + 1 < j {
      TimelineOrder(g, history, i, j - 1);
      AncestorTransitive(g, history[i].main, history[j - 1].main, history[j].main);
      AncestorTransitive(g, history[i].support, history[j - 1].support, history[j].support);
    }
  }

  /** A branch seen with one value at two instants had that value throughout. */
  lemma Pinned(g: Graph, history: seq<Tips>, line: ReleaseLine, i: nat, j: nat)
    requires Timeline(g, history) && i <= j < |history|
    requires history[i].Of(line) == history[j].Of(line)
    ensures forall k :: i <= k <= j ==> history[k].Of(line) == history[i].Of(line)
  {
    forall k | i < k < j ensures history[k].Of(line) == history[i].Of(line) {
      TimelineOrder(g, history, i, k);
      TimelineOrder(g, history, k, j);
      AncestorAntisymmetric(g, history[i].Of(line), history[k].Of(line));
    }
  }

  /** A reply the job got, and the instant it was given at. */
  datatype Request = Read(line: ReleaseLine) | Compared(base: nat, head: nat)
  datatype Asked = Asked(request: Request, instant: nat)

  /** The live repository as the verifying job sees it. */
  class Repository {
    const graph: Graph
    const api: set<nat> -> nat
    var tips: Tips
    var script: seq<Turn>
    ghost var history: seq<Tips>
    ghost var asked: seq<Asked>

    constructor (graph: Graph, api: set<nat> -> nat, tips: Tips, script: seq<Turn>)
      ensures this.graph == graph && this.api == api && this.tips == tips && this.script == script
      ensures Valid() && history == [tips] && asked == []
    {
      this.graph, this.api, this.tips, this.script := graph, api, tips, script;
      this.history, this.asked := [tips], [];
    }

    ghost predicate Valid()
      reads this
    {
      history != [] && Timeline(graph, history) && history[|history| - 1] == tips
    }

    /** The environment takes its turn; updates that are not fast-forwards are refused by the server. */
    method TakeTurn() returns (fails: bool)
      requires Valid()
      modifies `tips, `script, `history
      ensures Valid() && old(history) <= history
      ensures old(script) == [] ==> !fails && script == [] && history == old(history) && tips == old(tips)
    {
      if script == [] {
        return false;
      }
      var turn := script[0];
      script := script[1..];
      for i := 0 to |turn.updates|
        invariant Valid() && old(history) <= history
      {
        if FastForward(graph, tips, turn.updates[i]) {
          tips := turn.updates[i];
          history := history + [tips];
        }
      }
      return turn.fails;
    }

    method ReadRef(line: ReleaseLine) returns (tip: Result<nat>)
      requires Valid()
      modifies this
      ensures Valid() && old(history) <= history
      ensures tip.Ok? ==> tip.value == tips.Of(line)
      ensures asked == old(asked) + [Asked(Read(line), |history| - 1)]
      ensures old(script) == [] ==> tip.Ok? && script == [] && history == old(history) && tips == old(tips)
    {
      var fails := TakeTurn();
      asked := asked + [Asked(Read(line), |history| - 1)];
      tip := if fails then Err else Ok(tips.Of(line));
    }

    method CompareCommits(base: nat, head: nat) returns (comparison: Result<Comparison>)
      requires Valid()
      modifies this
      ensures Valid() && old(history) <= history
      ensures comparison.Ok? ==> comparison == Compare(graph, api, base, head)
      ensures asked == old(asked) + [Asked(Compared(base, head), |history| - 1)]
      ensures old(script) == [] ==>
                && comparison == Compare(graph, api, base, head)
                && script == [] && history == old(history) && tips == old(tips)
    {
      var fails := TakeTurn();
      asked := asked + [Asked(Compared(base, head), |history| - 1)];
      comparison := if fails then Err else Compare(graph, api, base, head);
    }
  }

  /** Throughout the instants `first` to `last`, main was the policy commit and the base tip was `base`. */
  ghost predicate Held(history: seq<Tips>, first: nat, last: nat, b: Binding, base: nat) {
    && first <= last < |history|
    && forall t :: first <= t <= last ==> history[t].main == b.main && history[t].Of(b.line) == base
  }

  /** Two equal readings of the base, with main at the policy commit before and after them. */
  lemma HeldBetween(g: Graph, history: seq<Tips>, b: Binding, base: nat, start: nat, first: nat, last: nat)
    requires Timeline(g, history) && start <= first <= last < |history|
    requires history[start].main == b.main == history[|history| - 1].main
    requires history[first].Of(b.line) == base == history[last].Of(b.line)
    ensures Held(history, first, last, b, base)
  {
    Pinned(g, history, b.line, first, last);
    Pinned(g, history, Main, start, |history| - 1);
  }

  /** The requests of a complete check, in order: both readings of the base enclose every comparison. */
  function Wanted(b: Binding, base: nat): seq<Request> {
    WantedFirst(b, base) + [Read(b.line)] + [Read(Main)]
  }

  /** The comparisons and the first reading, before the two last readings. */
  function WantedFirst(b: Binding, base: nat): seq<Request> {
    [Read(b.line), Compared(b.source, base)]
    + (if b.anchor.Some? then [Compared(b.source, b.main), Compared(base, b.main)] else [])
  }

  /** These requests were made, at instants from `since` on that never go back. */
  ghost predicate Transcript(asked: seq<Asked>, wanted: seq<Request>, since: int) {
    && |asked| == |wanted|
    && (forall i :: 0 <= i < |asked| ==> asked[i].request == wanted[i] && since <= asked[i].instant)
    && (forall i, j :: 0 <= i < j < |asked| ==> asked[i].instant <= asked[j].instant)
  }

  lemma TranscriptGrows(asked: seq<Asked>, wanted: seq<Request>, since: int, event: Asked)
    requires Transcript(asked, wanted, since) && since <= event.instant
    requires asked != [] ==> asked[|asked| - 1].instant <= event.instant
    ensures Transcript(asked + [event], wanted + [event.request], since)
  {
  }

  lemma TranscriptJoins(a: seq<Asked>, x: seq<Request>, since: int, b: seq<Asked>, y: seq<Request>, later: int)
    requires Transcript(a, x, since) && Transcript(b, y, later) && since <= later
    requires a != [] ==> a[|a| - 1].instant <= later
    ensures Transcript(a + b, x + y, since)
  {
  }

  function AnchorRequests(b: Binding, base: nat): seq<Request> {
    [Compared(b.source, b.main), Compared(base, b.main)]
  }

  /** The comparisons of a support binding with main; `done` is what was asked. */
  method RequireAnchor(live: Repository, b: Binding, base: nat) returns (anchored: bool, ghost done: seq<Asked>)
    requires live.Valid() && b.anchor.Some?
    modifies live
    ensures live.Valid() && old(live.history) <= live.history
    ensures live.asked == old(live.asked) + done
    ensures anchored ==>
              && Anchored(Compare(live.graph, live.api, b.source, b.main), b.source, b.anchor.value)
              && Anchored(Compare(live.graph, live.api, base, b.main), base, b.anchor.value)
    ensures anchored ==>
              && Transcript(done, AnchorRequests(b, base), |old(live.history)| - 1)
              && done != [] && done[0].instant <= done[|done| - 1].instant < |live.history|
    ensures old(live.script) == [] ==>
              && live.script == [] && live.history == old(live.history) && live.tips == old(live.tips)
              && (anchored <==> && Anchored(Compare(live.graph, live.api, b.source, b.main), b.source, b.anchor.value)
                                && Anchored(Compare(live.graph, live.api, base, b.main), base, b.anchor.value))
  {
    hide Timeline, Compare;
    var comparison := live.CompareCommits(b.source, b.main);
    done := [Asked(Compared(b.source, b.main), |live.history| - 1)];
    if !Anchored(comparison, b.source, b.anchor.value) {
      return false, done;
    }
    comparison := live.CompareCommits(base, b.main);
    done := done + [Asked(Compared(base, b.main), |live.history| - 1)];
    anchored := Anchored(comparison, base, b.anchor.value);
  }

  /** The part of the check that looks at base and source alone. */
  predicate OnBase(g: Graph, api: set<nat> -> nat, b: Binding, base: nat) {
    (b.operation == Fresh ==> base == b.source) && OnLineage(Compare(g, api, b.source, base), b.source)
  }

  /** The first reading of the base and its comparison with the source. */
  method CheckLineage(live: Repository, b: Binding) returns (tip: Result<nat>, ghost done: seq<Asked>)
    requires live.Valid()
    modifies live
    ensures live.Valid() && old(live.history) <= live.history
    ensures live.asked == old(live.asked) + done
    ensures tip.Ok? ==>
              && OnBase(live.graph, live.api, b, tip.value)
              && Transcript(done, [Read(b.line), Compared(b.source, tip.value)], |old(live.history)| - 1)
              && done != [] && done[0].instant <= done[|done| - 1].instant < |live.history|
              && live.history[done[0].instant].Of(b.line) == tip.value
    ensures old(live.script) == [] ==>
              && live.script == [] && live.history == old(live.history) && live.tips == old(live.tips)
              && (tip.Ok? <==> OnBase(live.graph, live.api, b, live.tips.Of(b.line)))
              && (tip.Ok? ==> tip.value == live.tips.Of(b.line))
  {
    hide Timeline, Compare;
    tip := live.ReadRef(b.line);
    done := [Asked(Read(b.line), |live.history| - 1)];
    if tip.Err? {
      return;
    }
    if b.operation == Fresh && tip.value != b.source {
      return Err, done;
    }
    var comparison := live.CompareCommits(b.source, tip.value);
    done := done + [Asked(Compared(b.source, tip.value), |live.history| - 1)];
    if !OnLineage(comparison, b.source) {
      return Err, done;
    }
  }

  /** The first reading of the base and all comparisons; `done` is what was asked. */
  method CheckTip(live: Repository, b: Binding) returns (tip: Result<nat>, ghost done: seq<Asked>)
    requires live.Valid()
    modifies live
    ensures live.Valid() && old(live.history) <= live.history
    ensures live.asked == old(live.asked) + done
    ensures tip.Ok? ==>
              && VerifyApi(live.graph, live.api, b, tip.value)
              && done != [] && Transcript(done, WantedFirst(b, tip.value), |old(live.history)| - 1)
              && done[0].instant <= done[|done| - 1].instant < |live.history|
              && live.history[done[0].instant].Of(b.line) == tip.value
    ensures old(live.script) == [] ==>
              && live.script == [] && live.history == old(live.history) && live.tips == old(live.tips)
              && (tip.Ok? <==> VerifyApi(live.graph, live.api, b, live.tips.Of(b.line)))
              && (tip.Ok? ==> tip.value == live.tips.Of(b.line))
  {
    hide Timeline, Compare, OnLineage, Anchored, Transcript;
    ghost var since := |live.history| - 1;
    tip, done := CheckLineage(live, b);
    if tip.Err? || b.anchor.None? {
      assert tip.Ok? ==> WantedFirst(b, tip.value) == [Read(b.line), Compared(b.source, tip.value)];
      return;
    }
    ghost var later, more, before := |live.history| - 1, [], live.history;
    var anchored;
    anchored, more := RequireAnchor(live, b, tip.value);
    if !anchored {
      return Err, done + more;
    }
    ghost var asked := [Read(b.line), Compared(b.source, tip.value)];
    TranscriptJoins(done, asked, since, more, AnchorRequests(b, tip.value), later);
    assert WantedFirst(b, tip.value) == asked + AnchorRequests(b, tip.value);
    assert (done + more)[0] == done[0] && (done + more)[|done + more| - 1] == more[|more| - 1];
    done := done + more;
  }

  /** The whole transcript, and the stretch between the two readings of the base. */
  ghost predicate Snapshot(live: Repository, b: Binding, base: nat, asks: nat, instants: nat)
    reads live
  {
    && asks <= |live.asked|
    && var asked := live.asked[asks..];
    && Transcript(asked, Wanted(b, base), instants - 1)
    && Held(live.history, asked[0].instant, asked[|asked| - 2].instant, b, base)
    && VerifyApi(live.graph, live.api, b, base)
  }

  /**
   * `Binding::verify`. Given that main was the policy commit at some instant
   * before the call, success means that one whole stretch of instants during
   * the call had main at the policy commit and the base tip at a value that
   * passes the check, although every read happened at a different time. The
   * stretch reaches from the first reading of the base to the second, past
   * every comparison.
   */
  method Verify(live: Repository, b: Binding, ghost start: nat) returns (result: Result<()>)
    requires live.Valid() && start < |live.history| && live.history[start].main == b.main
    modifies live
    ensures live.Valid() && old(live.history) <= live.history && old(live.asked) <= live.asked
    ensures result.Ok? ==> exists base: nat ::
              Snapshot(live, b, base, |old(live.asked)|, |old(live.history)|)
    ensures old(live.script) == [] ==>
              (result.Ok? <==> old(live.tips).main == b.main
                               && VerifyApi(live.graph, live.api, b, old(live.tips).Of(b.line)))
  {
    hide VerifyApi, Held, Wanted, WantedFirst, Timeline;
    var tip, done := CheckTip(live, b);
    if tip.Err? {
      return Err;
    }
    ghost var since, before := |old(live.history)| - 1, live.history;
    var read := live.ReadRef(b.line);
    if read != tip {
      return Err;
    }
    ghost var again := Asked(Read(b.line), |live.history| - 1);
    read := live.ReadRef(Main);
    if read != Ok(b.main) {
      return Err;
    }
    ghost var end := Asked(Read(Main), |live.history| - 1);
    HeldBetween(live.graph, live.history, b, tip.value, start, done[0].instant, again.instant);
    Enclosed(b, tip.value, done, since, again, end);
    assert live.asked[|old(live.asked)|..] == done + [again] + [end];
    assert Snapshot(live, b, tip.value, |old(live.asked)|, |old(live.history)|);
    result := Ok(());
  }

  lemma Enclosed(b: Binding, base: nat, done: seq<Asked>, since: int, again: Asked, end: Asked)
    requires done != [] && Transcript(done, WantedFirst(b, base), since)
    requires done[|done| - 1].instant <= again.instant <= end.instant
    requires again.request == Read(b.line) && end.request == Read(Main)
    ensures var asked := done + [again] + [end];
            && Transcript(asked, Wanted(b, base), since)
            && asked[0] == done[0] && asked[|asked| - 2] == again
  {
    TranscriptGrows(done, WantedFirst(b, base), since, again);
    TranscriptGrows(done + [again], WantedFirst(b, base) + [again.request], since, end);
  }
}
