/**
 * Authority before effect: what a finalizer has just observed whenever it
 * creates a tag object, a tag ref or a Release, read off the log of its calls.
 */
module FinalizerAuthority {
  import opened Finalizer
  import opened Provenance
  import opened ReleasePolicy
  import opened SemVer
  import opened Wrappers

  predicate EndsWith(log: seq<Event>, tail: seq<Event>) {
    |tail| <= |log| && log[|log| - |tail|..] == tail
  }

  lemma Extend(log: seq<Event>, tail: seq<Event>, event: Event)
    requires EndsWith(log, tail)
    ensures EndsWith(log + [event], tail + [event])
  {
    assert (log + [event])[|log| - |tail|..] == log[|log| - |tail|..] + [event];
  }

  // ----- The calls of one successful rebind -----

  function BaseSeen(job: Job, base: nat): seq<Event> {
    [Called(job, ReadBase(job.binding.line), Tip(base))]
  }

  function LineageSeen(w: World, job: Job, base: nat): seq<Event> {
    var call := CompareCommits(job.binding.source, base);
    BaseSeen(job, base) + [Called(job, call, Answer(w, NO_SERVER, call))]
  }

  function SourceSeen(w: World, job: Job, base: nat): seq<Event> {
    var call := CompareCommits(job.binding.source, job.binding.main);
    LineageSeen(w, job, base) + [Called(job, call, Answer(w, NO_SERVER, call))]
  }

  function AnchorSeen(w: World, job: Job, base: nat): seq<Event> {
    var call := CompareCommits(base, job.binding.main);
    if job.binding.anchor.None? then LineageSeen(w, job, base)
    else SourceSeen(w, job, base) + [Called(job, call, Answer(w, NO_SERVER, call))]
  }

  function BaseSeenAgain(w: World, job: Job, base: nat): seq<Event> {
    AnchorSeen(w, job, base) + [Called(job, ReadBase(job.binding.line), Tip(base))]
  }

  /** A complete rebind; its last read sees main at the policy commit. */
  function RebindSeen(w: World, job: Job, base: nat): seq<Event> {
    BaseSeenAgain(w, job, base) + [Called(job, ReadMain, Tip(job.binding.main))]
  }

  /** Comparisons are about immutable commits, so any server answers them alike. */
  const NO_SERVER := Server(map[], map[], {}, [], map[], map[], None, 0)

  function LatestReply(latest: Option<Latest>): Reply {
    match latest
    case None => Missing
    case Some(l) => LatestAt(l)
  }

  /** Before a Release is created: Latest was captured and no Release of the version was found. */
  function Prelude(job: Job, k: After): seq<Event> {
    match k
    case BeforeRelease(_, guard) =>
      [Called(job, ReadLatest, LatestReply(guard.before)), Called(job, ReadRelease(job.version), Missing)]
    case _ => []
  }

  function ExactRefSeen(job: Job, tag: nat): seq<Event> {
    [Called(job, ReadTagRef(job.version), RefAt(Reference(TagKind, tag)))]
  }

  function ExactTagSeen(w: World, job: Job, tag: nat): seq<Event> {
    ExactRefSeen(job, tag)
    + [Called(job, ReadTagObject(tag), ObjectAt(tag, TagOf(w, job.version, job.binding.source)))]
  }

  function SameLatestSeen(w: World, job: Job, tag: nat, guard: Guard): seq<Event> {
    ExactTagSeen(w, job, tag) + [Called(job, ReadLatest, LatestReply(guard.before))]
  }

  /** A valid rebind has just been completed, possibly followed by `more`. */
  ghost predicate JustRebound(w: World, log: seq<Event>, job: Job, k: After, more: seq<Event>) {
    exists base ::
      VerifyApi(w.graph, w.api, job.binding, base)
      && EndsWith(log, Prelude(job, k) + RebindSeen(w, job, base) + more)
  }

  /** What every creation requires of the calls immediately before it. */
  ghost predicate Authorized(w: World, log: seq<Event>, job: Job, call: Call) {
    match call
    case CreateTagObject(made) =>
      JustRebound(w, log, job, BeforeObject, []) && made == TagOf(w, job.version, job.binding.source)
    case CreateTagRef(v, id) => JustRebound(w, log, job, BeforeRef(id), []) && v == job.version
    case CreateRelease(made, makeLatest) =>
      && made == ReleaseOf(w, job.version, job.binding.source, 0, false)
      && exists tag: nat, guard: Guard ::
           && guard.advance == makeLatest
           && (makeLatest <==> job.binding.line == Main && job.version.pre == []
                               && (guard.before.Some? ==> guard.before.value.tag.Family?
                                                          && Precedes(guard.before.value.tag.version, job.version)))
           && Capture(job.binding.line, job.version, guard.before) == Ok(guard)
           && JustRebound(w, log, job, BeforeRelease(tag, guard), SameLatestSeen(w, job, tag, guard))
    case _ => true
  }

  // ----- The log a running client has behind it -----

  predicate FreshHolds(job: Job, base: nat) { job.binding.operation == Fresh ==> base == job.binding.source }

  predicate LineageHolds(w: World, job: Job, base: nat) {
    FreshHolds(job, base) && OnLineage(Provenance.Compare(w.graph, w.api, job.binding.source, base), job.binding.source)
  }

  predicate SourceHolds(w: World, job: Job, base: nat) {
    && LineageHolds(w, job, base) && job.binding.anchor.Some?
    && Anchored(Provenance.Compare(w.graph, w.api, job.binding.source, job.binding.main),
                job.binding.source, job.binding.anchor.value)
  }

  predicate Chosen(job: Job, guard: Guard) { Capture(job.binding.line, job.version, guard.before) == Ok(guard) }

  predicate ChosenFor(job: Job, k: After) { k.BeforeRelease? ==> Chosen(job, k.guard) }

  ghost predicate Trail(w: World, log: seq<Event>, job: Job, pc: Pc) {
    match pc
    case RebindBase(k) => ChosenFor(job, k) && EndsWith(log, Prelude(job, k))
    case RebindLineage(k, base) =>
      ChosenFor(job, k) && FreshHolds(job, base) && EndsWith(log, Prelude(job, k) + BaseSeen(job, base))
    case RebindSource(k, base) =>
      ChosenFor(job, k) && LineageHolds(w, job, base) && job.binding.anchor.Some?
      && EndsWith(log, Prelude(job, k) + LineageSeen(w, job, base))
    case RebindTip(k, base) =>
      ChosenFor(job, k) && SourceHolds(w, job, base) && EndsWith(log, Prelude(job, k) + SourceSeen(w, job, base))
    case RebindAgain(k, base) =>
      ChosenFor(job, k) && VerifyApi(w.graph, w.api, job.binding, base)
      && EndsWith(log, Prelude(job, k) + AnchorSeen(w, job, base))
    case RebindMain(k, base) =>
      ChosenFor(job, k) && VerifyApi(w.graph, w.api, job.binding, base)
      && EndsWith(log, Prelude(job, k) + BaseSeenAgain(w, job, base))
    case PostObject => JustRebound(w, log, job, BeforeObject, [])
    case PostRef(id) => JustRebound(w, log, job, BeforeRef(id), [])
    case LookRef(Exact(tag, guard)) => Chosen(job, guard) && JustRebound(w, log, job, BeforeRelease(tag, guard), [])
    case LookObject(Exact(tag, guard), id) =>
      Chosen(job, guard) && JustRebound(w, log, job, BeforeRelease(tag, guard), ExactRefSeen(job, id))
    case SameLatest(tag, guard) =>
      Chosen(job, guard) && JustRebound(w, log, job, BeforeRelease(tag, guard), ExactTagSeen(w, job, tag))
    case PostRelease(tag, guard) =>
      Chosen(job, guard) && JustRebound(w, log, job, BeforeRelease(tag, guard), SameLatestSeen(w, job, tag, guard))
    case LookRelease(First, tag, guard) =>
      Chosen(job, guard) && EndsWith(log, [Called(job, ReadLatest, LatestReply(guard.before))])
    case _ => true
  }

  ghost predicate ClientTrail(w: World, s: State) {
    s.client.Running? ==> Trail(w, s.log, s.client.job, s.client.pc)
  }

  lemma JustReboundGrows(w: World, log: seq<Event>, job: Job, k: After, more: seq<Event>, event: Event)
    requires JustRebound(w, log, job, k, more)
    ensures JustRebound(w, log + [event], job, k, more + [event])
  {
    var base :| VerifyApi(w.graph, w.api, job.binding, base)
                && EndsWith(log, Prelude(job, k) + RebindSeen(w, job, base) + more);
    Extend(log, Prelude(job, k) + RebindSeen(w, job, base) + more, event);
    assert Prelude(job, k) + RebindSeen(w, job, base) + more + [event]
        == Prelude(job, k) + RebindSeen(w, job, base) + (more + [event]);
  }

  /** One call inside a rebind extends its trail. */
  lemma RebindTrail(w: World, s: State, o: Outcome)
    requires ClientTrail(w, s) && s.client.Running?
    requires s.client.pc.RebindBase? || s.client.pc.RebindLineage? || s.client.pc.RebindSource?
             || s.client.pc.RebindTip? || s.client.pc.RebindAgain?
    ensures ClientTrail(w, Apply(w, s, Turn(o)))
  {
    hide OnLineage, Anchored, Provenance.Compare, Capture;
    var Running(job, pc) := s.client;
    var call := Ask(w, job, pc);
    var event := Called(job, call, Handle(w, s.server, call, o).1);
    var prelude := Prelude(job, pc.k);
    match pc
    case RebindBase(_) => Extend(s.log, prelude, event);
    case RebindLineage(_, base) => Grow(s.log, prelude, BaseSeen(job, base), event);
    case RebindSource(_, base) => Grow(s.log, prelude, LineageSeen(w, job, base), event);
    case RebindTip(_, base) => Grow(s.log, prelude, SourceSeen(w, job, base), event);
    case RebindAgain(_, base) => Grow(s.log, prelude, AnchorSeen(w, job, base), event);
  }

  lemma Grow(log: seq<Event>, prelude: seq<Event>, tail: seq<Event>, event: Event)
    requires EndsWith(log, prelude + tail)
    ensures EndsWith(log + [event], prelude + (tail + [event]))
  {
    Extend(log, prelude + tail, event);
    assert prelude + tail + [event] == prelude + (tail + [event]);
  }

  /** The last read of a rebind completes it. */
  lemma RebindCompletes(w: World, s: State, o: Outcome)
    requires ClientTrail(w, s) && s.client.Running? && s.client.pc.RebindMain?
    ensures ClientTrail(w, Apply(w, s, Turn(o)))
  {
    hide VerifyApi, Capture;
    var Running(job, pc) := s.client;
    var event := Called(job, ReadMain, Handle(w, s.server, ReadMain, o).1);
    Grow(s.log, Prelude(job, pc.k), BaseSeenAgain(w, job, pc.base), event);
    if event.reply == Tip(job.binding.main) {
      assert Prelude(job, pc.k) + RebindSeen(w, job, pc.base) + [] == Prelude(job, pc.k) + RebindSeen(w, job, pc.base);
      assert JustRebound(w, s.log + [event], job, pc.k, []);
    }
  }

  /** The reads of the exact tag and of Latest between the last rebind and the Release. */
  lemma ReleaseTrail(w: World, s: State, o: Outcome)
    requires ClientTrail(w, s) && s.client.Running?
    requires s.client.pc.LookRef? || s.client.pc.LookObject? || s.client.pc.SameLatest?
    ensures ClientTrail(w, Apply(w, s, Turn(o)))
  {
    hide VerifyApi, Capture, JustRebound;
    var Running(job, pc) := s.client;
    var call := Ask(w, job, pc);
    var event := Called(job, call, Handle(w, s.server, call, o).1);
    match pc
    case LookRef(Exact(tag, guard)) =>
      JustReboundGrows(w, s.log, job, BeforeRelease(tag, guard), [], event);
      assert [] + [event] == [event];
    case LookObject(Exact(tag, guard), id) =>
      JustReboundGrows(w, s.log, job, BeforeRelease(tag, guard), ExactRefSeen(job, id), event);
    case SameLatest(tag, guard) =>
      JustReboundGrows(w, s.log, job, BeforeRelease(tag, guard), ExactTagSeen(w, job, tag), event);
    case _ =>
  }

  /** Reading Latest starts the trail of a Release. */
  lemma CaptureTrail(w: World, s: State, o: Outcome)
    requires s.client.Running? && s.client.pc.CaptureLatest?
    ensures ClientTrail(w, Apply(w, s, Turn(o)))
  {
    hide JustRebound, VerifyApi, Capture;
    var Running(job, pc) := s.client;
    var event := Called(job, ReadLatest, Handle(w, s.server, ReadLatest, o).1);
    assert EndsWith(s.log + [event], [event]);
    if ObserveLatest(event.reply).Ok? {
      GuardRemembers(job.binding.line, job.version, ObserveLatest(event.reply).value);
    }
  }

  /** Where reading the Release leads. */
  lemma ReleaseRead(w: World, job: Job, check: Check, tag: nat, guard: Guard, reply: Reply)
    ensures var client := Next(w, job, LookRelease(check, tag, guard), reply);
            || client == Done(job, false)
            || (client == Running(job, RebindBase(BeforeRelease(tag, guard))) && check == First && reply == Missing)
            || client == Running(job, LookRef(Existing(tag, guard)))
            || client == Running(job, LookRef(Retained(tag, guard)))
            || client == Running(job, LookRelease(Readback, tag, guard))
  {
    hide ValidRelease;
  }

  lemma FirstLookTrail(w: World, log: seq<Event>, job: Job, tag: nat, guard: Guard)
    requires Trail(w, log, job, LookRelease(First, tag, guard))
    ensures Trail(w, log + [Called(job, ReadRelease(job.version), Missing)], job, RebindBase(BeforeRelease(tag, guard)))
  {
    hide Capture;
    var seen := Called(job, ReadLatest, LatestReply(guard.before));
    var event := Called(job, ReadRelease(job.version), Missing);
    Extend(log, [seen], event);
    assert [seen] + [event] == [seen, event];
  }

  lemma NothingToRemember(w: World, log: seq<Event>, job: Job, pc: Pc)
    requires (pc.LookRef? && !pc.why.Exact?) || (pc.LookRelease? && pc.check != First)
    ensures Trail(w, log, job, pc)
  {}

  /** Finding no Release continues it. */
  lemma LookReleaseTrail(w: World, s: State, o: Outcome)
    requires ClientTrail(w, s) && s.client.Running? && s.client.pc.LookRelease?
    ensures ClientTrail(w, Apply(w, s, Turn(o)))
  {
    var Running(job, LookRelease(check, tag, guard)) := s.client;
    var reply := Handle(w, s.server, ReadRelease(job.version), o).1;
    TurnIs(w, s, o);
    ReleaseRead(w, job, check, tag, guard, reply);
    hide Trail, Next, Handle, Apply;
    var log := Apply(w, s, Turn(o)).log;
    if check == First {
      FirstLookTrail(w, s.log, job, tag, guard);
    }
    NothingToRemember(w, log, job, LookRef(Existing(tag, guard)));
    NothingToRemember(w, log, job, LookRef(Retained(tag, guard)));
    NothingToRemember(w, log, job, LookRelease(Readback, tag, guard));
  }

  /** The remaining calls leave nothing to remember. */
  lemma OtherTrail(w: World, s: State, o: Outcome)
    requires s.client.Running?
    requires s.client.pc.CheckArchive? || s.client.pc.CheckScope? || s.client.pc.CheckCommit?
             || s.client.pc.PostObject? || s.client.pc.PostRef? || s.client.pc.PostRelease? || s.client.pc.VerifyLatest?
    ensures ClientTrail(w, Apply(w, s, Turn(o)))
  {
    hide Handle, ValidTagObject, ValidRelease, LatestAsIntended, ObserveLatest;
  }

  lemma TurnKeepsTrail(w: World, s: State, o: Outcome)
    requires ClientTrail(w, s) && s.client.Running?
    ensures ClientTrail(w, Apply(w, s, Turn(o)))
  {
    hide ClientTrail, Apply;
    match s.client.pc
    case RebindBase(_) => RebindTrail(w, s, o);
    case RebindLineage(_, _) => RebindTrail(w, s, o);
    case RebindSource(_, _) => RebindTrail(w, s, o);
    case RebindTip(_, _) => RebindTrail(w, s, o);
    case RebindAgain(_, _) => RebindTrail(w, s, o);
    case RebindMain(_, _) => RebindCompletes(w, s, o);
    case LookRef(_) => ReleaseTrail(w, s, o);
    case LookObject(_, _) => ReleaseTrail(w, s, o);
    case SameLatest(_, _) => ReleaseTrail(w, s, o);
    case CaptureLatest(_) => CaptureTrail(w, s, o);
    case LookRelease(_, _, _) => LookReleaseTrail(w, s, o);
    case _ => OtherTrail(w, s, o);
  }

  lemma StepKeepsTrail(w: World, s: State, step: Label)
    requires ClientTrail(w, s)
    ensures ClientTrail(w, Apply(w, s, step))
  {
    if s.client.Running? && step.Turn? {
      TurnKeepsTrail(w, s, step.outcome);
    } else {
      hide Next, Handle;
      assert forall job :: EndsWith(s.log + [Event.Started(job)], []);
    }
  }

  /** A creation is only ever called with its authority right behind it in the log. */
  lemma TrailAuthorizes(w: World, s: State)
    requires ClientTrail(w, s) && s.client.Running?
    ensures Authorized(w, s.log, s.client.job, Ask(w, s.client.job, s.client.pc))
  {
    if s.client.pc.PostRelease? {
      AdvanceIff(s.client.job.binding.line, s.client.job.version, s.client.pc.guard);
    }
    hide JustRebound, Capture, Precedes;
  }

  /** When a guard advances Latest. */
  lemma AdvanceIff(line: ReleaseLine, v: Version, guard: Guard)
    requires Capture(line, v, guard.before) == Ok(guard)
    ensures guard.advance <==>
              && line == Main && v.pre == []
              && (guard.before.Some? ==>
                    guard.before.value.tag.Family? && Precedes(guard.before.value.tag.version, v))
  {
    hide Precedes;
  }

  /**
   * In every run, each tag object, tag ref and Release creation comes
   * immediately after a complete successful rebind whose last read saw main at
   * the policy commit; the Release creation also after reading the exact tag
   * and the same Latest as before. No other creation lies in between.
   */
  lemma {:induction false} CreationsAreAuthorized(w: World, s: State, labels: seq<Label>, i: nat)
    requires s.client == Idle && s.log == []
    ensures ClientTrail(w, Exec(w, s, labels))
    ensures var log := Exec(w, s, labels).log;
            i < |log| && log[i].Called? ==> Authorized(w, log[..i], log[i].job, log[i].call)
    decreases |labels|
  {
    hide Trail, Authorized, Next, Handle;
    if labels != [] {
      var before, step := Exec(w, s, labels[..|labels| - 1]), labels[|labels| - 1];
      CreationsAreAuthorized(w, s, labels[..|labels| - 1], i);
      StepKeepsTrail(w, before, step);
      var log, after := before.log, Exec(w, s, labels).log;
      assert log <= after <= after && |after| <= |log| + 1;
      if i < |log| {
        assert after[..i] == log[..i];
      } else if i < |after| && after[i].Called? {
        assert after[..i] == log;
        TrailAuthorizes(w, before);
      }
    }
  }
}
