/** Crash convergence: after any run, one uninterrupted retry completes the release. */
module FinalizerRecovery {
  import opened Finalizer
  import opened FinalizerHistory
  import opened FinalizerSafety
  import opened Provenance
  import opened ReleasePolicy
  import opened SemVer
  import opened Wrappers

  /**
   * The retry's binding passes the live check, the crate is published from its
   * source and not yanked, and its commit is a reviewed release commit.
   */
  predicate Ready(w: World, server: Server, job: Job) {
    var v, b := job.version, job.binding;
    && MainLine.ValidSelection(v) && Admits(b.line, v) && job.app
    && Main in server.tips && server.tips[Main] == b.main
    && b.line in server.tips && VerifyApi(w.graph, w.api, b, server.tips[b.line])
    && Published(server, job) && v !in server.yanked && b.source in w.reviewed
  }

  /** A guard can be taken from the present Latest, and an existing Release left Latest as it intends. */
  predicate Fits(server: Server, job: Job) {
    var guard := Capture(job.binding.line, job.version, server.latest);
    && guard.Ok?
    && (job.version in server.releases ==> LatestAsIntended(guard.value, job.version, server.latest))
  }

  /** What a retry needs of the server it finds. */
  predicate Retryable(w: World, server: Server, job: Job) { Ready(w, server, job) && Fits(server, job) }

  ghost predicate Complete(w: World, server: Server, job: Job) {
    Published(server, job) && TagSpelled(w, server, job.version) && ReleaseSpelled(w, server, job.version)
  }

  /** A call that takes effect and whose reply arrives; the server may still reuse an object. */
  predicate Quiet(o: Outcome) { o.applied && o.delivered }

  /** A call that takes effect; only the replies to a tag ref and to a Release may be lost. */
  predicate Gentle(o: Outcome, call: Call) {
    o.applied && (o.delivered || call.CreateTagRef? || call.CreateRelease?)
  }

  predicate Finished(server: Server, job: Job, guard: Guard) {
    job.version in server.releases && LatestAsIntended(guard, job.version, server.latest)
  }

  /** Where a client whose calls go gently can be, and what then holds. */
  predicate OnPath(server: Server, job: Job, pc: Pc) {
    job.binding.line in server.tips
    && var tip := server.tips[job.binding.line];
    match pc
    case RebindLineage(_, base) => base == tip
    case RebindSource(_, base) => base == tip && job.binding.anchor.Some?
    case RebindTip(_, base) => base == tip && job.binding.anchor.Some?
    case RebindAgain(_, base) => base == tip
    case RebindMain(_, base) => base == tip
    case LookRef(why) => LookOnPath(server, job, why)
    case LookObject(why, _) => LookOnPath(server, job, why)
    case LookRelease(check, _, guard) => check != First ==> Finished(server, job, guard)
    case VerifyLatest(guard) => Finished(server, job, guard)
    case _ => true
  }

  predicate LookOnPath(server: Server, job: Job, why: Look) {
    match why
    case AfterRefError(id) => HasTag(server, job, id)
    case Confirm(id) => HasTag(server, job, id)
    case Existing(_, guard) => job.version in server.releases && Captured(server, job, guard)
    case Retained(_, guard) => Finished(server, job, guard)
    case _ => true
  }

  ghost predicate OnTrack(w: World, s: State, job: Job) {
    Inv(w, s) && Retryable(w, s.server, job)
    && match s.client
       case Running(running, pc) => running == job && OnPath(s.server, job, pc)
       case Done(done, ok) => done == job && ok && Complete(w, s.server, job)
       case Idle => false
  }

  // ----- One gentle call -----

  lemma ReadArrives(w: World, server: Server, call: Call, o: Outcome)
    requires Gentle(o, call) && !Creates(call)
    ensures Handle(w, server, call, o) == (server, Answer(w, server, call))
  {
  }

  lemma KnowsOf(w: World, s: State)
    requires Inv(w, s) && s.client.Running?
    ensures Knows(w, s.server, s.client.job, s.client.pc)
  {
  }

  /** The client continues with the same job, somewhere on its path. */
  predicate Proceeds(server: Server, job: Job, client: Client) {
    client.Running? && client.job == job && OnPath(server, job, client.pc)
  }

  predicate InRebind(pc: Pc) {
    pc.RebindBase? || pc.RebindLineage? || pc.RebindSource? || pc.RebindTip? || pc.RebindAgain? || pc.RebindMain?
  }

  /** Inside a rebind nothing can fail. */
  lemma QuietRebind(w: World, s: State, job: Job, pc: Pc)
    requires Retryable(w, s.server, job) && OnPath(s.server, job, pc) && InRebind(pc)
    ensures Proceeds(s.server, job, Next(w, job, pc, Answer(w, s.server, Ask(w, job, pc))))
  {
    hide Provenance.Compare, MainLine.ValidSelection;
  }

  lemma QuietChecks(w: World, s: State, job: Job, pc: Pc)
    requires Retryable(w, s.server, job) && (pc.CheckArchive? || pc.CheckScope? || pc.CheckCommit?)
    ensures Proceeds(s.server, job, Next(w, job, pc, Answer(w, s.server, Ask(w, job, pc))))
  {
    hide VerifyApi, MainLine.ValidSelection;
  }

  /** Where a retry fits, an existing Release is settled for the guard it takes. */
  lemma ExistingIsSettled(w: World, s: State, job: Job, guard: Guard)
    requires Inv(w, s) && Retryable(w, s.server, job)
    requires job.version in s.server.releases && Captured(s.server, job, guard)
    ensures Finished(s.server, job, guard)
  {
  }

  lemma QuietTagReads(w: World, server: Server, job: Job, pc: Pc)
    requires OnPath(server, job, pc) && Knows(w, server, job, pc) && (pc.LookRef? || pc.LookObject?)
    requires job.version in server.refs ==> TagStaged(w, server, job.version)
    requires pc.LookObject? && pc.why.Existing? ==> Finished(server, job, pc.why.guard)
    ensures Proceeds(server, job, Next(w, job, pc, Answer(w, server, Ask(w, job, pc))))
  {
    hide LatestAsIntended, Capture;
  }

  /** The present Latest is always readable, and a retry that fits takes a guard from it. */
  lemma CaptureSucceeds(w: World, s: State, job: Job)
    requires Inv(w, s) && Retryable(w, s.server, job)
    ensures var reply := Answer(w, s.server, ReadLatest);
            ObserveLatest(reply) == Ok(s.server.latest) && Capture(job.binding.line, job.version, s.server.latest).Ok?
  {
    LatestIsReadable(w, s);
    hide Inv, Ready, Capture, Answer, ObserveLatest;
  }

  lemma LatestIsReadable(w: World, s: State)
    requires Inv(w, s)
    ensures ObserveLatest(Answer(w, s.server, ReadLatest)) == Ok(s.server.latest)
  {
    hide ClientKnows;
    if s.server.latest.Some? {
      assert ReleaseStaged(w, s.server, s.server.latest.value.tag.version);
    }
  }

  lemma QuietCapture(w: World, server: Server, job: Job, pc: Pc)
    requires OnPath(server, job, pc) && Knows(w, server, job, pc) && (pc.CaptureLatest? || pc.SameLatest?)
    requires ObserveLatest(Answer(w, server, ReadLatest)) == Ok(server.latest)
    requires Capture(job.binding.line, job.version, server.latest).Ok?
    ensures Proceeds(server, job, Next(w, job, pc, Answer(w, server, Ask(w, job, pc))))
  {
    hide Answer, Capture, ObserveLatest;
  }

  lemma QuietLookRelease(w: World, server: Server, job: Job, pc: Pc)
    requires OnPath(server, job, pc) && Knows(w, server, job, pc) && pc.LookRelease?
    requires job.version in server.releases ==> ReleaseStaged(w, server, job.version)
    ensures Proceeds(server, job, Next(w, job, pc, Answer(w, server, Ask(w, job, pc))))
  {
    assert job.version in server.releases ==> ValidRelease(w, job, server.releases[job.version]);
    hide LatestAsIntended, Capture, ValidRelease, TagStaged;
  }

  lemma QuietEnd(w: World, server: Server, job: Job, guard: Guard)
    requires Finished(server, job, guard)
    requires ObserveLatest(Answer(w, server, ReadLatest)) == Ok(server.latest)
    ensures Next(w, job, VerifyLatest(guard), Answer(w, server, ReadLatest)) == Done(job, true)
  {
    hide Answer, ObserveLatest;
  }

  lemma QuietCreates(w: World, server: Server, job: Job, pc: Pc, o: Outcome)
    requires OnPath(server, job, pc) && Knows(w, server, job, pc) && Gentle(o, Ask(w, job, pc))
    requires Creates(Ask(w, job, pc))
    ensures var (after, reply) := Handle(w, server, Ask(w, job, pc), o);
            Proceeds(after, job, Next(w, job, pc, reply))
  {
    GuardRemembers(job.binding.line, job.version, server.latest);
    hide Capture;
  }

  /** A call keeps the retry possible, and creates only what is absent. */
  lemma QuietFrame(w: World, s: State, job: Job, o: Outcome)
    requires OnTrack(w, s, job) && s.client.Running?
    ensures Retryable(w, Apply(w, s, Turn(o)).server, job)
    ensures Ask(w, job, s.client.pc).CreateTagRef? ==> job.version !in s.server.refs
    ensures Ask(w, job, s.client.pc).CreateRelease? ==> job.version !in s.server.releases
  {
    hide Staged, LatestInOrder, VerifyApi, MainLine.ValidSelection, Next, Answer;
  }

  lemma CreatesAt(w: World, job: Job, pc: Pc)
    ensures Creates(Ask(w, job, pc)) <==> pc.PostObject? || pc.PostRef? || pc.PostRelease?
  {
  }

  /** A path that inspects the tag of an existing Release, or verifies Latest, is settled. */
  lemma PathIsSettled(w: World, s: State, job: Job, pc: Pc)
    requires Inv(w, s) && Retryable(w, s.server, job) && OnPath(s.server, job, pc)
    ensures pc.LookObject? && pc.why.Existing? ==> Finished(s.server, job, pc.why.guard)
    ensures pc.VerifyLatest? ==> Finished(s.server, job, pc.guard)
  {
    hide Inv, Retryable, Captured, Finished;
    if pc.LookObject? && pc.why.Existing? {
      ExistingIsSettled(w, s, job, pc.why.guard);
    }
  }

  /** Where a gentle call leads. */
  lemma QuietNext(w: World, s: State, job: Job, pc: Pc, o: Outcome)
    requires Inv(w, s) && Retryable(w, s.server, job) && Gentle(o, Ask(w, job, pc))
    requires s.client == Running(job, pc) && OnPath(s.server, job, pc)
    ensures var after := Apply(w, s, Turn(o));
            if pc.VerifyLatest? then after.client == Done(job, true) else Proceeds(after.server, job, after.client)
  {
    hide *;
    var server, call := s.server, Ask(w, job, pc);
    TurnIs(w, s, o);
    KnowsOf(w, s);
    StagedHere(w, s, job);
    CaptureSucceeds(w, s, job);
    CreatesAt(w, job, pc);
    PathIsSettled(w, s, job, pc);
    if !Creates(call) { ReadArrives(w, server, call, o); }
    AsksForLatest(w, job, pc);
    match pc
    case PostObject => QuietCreates(w, server, job, pc, o);
    case PostRef(_) => QuietCreates(w, server, job, pc, o);
    case PostRelease(_, _) => QuietCreates(w, server, job, pc, o);
    case VerifyLatest(guard) => QuietEnd(w, server, job, guard);
    case CaptureLatest(_) => QuietCapture(w, server, job, pc);
    case SameLatest(_, _) => QuietCapture(w, server, job, pc);
    case LookRelease(_, _, _) => QuietLookRelease(w, server, job, pc);
    case CheckArchive => QuietChecks(w, s, job, pc);
    case CheckScope => QuietChecks(w, s, job, pc);
    case CheckCommit => QuietChecks(w, s, job, pc);
    case LookRef(_) => QuietTagReads(w, server, job, pc);
    case LookObject(_, _) => QuietTagReads(w, server, job, pc);
    case _ =>
      InRebindAt(pc);
      QuietRebind(w, s, job, pc);
  }

  lemma AsksForLatest(w: World, job: Job, pc: Pc)
    ensures pc.VerifyLatest? ==> Ask(w, job, pc) == ReadLatest
  {
  }

  lemma InRebindAt(pc: Pc)
    ensures InRebind(pc) <==> pc.RebindBase? || pc.RebindLineage? || pc.RebindSource? || pc.RebindTip?
                              || pc.RebindAgain? || pc.RebindMain?
  {
  }

  lemma StagedHere(w: World, s: State, job: Job)
    requires Inv(w, s)
    ensures job.version in s.server.refs ==> TagStaged(w, s.server, job.version)
    ensures job.version in s.server.releases ==> ReleaseStaged(w, s.server, job.version)
  {
  }

  lemma QuietStep(w: World, s: State, job: Job, o: Outcome)
    requires OnTrack(w, s, job) && (s.client.Running? ==> Gentle(o, Ask(w, job, s.client.pc)))
    ensures OnTrack(w, Apply(w, s, Turn(o)), job)
    ensures s.client.Running? && Apply(w, s, Turn(o)).client.Running? ==>
              CallsLeft(Apply(w, s, Turn(o)).client.pc) < CallsLeft(s.client.pc)
  {
    if s.client.Running? {
      var pc := s.client.pc;
      StepKeepsInv(w, s, Turn(o));
      QuietFrame(w, s, job, o);
      QuietNext(w, s, job, pc, o);
      TurnIs(w, s, o);
      CallsAreBounded(w, job, pc, Handle(w, s.server, Ask(w, job, pc), o).1);
      if pc.VerifyLatest? { DoneIsComplete(w, Apply(w, s, Turn(o)), job); }
      hide Inv, Retryable, Next, OnPath, Complete, CallsLeft, Apply, Handle;
    }
  }

  lemma DoneIsComplete(w: World, s: State, job: Job)
    requires Inv(w, s) && s.client == Done(job, true)
    ensures Complete(w, s.server, job)
  {
  }

  // ----- A whole retry -----

  function Turns(outcomes: seq<Outcome>): seq<Label> {
    seq(|outcomes|, i requires 0 <= i < |outcomes| => Turn(outcomes[i]))
  }

  /** Every call of these goes gently. */
  ghost predicate GentleRun(w: World, s: State, outcomes: seq<Outcome>) {
    forall i :: 0 <= i < |outcomes| ==> GentleAt(w, Exec(w, s, Turns(outcomes[..i])), outcomes[i])
  }

  predicate GentleAt(w: World, s: State, o: Outcome) {
    s.client.Running? ==> Gentle(o, Ask(w, s.client.job, s.client.pc))
  }

  lemma QuietIsGentle(w: World, s: State, outcomes: seq<Outcome>)
    requires forall i :: 0 <= i < |outcomes| ==> Quiet(outcomes[i])
    ensures GentleRun(w, s, outcomes)
  {
    hide Exec, Ask;
  }

  predicate CreatesAnew(event: Event, before: Server, v: Version) {
    event.Called? ==>
      && (event.call.CreateTagRef? ==> v !in before.refs)
      && (event.call.CreateRelease? ==> v !in before.releases)
  }

  lemma {:induction false} QuietRun(w: World, s: State, job: Job, outcomes: seq<Outcome>)
    requires OnTrack(w, s, job) && s.client.Running?
    requires GentleRun(w, s, outcomes)
    ensures var end := Exec(w, s, Turns(outcomes));
            && OnTrack(w, end, job)
            && (end.client.Running? ==> CallsLeft(end.client.pc) + |outcomes| <= CallsLeft(s.client.pc))
            && s.log <= end.log
            && (forall i :: |s.log| <= i < |end.log| ==> CreatesAnew(end.log[i], s.server, job.version))
    decreases |outcomes|
  {
    hide OnTrack, Apply, CallsLeft, CreatesAnew;
    if outcomes == [] {
      assert Turns(outcomes) == [];
    } else {
      var n := |outcomes| - 1;
      var rest, last := outcomes[..n], outcomes[n];
      assert forall i :: 0 <= i < n ==> rest[..i] == outcomes[..i];
      QuietRun(w, s, job, rest);
      assert Turns(outcomes)[..n] == Turns(rest);
      var before := Exec(w, s, Turns(rest));
      assert GentleAt(w, before, last);
      OnTrackClient(w, before, job);
      QuietStep(w, before, job, last);
      RunRetains(w, s, Turns(rest), 0);
      assert Turns(rest)[..0] == [];
      QuietLog(w, s, before, job, last);
    }
  }

  lemma OnTrackClient(w: World, s: State, job: Job)
    requires OnTrack(w, s, job)
    ensures s.client.Running? ==> s.client.job == job
  {
    hide Inv, Retryable, OnPath, Complete;
  }

  /** The one event a call adds creates only what the retry did not find at its start. */
  lemma QuietLog(w: World, start: State, s: State, job: Job, o: Outcome)
    requires OnTrack(w, s, job) && Retains(start.server, s.server)
    ensures var after := Apply(w, s, Turn(o)).log;
            && s.log <= after && |after| <= |s.log| + 1
            && (|after| == |s.log| + 1 ==> CreatesAnew(after[|s.log|], start.server, job.version))
            && (!s.client.Running? ==> Apply(w, s, Turn(o)) == s)
  {
    if s.client.Running? {
      QuietFrame(w, s, job, o);
      hide Inv, Retryable, Next, Handle, OnPath, Extends;
    }
  }

  lemma RetryStarts(w: World, s: State, job: Job)
    requires Inv(w, s) && Retryable(w, s.server, job) && !s.client.Running?
    ensures var started := s.(client := Running(job, RebindBase(Begin)), log := s.log + [Event.Started(job)]);
            Apply(w, s, Start(job)) == started && OnTrack(w, started, job)
  {
    StepKeepsInv(w, s, Start(job));
    hide Staged, LatestInOrder;
  }

  /**
   * Take any run from a server in order: any interleaving of finalizations,
   * crashes, lost replies and other actors. If a retry is possible then, 52
   * calls that take effect end it successfully with the tag and the Release in
   * place, even if the replies to its tag ref and its Release are lost, and it
   * creates neither a ref nor a Release that already existed.
   */
  lemma RetryCompletes(w: World, s: State, labels: seq<Label>, job: Job, outcomes: seq<Outcome>)
    requires Inv(w, s) && !Exec(w, s, labels).client.Running?
    requires Retryable(w, Exec(w, s, labels).server, job)
    requires |outcomes| >= 52 && GentleRun(w, Apply(w, Exec(w, s, labels), Start(job)), outcomes)
    ensures var before := Exec(w, s, labels);
            var end := Exec(w, Apply(w, before, Start(job)), Turns(outcomes));
            && end.client == Done(job, true)
            && Complete(w, end.server, job)
            && before.log <= end.log
            && (forall i :: |before.log| <= i < |end.log| ==> CreatesAnew(end.log[i], before.server, job.version))
  {
    hide *;
    var before := Exec(w, s, labels);
    Reachable(w, s, labels);
    RetryStarts(w, before, job);
    var started := Apply(w, before, Start(job));
    QuietRun(w, started, job, outcomes);
    FullRunEnds(w, Exec(w, started, Turns(outcomes)), job, |outcomes|);
    StartCreatesNothing(job, before.server);
    assert Exec(w, started, Turns(outcomes)).log[|before.log|] == Event.Started(job);
  }

  lemma StartCreatesNothing(job: Job, server: Server)
    ensures CreatesAnew(Event.Started(job), server, job.version)
  {
  }

  /** On track with no calls left to make, a retry has ended well. */
  lemma FullRunEnds(w: World, end: State, job: Job, calls: nat)
    requires OnTrack(w, end, job) && calls >= 52
    requires end.client.Running? ==> CallsLeft(end.client.pc) + calls <= CallsLeft(RebindBase(Begin))
    ensures end.client == Done(job, true) && Complete(w, end.server, job)
  {
    hide Inv, Retryable, Complete;
    if end.client.Running? {
      CallsAreBounded(w, job, end.client.pc, Failed);
    }
  }
}
