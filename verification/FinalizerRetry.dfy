/**
 * Exactly which retries succeed: an undisturbed one ends well if and only if
 * it finds the server ready for its job and its Latest fitting.
 */
module FinalizerRetry {
  import opened Finalizer
  import opened FinalizerAuthority
  import opened FinalizerHistory
  import opened FinalizerRecovery
  import opened FinalizerSafety
  import opened Provenance
  import opened ReleasePolicy
  import opened SemVer
  import opened Wrappers

  // ----- When Latest fits -----

  /**
   * In an orderly server a retry fits unless its version already is Latest but
   * the job is for a support line, or its Release exists although a main-line
   * stable would have to raise Latest.
   */
  lemma FitsIff(w: World, s: State, job: Job)
    requires Inv(w, s) && MainLine.ValidSelection(job.version)
    ensures var v, line, latest := job.version, job.binding.line, s.server.latest;
            Fits(s.server, job) <==>
              && !(line != Main && latest.Some? && latest.value.tag == Family(v))
              && !(v in s.server.releases && MakeLatest(line, v)
                   && (latest.None? || Precedes(latest.value.tag.version, v)))
  {
    BuildFree(job.version);
    LatestBuildFree(w, s);
    if s.server.latest.Some? {
      PrecedenceDichotomy(s.server.latest.value.tag.version, job.version);
    }
    hide Inv, Precedes, MainLine.ValidSelection;
  }

  /** A job for the line that created the Release, if there is one, always fits. */
  lemma SameLineFits(w: World, s: State, job: Job)
    requires Inv(w, s) && MainLine.ValidSelection(job.version)
    requires forall e :: e in s.finalized && e.0 == job.version ==> e.1 == job.binding.line
    ensures Fits(s.server, job)
  {
    FitsIff(w, s, job);
    if job.version in s.server.releases {
      var e :| e in s.finalized && e.0 == job.version;
      if s.server.latest.Some? {
        PrecedenceDichotomy(s.server.latest.value.tag.version, job.version);
      }
      assert MakeLatest(job.binding.line, job.version) ==> MainStable(e);
    }
    hide Precedes, MainLine.ValidSelection, Staged;
  }

  // ----- A retry that does not fit fails -----

  predicate Misfit(server: Server, job: Job, guard: Guard) {
    job.version in server.releases && !LatestAsIntended(guard, job.version, server.latest)
  }

  /** The client has not found the Release missing, and no guard it holds can be met. */
  predicate Stuck(server: Server, job: Job, pc: Pc) {
    match pc
    case RebindBase(k) => !k.BeforeRelease?
    case RebindLineage(k, _) => !k.BeforeRelease?
    case RebindSource(k, _) => !k.BeforeRelease?
    case RebindTip(k, _) => !k.BeforeRelease?
    case RebindAgain(k, _) => !k.BeforeRelease?
    case RebindMain(k, _) => !k.BeforeRelease?
    case LookRef(why) => StuckLook(server, job, why)
    case LookObject(why, _) => StuckLook(server, job, why)
    case LookRelease(check, _, guard) => check == First && Misfit(server, job, guard)
    case SameLatest(_, _) => false
    case PostRelease(_, _) => false
    case VerifyLatest(guard) => Misfit(server, job, guard)
    case _ => true
  }

  predicate StuckLook(server: Server, job: Job, why: Look) {
    match why
    case Existing(_, guard) => Misfit(server, job, guard)
    case Exact(_, _) => false
    case Retained(_, _) => false
    case _ => true
  }

  predicate StuckClient(server: Server, job: Job, client: Client) {
    match client
    case Running(running, pc) => running == job && Stuck(server, job, pc)
    case Done(_, ok) => !ok
    case Idle => true
  }

  predicate Doomed(s: State, job: Job) { !Fits(s.server, job) && StuckClient(s.server, job, s.client) }

  /** A call of a stuck client leaves Releases and Latest alone. */
  lemma StuckFrames(w: World, server: Server, job: Job, pc: Pc, o: Outcome)
    requires Stuck(server, job, pc)
    ensures var after := Handle(w, server, Ask(w, job, pc), o).0;
            after.releases == server.releases && after.latest == server.latest
  {
    hide Answer, Misfit;
  }

  lemma StuckStays(a: Server, b: Server, job: Job, client: Client)
    requires a.releases == b.releases && a.latest == b.latest
    ensures StuckClient(a, job, client) <==> StuckClient(b, job, client)
    ensures Fits(a, job) <==> Fits(b, job)
  {
    hide Capture;
  }

  lemma ReadsAsServed(w: World, server: Server, call: Call, o: Outcome)
    requires !Creates(call)
    ensures Handle(w, server, call, o).1 == Failed || Handle(w, server, call, o).1 == Answer(w, server, call)
  {
  }

  lemma LatestAsServed(w: World, server: Server)
    ensures ObserveLatest(Answer(w, server, ReadLatest)).Ok? ==>
              ObserveLatest(Answer(w, server, ReadLatest)) == Ok(server.latest)
    ensures ObserveLatest(Failed).Err?
  {
  }

  lemma StuckRebind(w: World, server: Server, job: Job, pc: Pc, reply: Reply)
    requires Stuck(server, job, pc) && InRebind(pc)
    ensures StuckClient(server, job, Next(w, job, pc, reply))
  {
    hide OnLineage, Anchored, Misfit;
  }

  lemma StuckTag(w: World, server: Server, job: Job, pc: Pc, reply: Reply)
    requires Stuck(server, job, pc) && (pc.LookRef? || pc.LookObject? || pc.PostObject? || pc.PostRef?)
    ensures StuckClient(server, job, Next(w, job, pc, reply))
  {
    hide ValidTagObject, LatestAsIntended;
  }

  lemma StuckLatest(w: World, server: Server, job: Job, pc: Pc)
    requires !Fits(server, job) && Stuck(server, job, pc) && (pc.CaptureLatest? || pc.VerifyLatest?)
    ensures StuckClient(server, job, Next(w, job, pc, Answer(w, server, ReadLatest)))
    ensures StuckClient(server, job, Next(w, job, pc, Failed))
  {
    LatestAsServed(w, server);
    hide Answer, ObserveLatest, Capture, LatestAsIntended;
  }

  lemma StuckRelease(w: World, server: Server, job: Job, pc: Pc)
    requires Stuck(server, job, pc) && pc.LookRelease?
    ensures StuckClient(server, job, Next(w, job, pc, Answer(w, server, ReadRelease(job.version))))
    ensures StuckClient(server, job, Next(w, job, pc, Failed))
  {
    hide ValidRelease, LatestAsIntended;
  }

  lemma StuckChecks(w: World, server: Server, job: Job, pc: Pc, reply: Reply)
    requires pc.CheckArchive? || pc.CheckScope? || pc.CheckCommit?
    ensures StuckClient(server, job, Next(w, job, pc, reply))
  {
  }

  lemma AsksForRelease(w: World, job: Job, pc: Pc)
    ensures pc.LookRelease? ==> Ask(w, job, pc) == ReadRelease(job.version)
    ensures pc.CaptureLatest? || pc.VerifyLatest? ==> Ask(w, job, pc) == ReadLatest
  {
  }

  lemma NotStuck(server: Server, job: Job, pc: Pc)
    ensures pc.SameLatest? || pc.PostRelease? ==> !Stuck(server, job, pc)
  {
  }

  lemma StuckNext(w: World, server: Server, job: Job, pc: Pc, o: Outcome)
    requires !Fits(server, job) && Stuck(server, job, pc)
    ensures StuckClient(server, job, Next(w, job, pc, Handle(w, server, Ask(w, job, pc), o).1))
  {
    hide *;
    var reply := Handle(w, server, Ask(w, job, pc), o).1;
    CreatesAt(w, job, pc);
    InRebindAt(pc);
    AsksForRelease(w, job, pc);
    NotStuck(server, job, pc);
    if !Creates(Ask(w, job, pc)) {
      ReadsAsServed(w, server, Ask(w, job, pc), o);
    }
    if InRebind(pc) {
      StuckRebind(w, server, job, pc, reply);
    } else if pc.CaptureLatest? || pc.VerifyLatest? {
      StuckLatest(w, server, job, pc);
    } else if pc.LookRelease? {
      StuckRelease(w, server, job, pc);
    } else if pc.CheckArchive? || pc.CheckScope? || pc.CheckCommit? {
      StuckChecks(w, server, job, pc, reply);
    } else {
      StuckTag(w, server, job, pc, reply);
    }
  }

  lemma DoomedStep(w: World, s: State, job: Job, o: Outcome)
    requires Doomed(s, job)
    ensures Doomed(Apply(w, s, Turn(o)), job)
  {
    if s.client.Running? {
      var pc := s.client.pc;
      TurnIs(w, s, o);
      StuckFrames(w, s.server, job, pc, o);
      StuckNext(w, s.server, job, pc, o);
      var after := Apply(w, s, Turn(o));
      StuckStays(s.server, after.server, job, after.client);
      hide Apply, Next, Handle, Stuck, Fits;
    }
  }

  // ----- A retry that succeeds has seen a ready server -----

  predicate Bound(w: World, server: Server, job: Job) {
    && Main in server.tips && server.tips[Main] == job.binding.main
    && job.binding.line in server.tips && VerifyApi(w.graph, w.api, job.binding, server.tips[job.binding.line])
  }

  predicate TipIs(server: Server, job: Job, base: nat) {
    job.binding.line in server.tips && server.tips[job.binding.line] == base
  }

  predicate Behind(w: World, server: Server, job: Job, k: After) { k != Begin ==> Ready(w, server, job) }

  /** What an undisturbed client has established when it gets here. */
  predicate Seen(w: World, server: Server, job: Job, pc: Pc) {
    && MainLine.ValidSelection(job.version) && Admits(job.binding.line, job.version)
    && match pc
       case RebindBase(k) => Behind(w, server, job, k)
       case RebindLineage(k, base) => Behind(w, server, job, k) && TipIs(server, job, base) && FreshHolds(job, base)
       case RebindSource(k, base) =>
         Behind(w, server, job, k) && TipIs(server, job, base) && LineageHolds(w, job, base) && job.binding.anchor.Some?
       case RebindTip(k, base) => Behind(w, server, job, k) && TipIs(server, job, base) && SourceHolds(w, job, base)
       case RebindAgain(k, base) =>
         Behind(w, server, job, k) && TipIs(server, job, base) && VerifyApi(w.graph, w.api, job.binding, base)
       case RebindMain(k, base) =>
         Behind(w, server, job, k) && TipIs(server, job, base) && VerifyApi(w.graph, w.api, job.binding, base)
       case CheckArchive => Bound(w, server, job)
       case CheckScope => Bound(w, server, job) && Published(server, job) && job.version !in server.yanked && job.app
       case CheckCommit => Bound(w, server, job) && Published(server, job) && job.version !in server.yanked && job.app
       case _ => Ready(w, server, job)
  }

  predicate SeenBy(w: World, server: Server, job: Job, client: Client) {
    match client
    case Running(running, pc) => running == job && Seen(w, server, job, pc)
    case Done(_, ok) => ok ==> Ready(w, server, job)
    case Idle => true
  }

  /** Calls of the client touch neither branches nor the registry. */
  lemma CallFrames(w: World, server: Server, call: Call, o: Outcome)
    ensures var after := Handle(w, server, call, o).0;
            after.tips == server.tips && after.registry == server.registry && after.yanked == server.yanked
  {
    hide Answer;
  }

  lemma SeenStays(w: World, a: Server, b: Server, job: Job, client: Client)
    requires a.tips == b.tips && a.registry == b.registry && a.yanked == b.yanked
    ensures SeenBy(w, a, job, client) <==> SeenBy(w, b, job, client)
    ensures Ready(w, a, job) <==> Ready(w, b, job)
  {
    hide VerifyApi, MainLine.ValidSelection, LineageHolds, SourceHolds;
  }

  lemma SeenRebind(w: World, server: Server, job: Job, pc: Pc)
    requires Seen(w, server, job, pc) && InRebind(pc)
    ensures SeenBy(w, server, job, Next(w, job, pc, Answer(w, server, Ask(w, job, pc))))
    ensures SeenBy(w, server, job, Next(w, job, pc, Failed))
  {
    hide Provenance.Compare, MainLine.ValidSelection, OnLineage, Anchored, Ready;
  }

  lemma SeenChecks(w: World, server: Server, job: Job, pc: Pc)
    requires Seen(w, server, job, pc) && (pc.CheckArchive? || pc.CheckScope? || pc.CheckCommit?)
    ensures SeenBy(w, server, job, Next(w, job, pc, Answer(w, server, Ask(w, job, pc))))
    ensures SeenBy(w, server, job, Next(w, job, pc, Failed))
  {
    hide VerifyApi, MainLine.ValidSelection;
  }

  /** After the checks nothing more has to be established. */
  lemma SeenLater(w: World, server: Server, job: Job, pc: Pc, reply: Reply)
    requires Seen(w, server, job, pc) && !InRebind(pc) && !pc.CheckArchive? && !pc.CheckScope? && !pc.CheckCommit?
    ensures SeenBy(w, server, job, Next(w, job, pc, reply))
  {
    hide Ready, MainLine.ValidSelection, ObserveLatest, Capture, ValidRelease, ValidTagObject, LatestAsIntended;
  }

  lemma SeenStep(w: World, s: State, job: Job, o: Outcome)
    requires SeenBy(w, s.server, job, s.client)
    ensures SeenBy(w, Apply(w, s, Turn(o)).server, job, Apply(w, s, Turn(o)).client)
    ensures Ready(w, s.server, job) <==> Ready(w, Apply(w, s, Turn(o)).server, job)
  {
    if s.client.Running? {
      var pc := s.client.pc;
      var call := Ask(w, job, pc);
      TurnIs(w, s, o);
      CallFrames(w, s.server, call, o);
      CreatesAt(w, job, pc);
      InRebindAt(pc);
      if !Creates(call) {
        ReadsAsServed(w, s.server, call, o);
      }
      var after := Apply(w, s, Turn(o));
      SeenStays(w, s.server, after.server, job, after.client);
      hide Apply, Next, Handle, Seen, Ready, InRebind, Answer, Ask, Creates;
      if InRebind(pc) {
        SeenRebind(w, s.server, job, pc);
      } else if pc.CheckArchive? || pc.CheckScope? || pc.CheckCommit? {
        SeenChecks(w, s.server, job, pc);
      } else {
        SeenLater(w, s.server, job, pc, Handle(w, s.server, call, o).1);
      }
    }
  }

  // ----- The exact condition -----

  lemma {:induction false} DoomedRun(w: World, s: State, job: Job, outcomes: seq<Outcome>)
    requires Doomed(s, job)
    ensures Doomed(Exec(w, s, Turns(outcomes)), job)
    decreases |outcomes|
  {
    hide Doomed, Apply;
    if outcomes == [] {
      assert Turns(outcomes) == [];
    } else {
      var n := |outcomes| - 1;
      DoomedRun(w, s, job, outcomes[..n]);
      assert Turns(outcomes)[..n] == Turns(outcomes[..n]);
      DoomedStep(w, Exec(w, s, Turns(outcomes[..n])), job, outcomes[n]);
    }
  }

  lemma {:induction false} SeenRun(w: World, s: State, job: Job, outcomes: seq<Outcome>)
    requires SeenBy(w, s.server, job, s.client)
    ensures SeenBy(w, Exec(w, s, Turns(outcomes)).server, job, Exec(w, s, Turns(outcomes)).client)
    ensures Ready(w, s.server, job) <==> Ready(w, Exec(w, s, Turns(outcomes)).server, job)
    decreases |outcomes|
  {
    hide SeenBy, Ready, Apply;
    if outcomes == [] {
      assert Turns(outcomes) == [];
    } else {
      var n := |outcomes| - 1;
      SeenRun(w, s, job, outcomes[..n]);
      assert Turns(outcomes)[..n] == Turns(outcomes[..n]);
      SeenStep(w, Exec(w, s, Turns(outcomes[..n])), job, outcomes[n]);
    }
  }

  lemma StartsUnseen(w: World, s: State, job: Job)
    requires !s.client.Running?
    ensures SeenBy(w, s.server, job, Apply(w, s, Start(job)).client)
    ensures Apply(w, s, Start(job)).server == s.server
    ensures !Fits(s.server, job) ==> Doomed(Apply(w, s, Start(job)), job)
  {
    hide MainLine.ValidSelection, Fits;
  }

  /** A retry that ends well found the server ready and fitting, however its calls went. */
  lemma SuccessNeeds(w: World, s: State, job: Job, outcomes: seq<Outcome>)
    requires !s.client.Running?
    requires Exec(w, Apply(w, s, Start(job)), Turns(outcomes)).client == Done(job, true)
    ensures Retryable(w, s.server, job)
  {
    StartsUnseen(w, s, job);
    hide Exec, Apply, Ready, Fits, Seen, Stuck;
    var started := Apply(w, s, Start(job));
    SeenRun(w, started, job, outcomes);
    if !Fits(s.server, job) {
      DoomedRun(w, started, job, outcomes);
    }
  }

  /**
   * After any run of finalizations, crashes, lost replies and other actors, a
   * retry whose calls take effect ends well within 52 calls if and only if it
   * finds the server retryable, even if the replies to its tag ref and its
   * Release are lost. It then leaves tag and Release in place and creates
   * neither a ref nor a Release that already existed.
   */
  lemma CrashesConverge(w: World, s: State, labels: seq<Label>, job: Job, outcomes: seq<Outcome>)
    requires Inv(w, s) && !Exec(w, s, labels).client.Running?
    requires |outcomes| >= 52 && GentleRun(w, Apply(w, Exec(w, s, labels), Start(job)), outcomes)
    ensures var before := Exec(w, s, labels);
            var end := Exec(w, Apply(w, before, Start(job)), Turns(outcomes));
            && (end.client == Done(job, true) <==> Retryable(w, before.server, job))
            && (end.client == Done(job, true) ==>
                  && Complete(w, end.server, job)
                  && before.log <= end.log
                  && forall i :: |before.log| <= i < |end.log| ==> CreatesAnew(end.log[i], before.server, job.version))
  {
    hide *;
    var before := Exec(w, s, labels);
    if Retryable(w, before.server, job) {
      RetryCompletes(w, s, labels, job, outcomes);
    } else if Exec(w, Apply(w, before, Start(job)), Turns(outcomes)).client == Done(job, true) {
      SuccessNeeds(w, before, job, outcomes);
    }
  }
}
