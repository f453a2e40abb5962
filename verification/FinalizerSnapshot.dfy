/**
 * Consistent snapshots inside whole runs: whenever a finalizer creates
 * something, there was one instant, at most nine calls earlier, at which main
 * was its policy commit and the base tip had the value that was checked.
 */
module FinalizerSnapshot {
  import opened CommitGraph
  import opened Finalizer
  import opened FinalizerAuthority
  import opened FinalizerRetry
  import opened Provenance
  import opened ReleasePolicy
  import opened Wrappers

  // ----- Runs in which branches only fast-forward -----

  /** A branch update moves forward, and a job starts with main at its policy commit. */
  predicate Orderly(w: World, s: State, step: Label) {
    match step
    case Env(Advance(line, commit)) => line in s.server.tips ==> Ancestor(w.graph, s.server.tips[line], commit)
    case Start(job) => PolicyIsMain(w, s.server, job)
    case _ => true
  }

  predicate PolicyIsMain(w: World, server: Server, job: Job) {
    Main in server.tips && server.tips[Main] == job.binding.main && job.binding.main in w.graph.parents
  }

  ghost predicate OrderlyRun(w: World, s: State, labels: seq<Label>) {
    forall i :: 0 <= i < |labels| ==> Orderly(w, Exec(w, s, labels[..i]), labels[i])
  }

  // ----- What the client remembers -----

  /** Main has moved from `older` at most forward. */
  predicate MainSince(w: World, server: Server, older: nat) {
    Main in server.tips && Ancestor(w.graph, older, server.tips[Main])
  }

  /** One earlier instant with the base at the checked tip, and main between the policy commit and what it is now. */
  ghost predicate Instant(w: World, s: State, labels: seq<Label>, job: Job, base: nat, age: nat, i: nat) {
    && i <= |labels|
    && var past, now := Exec(w, s, labels[..i]), Exec(w, s, labels);
       && TipIs(past.server, job, base)
       && MainSince(w, past.server, job.binding.main)
       && MainSince(w, now.server, past.server.tips[Main])
       && |now.log| <= |past.log| + age
  }

  ghost predicate Glimpsed(w: World, s: State, labels: seq<Label>, job: Job, base: nat, age: nat) {
    exists i :: Instant(w, s, labels, job, base, age, i)
  }

  /** At one earlier instant the whole binding held. */
  ghost predicate HeldAt(w: World, s: State, labels: seq<Label>, job: Job, age: nat, base: nat, i: nat) {
    && i <= |labels| && VerifyApi(w.graph, w.api, job.binding, base)
    && var past := Exec(w, s, labels[..i]);
       && TipIs(past.server, job, base)
       && Main in past.server.tips && past.server.tips[Main] == job.binding.main
       && |Exec(w, s, labels).log| <= |past.log| + age
  }

  ghost predicate Snapshot(w: World, s: State, labels: seq<Label>, job: Job, age: nat) {
    exists base, i :: HeldAt(w, s, labels, job, age, base, i)
  }

  /** The most calls since the base was read; zero where it is not remembered. */
  function GlimpseAge(pc: Pc): nat {
    match pc
    case RebindLineage(_, _) => 1
    case RebindSource(_, _) => 2
    case RebindTip(_, _) => 3
    case RebindAgain(_, _) => 4
    case RebindMain(_, _) => 5
    case _ => 0
  }

  function BaseOf(pc: Pc): nat {
    match pc
    case RebindLineage(_, base) => base
    case RebindSource(_, base) => base
    case RebindTip(_, base) => base
    case RebindAgain(_, base) => base
    case RebindMain(_, base) => base
    case _ => 0
  }

  /** The same for a completed rebind. */
  function SnapshotAge(pc: Pc): nat {
    match pc
    case PostObject => 6
    case PostRef(_) => 6
    case LookRef(Exact(_, _)) => 6
    case LookObject(Exact(_, _), _) => 7
    case SameLatest(_, _) => 8
    case PostRelease(_, _) => 9
    case _ => 0
  }

  ghost predicate Remembers(w: World, s: State, labels: seq<Label>, job: Job, pc: Pc) {
    && (GlimpseAge(pc) > 0 ==> Glimpsed(w, s, labels, job, BaseOf(pc), GlimpseAge(pc)))
    && (SnapshotAge(pc) > 0 ==> Snapshot(w, s, labels, job, SnapshotAge(pc)))
  }

  ghost predicate Aware(w: World, s: State, labels: seq<Label>) {
    var now := Exec(w, s, labels);
    now.client.Running? ==>
      MainSince(w, now.server, now.client.job.binding.main) && Remembers(w, s, labels, now.client.job, now.client.pc)
  }

  // ----- Each step keeps it -----

  lemma Unfold(w: World, s: State, labels: seq<Label>, step: Label)
    ensures Exec(w, s, labels + [step]) == Apply(w, Exec(w, s, labels), step)
    ensures forall i :: 0 <= i <= |labels| ==> (labels + [step])[..i] == labels[..i]
  {
    assert (labels + [step])[..|labels|] == labels;
  }

  /** No orderly step takes main back. */
  lemma MainAdvances(w: World, s: State, step: Label, older: nat)
    requires Orderly(w, s, step) && MainSince(w, s.server, older)
    ensures MainSince(w, Apply(w, s, step).server, older)
  {
    match step
    case Env(Advance(line, commit)) =>
      hide Ancestor;
      if line == Main {
        AncestorTransitive(w.graph, older, s.server.tips[Main], commit);
      }
    case Turn(o) =>
      if s.client.Running? {
        TurnIs(w, s, o);
        CallFrames(w, s.server, Ask(w, s.client.job, s.client.pc), o);
        hide Next, Handle, Ask, Ancestor;
      }
    case _ => hide Next, Handle, Ancestor;
  }

  lemma GlimpseLasts(
    w: World, s: State, labels: seq<Label>, step: Label, job: Job, base: nat, age: nat, more: nat)
    requires Glimpsed(w, s, labels, job, base, age) && Orderly(w, Exec(w, s, labels), step)
    requires |Apply(w, Exec(w, s, labels), step).log| <= |Exec(w, s, labels).log| + more
    ensures Glimpsed(w, s, labels + [step], job, base, age + more)
  {
    hide Exec, Apply, Ancestor, TipIs, Orderly;
    var i: nat :| Instant(w, s, labels, job, base, age, i);
    Unfold(w, s, labels, step);
    MainAdvances(w, Exec(w, s, labels), step, Exec(w, s, labels[..i]).server.tips[Main]);
    assert Instant(w, s, labels + [step], job, base, age + more, i);
  }

  lemma SnapshotLasts(w: World, s: State, labels: seq<Label>, step: Label, job: Job, age: nat, more: nat)
    requires Snapshot(w, s, labels, job, age)
    requires |Apply(w, Exec(w, s, labels), step).log| <= |Exec(w, s, labels).log| + more
    ensures Snapshot(w, s, labels + [step], job, age + more)
  {
    hide Exec, Apply, TipIs, VerifyApi;
    var base: nat, i: nat :| HeldAt(w, s, labels, job, age, base, i);
    Unfold(w, s, labels, step);
    assert HeldAt(w, s, labels + [step], job, age + more, base, i);
  }

  /** Reading the base is the instant that will be remembered. */
  lemma BaseRead(w: World, s: State, labels: seq<Label>, o: Outcome, base: nat)
    requires Aware(w, s, labels) && Exec(w, s, labels).client.Running?
    requires Exec(w, s, labels).client.pc.RebindBase?
    requires TipIs(Exec(w, s, labels).server, Exec(w, s, labels).client.job, base)
    ensures Glimpsed(w, s, labels + [Turn(o)], Exec(w, s, labels).client.job, base, 1)
  {
    var now := Exec(w, s, labels);
    var job := now.client.job;
    Unfold(w, s, labels, Turn(o));
    TurnIs(w, now, o);
    MainAdvances(w, now, Turn(o), now.server.tips[Main]);
    assert labels[..|labels|] == labels;
    hide Exec, Apply, Next, Handle, Ask, Ancestor, TipIs;
    assert Instant(w, s, labels + [Turn(o)], job, base, 1, |labels|);
  }

  /** Main read at the policy commit pins it back to that instant. */
  lemma Completes(w: World, s: State, labels: seq<Label>, o: Outcome, base: nat)
    requires Exec(w, s, labels).client.Running?
    requires var job := Exec(w, s, labels).client.job;
             && Glimpsed(w, s, labels, job, base, 5) && VerifyApi(w.graph, w.api, job.binding, base)
             && Exec(w, s, labels).server.tips[Main] == job.binding.main
    ensures Snapshot(w, s, labels + [Turn(o)], Exec(w, s, labels).client.job, 6)
  {
    var now := Exec(w, s, labels);
    var job := now.client.job;
    var i: nat :| Instant(w, s, labels, job, base, 5, i);
    Unfold(w, s, labels, Turn(o));
    TurnIs(w, now, o);
    AncestorAntisymmetric(w.graph, job.binding.main, Exec(w, s, labels[..i]).server.tips[Main]);
    hide Exec, Apply, Next, Handle, Ask, Ancestor, TipIs, VerifyApi;
    assert HeldAt(w, s, labels + [Turn(o)], job, 6, base, i);
  }

  // ----- Where one call leads -----

  /** Reading the base, and what the reads after it can lead to. */
  lemma RebindLeads(w: World, server: Server, job: Job, pc: Pc, o: Outcome)
    requires pc.RebindBase? || 0 < GlimpseAge(pc) < 5
    ensures var client := Next(w, job, pc, Handle(w, server, Ask(w, job, pc), o).1);
            client.Running? ==>
              && client.job == job && SnapshotAge(client.pc) == 0 && GlimpseAge(client.pc) > GlimpseAge(pc)
              && if pc.RebindBase? then TipIs(server, job, BaseOf(client.pc)) else BaseOf(client.pc) == BaseOf(pc)
  {
    hide OnLineage, Anchored, Provenance.Compare;
  }

  lemma MainLeads(w: World, server: Server, job: Job, pc: Pc, o: Outcome)
    requires pc.RebindMain?
    ensures var client := Next(w, job, pc, Handle(w, server, Ask(w, job, pc), o).1);
            client.Running? ==>
              && client.job == job && SnapshotAge(client.pc) in {0, 6} && GlimpseAge(client.pc) == 0
              && Main in server.tips && server.tips[Main] == job.binding.main
  {
  }

  predicate Exacting(pc: Pc) { SnapshotAge(pc) > 0 && !pc.PostObject? && !pc.PostRef? && !pc.PostRelease? }

  /** The reads between the last rebind and the Release. */
  lemma ExactLeads(w: World, job: Job, pc: Pc, reply: Reply)
    requires Exacting(pc)
    ensures var client := Next(w, job, pc, reply);
            client.Running? ==>
              && client.job == job && GlimpseAge(client.pc) == 0 && SnapshotAge(client.pc) == SnapshotAge(pc) + 1
  {
    hide ValidTagObject, ObserveLatest;
  }

  /** Nothing is remembered where other calls lead. */
  lemma OtherLeads(w: World, job: Job, pc: Pc, reply: Reply)
    requires !pc.RebindBase? && GlimpseAge(pc) == 0 && !Exacting(pc)
    ensures var client := Next(w, job, pc, reply);
            client.Running? ==> client.job == job && GlimpseAge(client.pc) == SnapshotAge(client.pc) == 0
  {
    hide ValidTagObject, ValidRelease, ObserveLatest, Capture, LatestAsIntended;
  }

  lemma TrailVerifies(w: World, log: seq<Event>, job: Job, pc: Pc)
    requires Trail(w, log, job, pc) && pc.RebindMain?
    ensures VerifyApi(w.graph, w.api, job.binding, BaseOf(pc))
  {
    hide VerifyApi, EndsWith, ChosenFor;
  }

  // ----- The invariant -----

  ghost predicate RemembersAfter(w: World, s: State, labels: seq<Label>, job: Job, client: Client) {
    client.Running? ==> client.job == job && Remembers(w, s, labels, job, client.pc)
  }

  lemma BaseTurn(w: World, s: State, labels: seq<Label>, o: Outcome)
    requires Aware(w, s, labels) && Exec(w, s, labels).client.Running?
    requires Exec(w, s, labels).client.pc.RebindBase?
    ensures RemembersAfter(w, s, labels + [Turn(o)], Exec(w, s, labels).client.job,
                           Apply(w, Exec(w, s, labels), Turn(o)).client)
  {
    var now := Exec(w, s, labels);
    var Running(job, pc) := now.client;
    var client := Apply(w, now, Turn(o)).client;
    TurnIs(w, now, o);
    RebindLeads(w, now.server, job, pc, o);
    AgesOf(pc);
    hide *;
    if client.Running? {
      BaseRead(w, s, labels, o, BaseOf(client.pc));
      Older(w, s, labels + [Turn(o)], job, BaseOf(client.pc), 1);
      RemembersGlimpse(w, s, labels + [Turn(o)], job, client.pc);
    }
    NotRunning(w, s, labels + [Turn(o)], job, client);
  }

  lemma GlimpseTurn(w: World, s: State, labels: seq<Label>, o: Outcome)
    requires Aware(w, s, labels) && Exec(w, s, labels).client.Running?
    requires 0 < GlimpseAge(Exec(w, s, labels).client.pc) < 5
    ensures RemembersAfter(w, s, labels + [Turn(o)], Exec(w, s, labels).client.job,
                           Apply(w, Exec(w, s, labels), Turn(o)).client)
  {
    hide *;
    var now := Exec(w, s, labels);
    var Running(job, pc) := now.client;
    var client := Apply(w, now, Turn(o)).client;
    GlimpsedNow(w, s, labels);
    TurnIsOrderly(w, now, o);
    TurnIs(w, now, o);
    RebindLeads(w, now.server, job, pc, o);
    if client.Running? {
      GlimpseLasts(w, s, labels, Turn(o), job, BaseOf(pc), GlimpseAge(pc), 1);
      Older(w, s, labels + [Turn(o)], job, BaseOf(pc), GlimpseAge(pc) + 1);
      AgesOf(pc);
      RemembersGlimpse(w, s, labels + [Turn(o)], job, client.pc);
    }
    NotRunning(w, s, labels + [Turn(o)], job, client);
  }

  lemma GlimpsedNow(w: World, s: State, labels: seq<Label>)
    requires Aware(w, s, labels) && Exec(w, s, labels).client.Running?
    ensures var Running(job, pc) := Exec(w, s, labels).client;
            GlimpseAge(pc) > 0 ==> Glimpsed(w, s, labels, job, BaseOf(pc), GlimpseAge(pc))
  {
    hide Exec, Glimpsed, Snapshot, GlimpseAge, SnapshotAge, BaseOf, MainSince;
  }

  lemma TurnIsOrderly(w: World, s: State, o: Outcome)
    ensures Orderly(w, s, Turn(o))
  {
  }

  lemma RemembersGlimpse(w: World, s: State, labels: seq<Label>, job: Job, pc: Pc)
    requires SnapshotAge(pc) == 0 && Glimpsed(w, s, labels, job, BaseOf(pc), GlimpseAge(pc))
    ensures Remembers(w, s, labels, job, pc)
  {
  }

  lemma NotRunning(w: World, s: State, labels: seq<Label>, job: Job, client: Client)
    ensures !client.Running? ==> RemembersAfter(w, s, labels, job, client)
    ensures client.Running? && client.job == job && Remembers(w, s, labels, job, client.pc) ==>
              RemembersAfter(w, s, labels, job, client)
  {
    hide Remembers;
  }

  lemma MainTurn(w: World, s: State, labels: seq<Label>, o: Outcome)
    requires Aware(w, s, labels) && Exec(w, s, labels).client.Running?
    requires Exec(w, s, labels).client.pc.RebindMain?
    requires var Running(job, pc) := Exec(w, s, labels).client; Trail(w, Exec(w, s, labels).log, job, pc)
    ensures RemembersAfter(w, s, labels + [Turn(o)], Exec(w, s, labels).client.job,
                           Apply(w, Exec(w, s, labels), Turn(o)).client)
  {
    var now := Exec(w, s, labels);
    var Running(job, pc) := now.client;
    TurnIs(w, now, o);
    AgesOf(pc);
    hide Exec, Apply, Next, Handle, Ask, Glimpsed, Snapshot, MainSince, Trail, VerifyApi;
    hide GlimpseAge, BaseOf, SnapshotAge;
    MainLeads(w, now.server, job, pc, o);
    TrailVerifies(w, now.log, job, pc);
    if Apply(w, now, Turn(o)).client.Running? {
      Completes(w, s, labels, o, BaseOf(pc));
    }
  }

  lemma ExactTurn(w: World, s: State, labels: seq<Label>, o: Outcome)
    requires Aware(w, s, labels) && Exec(w, s, labels).client.Running?
    requires Exacting(Exec(w, s, labels).client.pc)
    ensures RemembersAfter(w, s, labels + [Turn(o)], Exec(w, s, labels).client.job,
                           Apply(w, Exec(w, s, labels), Turn(o)).client)
  {
    var now := Exec(w, s, labels);
    var Running(job, pc) := now.client;
    TurnIs(w, now, o);
    AgesOf(pc);
    hide Exec, Apply, Next, Handle, Ask, Glimpsed, Snapshot, MainSince, GlimpseAge, BaseOf, SnapshotAge, Exacting;
    ExactLeads(w, job, pc, Handle(w, now.server, Ask(w, job, pc), o).1);
    if Apply(w, now, Turn(o)).client.Running? {
      SnapshotLasts(w, s, labels, Turn(o), job, SnapshotAge(pc), 1);
    }
  }

  lemma OtherTurn(w: World, s: State, labels: seq<Label>, o: Outcome)
    requires Exec(w, s, labels).client.Running?
    requires var pc := Exec(w, s, labels).client.pc; !pc.RebindBase? && GlimpseAge(pc) == 0 && !Exacting(pc)
    ensures RemembersAfter(w, s, labels + [Turn(o)], Exec(w, s, labels).client.job,
                           Apply(w, Exec(w, s, labels), Turn(o)).client)
  {
    var now := Exec(w, s, labels);
    var Running(job, pc) := now.client;
    TurnIs(w, now, o);
    OtherLeads(w, job, pc, Handle(w, now.server, Ask(w, job, pc), o).1);
    hide Exec, Apply, Next, Handle, Ask, Glimpsed, Snapshot, GlimpseAge, BaseOf, SnapshotAge, Exacting;
  }

  lemma RememberedTurn(w: World, s: State, labels: seq<Label>, o: Outcome)
    requires Aware(w, s, labels) && Exec(w, s, labels).client.Running?
    requires var Running(job, pc) := Exec(w, s, labels).client; Trail(w, Exec(w, s, labels).log, job, pc)
    ensures RemembersAfter(w, s, labels + [Turn(o)], Exec(w, s, labels).client.job,
                           Apply(w, Exec(w, s, labels), Turn(o)).client)
  {
    hide *;
    var pc := Exec(w, s, labels).client.pc;
    AgesOf(pc);
    if pc.RebindBase? {
      BaseTurn(w, s, labels, o);
    } else if 0 < GlimpseAge(pc) < 5 {
      GlimpseTurn(w, s, labels, o);
    } else if pc.RebindMain? {
      MainTurn(w, s, labels, o);
    } else if Exacting(pc) {
      ExactTurn(w, s, labels, o);
    } else {
      OtherTurn(w, s, labels, o);
    }
  }

  lemma AgesOf(pc: Pc)
    ensures pc.RebindBase? ==> GlimpseAge(pc) == 0
    ensures pc.RebindMain? <==> GlimpseAge(pc) == 5
    ensures GlimpseAge(pc) <= 5
    ensures Exacting(pc) ==> SnapshotAge(pc) > 0
  {
  }

  /** A glimpse is also one of any greater age. */
  lemma Older(w: World, s: State, labels: seq<Label>, job: Job, base: nat, age: nat)
    requires Glimpsed(w, s, labels, job, base, age)
    ensures forall more :: more >= age ==> Glimpsed(w, s, labels, job, base, more)
  {
    hide Exec, Ancestor, TipIs;
    var i: nat :| Instant(w, s, labels, job, base, age, i);
    forall more | more >= age ensures Glimpsed(w, s, labels, job, base, more) {
      assert Instant(w, s, labels, job, base, more, i);
    }
  }

  /** A step without a call, such as others' moves, takes nothing from what is remembered. */
  lemma RememberedMove(w: World, s: State, labels: seq<Label>, step: Label)
    requires Aware(w, s, labels) && Exec(w, s, labels).client.Running? && Orderly(w, Exec(w, s, labels), step)
    requires Apply(w, Exec(w, s, labels), step).log == Exec(w, s, labels).log
    ensures Remembers(w, s, labels + [step], Exec(w, s, labels).client.job, Exec(w, s, labels).client.pc)
  {
    hide Exec, Apply, Glimpsed, Snapshot, MainSince, Orderly, GlimpseAge, SnapshotAge, BaseOf;
    var Running(job, pc) := Exec(w, s, labels).client;
    if GlimpseAge(pc) > 0 {
      GlimpseLasts(w, s, labels, step, job, BaseOf(pc), GlimpseAge(pc), 0);
    }
    if SnapshotAge(pc) > 0 {
      SnapshotLasts(w, s, labels, step, job, SnapshotAge(pc), 0);
    }
  }

  lemma StartIsAware(w: World, s: State, job: Job)
    requires !s.client.Running? && Orderly(w, s, Start(job)) && Apply(w, s, Start(job)).client.Running?
    ensures var after := Apply(w, s, Start(job));
            after.client == Running(job, RebindBase(Begin)) && MainSince(w, after.server, job.binding.main)
  {
    hide MainLine.ValidSelection;
  }

  lemma CallLess(w: World, s: State, step: Label)
    ensures var after := Apply(w, s, step);
            && (step.Env? ==> after.client == s.client && after.log == s.log)
            && (step.Start? && s.client.Running? ==> after.client == s.client && after.log == s.log)
            && (step.Crash? ==> !after.client.Running?)
            && (!s.client.Running? && after.client.Running? ==> step.Start?)
  {
    hide Next, Handle, Moved;
  }

  lemma StepAware(w: World, s: State, labels: seq<Label>, step: Label)
    requires Aware(w, s, labels) && Orderly(w, Exec(w, s, labels), step)
    requires ClientTrail(w, Exec(w, s, labels))
    ensures Aware(w, s, labels + [step])
  {
    var now := Exec(w, s, labels);
    var after := Apply(w, now, step);
    Unfold(w, s, labels, step);
    CallLess(w, now, step);
    hide Exec, Apply, MainSince, Orderly, Remembers, Trail;
    if now.client.Running? {
      MainAdvances(w, now, step, now.client.job.binding.main);
      match step
      case Env(_) => RememberedMove(w, s, labels, step);
      case Turn(o) => RememberedTurn(w, s, labels, o);
      case Start(_) => RememberedMove(w, s, labels, step);
      case Crash =>
    } else if after.client.Running? {
      StartIsAware(w, now, step.job);
      NothingYet(w, s, labels + [step], step.job);
    }
  }

  lemma NothingYet(w: World, s: State, labels: seq<Label>, job: Job)
    ensures Remembers(w, s, labels, job, RebindBase(Begin))
  {
  }

  lemma {:induction false} RunsAreAware(w: World, s: State, labels: seq<Label>)
    requires s.client == Idle && s.log == [] && OrderlyRun(w, s, labels)
    ensures Aware(w, s, labels)
    decreases |labels|
  {
    hide Aware, Orderly, Apply, ClientTrail, Authorized;
    if labels == [] {
      IdleIsAware(w, s);
    } else {
      var before, step := labels[..|labels| - 1], labels[|labels| - 1];
      assert forall i :: 0 <= i < |before| ==> before[..i] == labels[..i] && before[i] == labels[i];
      RunsAreAware(w, s, before);
      CreationsAreAuthorized(w, s, before, 0);
      StepAware(w, s, before, step);
      assert before + [step] == labels;
    }
  }

  lemma IdleIsAware(w: World, s: State)
    requires s.client == Idle
    ensures Aware(w, s, [])
  {
  }

  /**
   * When branches only fast-forward and jobs start with main at their policy
   * commit, every creation of every run has behind it, at most nine calls ago,
   * one single instant at which main was the policy commit and the base tip a
   * value for which the whole binding check holds.
   */
  lemma CreationsHaveSnapshots(w: World, s: State, labels: seq<Label>)
    requires s.client == Idle && s.log == [] && OrderlyRun(w, s, labels)
    ensures var now := Exec(w, s, labels);
            now.client.Running? && Creates(Ask(w, now.client.job, now.client.pc)) ==>
              exists base, i :: HeldAt(w, s, labels, now.client.job, 9, base, i)
  {
    var now := Exec(w, s, labels);
    RunsAreAware(w, s, labels);
    if now.client.Running? && Creates(Ask(w, now.client.job, now.client.pc)) {
      var Running(job, pc) := now.client;
      CreationAges(w, job, pc);
      hide Exec, GlimpseAge, SnapshotAge, Glimpsed, Ask, Creates, TipIs, VerifyApi, MainSince;
      var base: nat, i: nat :| HeldAt(w, s, labels, job, SnapshotAge(pc), base, i);
      assert HeldAt(w, s, labels, job, 9, base, i);
    }
  }

  lemma CreationAges(w: World, job: Job, pc: Pc)
    requires Creates(Ask(w, job, pc))
    ensures 0 < SnapshotAge(pc) <= 9
  {
  }
}
