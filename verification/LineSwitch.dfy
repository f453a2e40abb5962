/**
 * A retry that cannot succeed: a stable version released from a support line
 * and retried on main, where Latest would have had to move with its Release.
 */
module LineSwitch {
  import opened CommitGraph
  import opened CrissCross
  import opened Finalizer
  import opened FinalizerHistory
  import opened FinalizerRecovery
  import opened FinalizerRetry
  import opened FinalizerSafety
  import opened Provenance
  import opened ReleasePolicy
  import opened SemVer
  import opened Wrappers

  predicate Serves(client: Client, job: Job) { !client.Running? || client.job == job }

  /** Running one job alone, with no part in Latest, leaves Latest as it was. */
  lemma {:induction false} RunKeepsLatest(w: World, s: State, job: Job, outcomes: seq<Outcome>)
    requires Inv(w, s) && Serves(s.client, job) && !MakeLatest(job.binding.line, job.version)
    ensures var end := Exec(w, s, Turns(outcomes));
            end.server.latest == s.server.latest && Serves(end.client, job)
    decreases |outcomes|
  {
    hide Apply, Inv, MakeLatest;
    if outcomes == [] {
      assert Turns(outcomes) == [];
    } else {
      var n := |outcomes| - 1;
      var rest := Turns(outcomes[..n]);
      RunKeepsLatest(w, s, job, outcomes[..n]);
      assert Turns(outcomes)[..n] == rest;
      Reachable(w, s, rest);
      StepRaisesLatest(w, Exec(w, s, rest), Turn(outcomes[n]));
      StepServes(w, Exec(w, s, rest), job, outcomes[n]);
    }
  }

  lemma StepServes(w: World, s: State, job: Job, o: Outcome)
    requires Serves(s.client, job)
    ensures Serves(Apply(w, s, Turn(o)).client, job)
  {
    if s.client.Running? {
      TurnIs(w, s, o);
      CallsAreBounded(w, job, s.client.pc, Handle(w, s.server, Ask(w, job, s.client.pc), o).1);
      hide Next, Handle, Apply, Ask;
    }
  }

  /**
   * After an undisturbed support finalization of a stable version above
   * Latest, no retry of that version on main fits.
   */
  lemma SupportReleaseBlocksMain(w: World, s: State, support: Job, outcomes: seq<Outcome>, main: Job)
    requires Inv(w, s) && !s.client.Running? && Retryable(w, s.server, support)
    requires support.binding.line != Main && support.version.pre == []
    requires s.server.latest.Some? ==> Precedes(s.server.latest.value.tag.version, support.version)
    requires |outcomes| >= 52 && forall i :: 0 <= i < |outcomes| ==> Quiet(outcomes[i])
    requires main.binding.line == Main && main.version == support.version
    ensures var end := Exec(w, Apply(w, s, Start(support)), Turns(outcomes));
            Inv(w, end) && end.client == Done(support, true) && !Fits(end.server, main)
  {
    var started := Apply(w, s, Start(support));
    var end := Exec(w, started, Turns(outcomes));
    assert Exec(w, s, []) == s;
    QuietIsGentle(w, started, outcomes);
    RetryCompletes(w, s, [], support, outcomes);
    RetryStarts(w, s, support);
    assert Inv(w, started) && Serves(started.client, support) && started.server == s.server;
    Reachable(w, started, Turns(outcomes));
    RunKeepsLatest(w, started, support, outcomes);
    assert MainLine.ValidSelection(main.version);
    hide Exec, Apply, Inv, Precedes, Fits, MainLine.ValidSelection;
    FitsIff(w, end, main);
  }

  // ----- A concrete run -----

  const VERSION := Version(0, 5, 1, [], "")

  ghost const WORLD := World(HISTORY, Prefer(1), (source: nat) => 0, (source: nat, v: Version) => "", {3})

  const START := State(
    Server(map[Main := 4, LINE := 3], map[VERSION := 3], {}, [], map[], map[], None, 0), Idle, [], [])

  const SUPPORT_JOB := Job(VERSION, BINDING, true)

  /** Recovery on main of the same source, after main merged it. */
  const MAIN_JOB := Job(VERSION, Binding(Main, Recover, 7, 3, None), true)

  lemma SupportVerifies()
    ensures VerifyApi(HISTORY, Prefer(1), BINDING, 3)
  {
    Ancestors();
    ForkBase();
    LineageIsAncestry(HISTORY, Prefer(1), 3, 3);
    hide Ancestor, HISTORY, Prefer, OnLineage;
  }

  lemma SupportIsReady()
    ensures Ready(WORLD, START.server, SUPPORT_JOB)
  {
    SupportVerifies();
    hide VerifyApi, HISTORY, Prefer;
  }

  lemma SupportFits()
    ensures Fits(START.server, SUPPORT_JOB)
  {
    hide HISTORY, Prefer;
  }

  lemma StartIsOrderly()
    ensures Initial(START) && Inv(WORLD, START)
  {
    assert Initial(START);
    hide Initial, Inv, HISTORY, Prefer;
    InitialHolds(WORLD, START);
  }

  lemma MergedSource()
    ensures VerifyApi(HISTORY, Prefer(1), MAIN_JOB.binding, 7)
  {
    Ancestors();
    assert 3 in HISTORY.parents[7] && Ancestor(HISTORY, 3, 7);
    LineageIsAncestry(HISTORY, Prefer(1), 3, 7);
    hide Ancestor, HISTORY, Prefer, OnLineage;
  }

  lemma {:induction false} ExecFrom(w: World, s: State, step: Label, labels: seq<Label>)
    ensures Exec(w, s, [step] + labels) == Exec(w, Apply(w, s, step), labels)
  {
    hide Apply;
    var all := [step] + labels;
    if labels == [] {
      assert all[..0] == [] && all[0] == step;
    } else {
      var n := |labels| - 1;
      ExecFrom(w, s, step, labels[..n]);
      assert all[..|all| - 1] == [step] + labels[..n];
    }
  }

  /** The support job, its undisturbed calls, and the merge of its source into main. */
  function Labels(outcomes: seq<Outcome>): seq<Label> {
    [Start(SUPPORT_JOB)] + Turns(outcomes) + [Env(Advance(Main, 7))]
  }

  lemma AfterMerge(outcomes: seq<Outcome>)
    ensures Exec(WORLD, START, Labels(outcomes))
         == Apply(WORLD, Exec(WORLD, Apply(WORLD, START, Start(SUPPORT_JOB)), Turns(outcomes)), Env(Advance(Main, 7)))
  {
    hide Apply, START, WORLD, SUPPORT_JOB;
    ExecFrom(WORLD, START, Start(SUPPORT_JOB), Turns(outcomes));
    assert Labels(outcomes)[..|Labels(outcomes)| - 1] == [Start(SUPPORT_JOB)] + Turns(outcomes);
  }

  lemma ReadyOnMain(server: Server)
    requires Main in server.tips && server.tips[Main] == 7
    requires VERSION in server.registry && server.registry[VERSION] == 3 && server.yanked == {}
    ensures Ready(WORLD, server, MAIN_JOB)
  {
    MergedSource();
    hide VerifyApi, HISTORY, Prefer;
  }

  /**
   * A reachable server that is ready for a main-line retry on which every such
   * retry fails, however its calls go.
   */
  lemma MainRetryFails(outcomes: seq<Outcome>, retry: seq<Outcome>)
    requires |outcomes| >= 52 && forall i :: 0 <= i < |outcomes| ==> Quiet(outcomes[i])
    ensures Initial(START)
    ensures var before := Exec(WORLD, START, Labels(outcomes));
            && !before.client.Running? && Ready(WORLD, before.server, MAIN_JOB) && !Fits(before.server, MAIN_JOB)
            && Exec(WORLD, Apply(WORLD, before, Start(MAIN_JOB)), Turns(retry)).client != Done(MAIN_JOB, true)
  {
    StartIsOrderly();
    SupportIsReady();
    SupportFits();
    SupportReleaseBlocksMain(WORLD, START, SUPPORT_JOB, outcomes, MAIN_JOB);
    AfterMerge(outcomes);
    var started := Apply(WORLD, START, Start(SUPPORT_JOB));
    var end := Exec(WORLD, started, Turns(outcomes));
    var before := Exec(WORLD, START, Labels(outcomes));
    StartsUnseen(WORLD, START, SUPPORT_JOB);
    RunFrames(WORLD, started, outcomes);
    assert before == end.(server := Moved(end.server, Advance(Main, 7)));
    assert START.server.registry[VERSION] == 3 && START.server.yanked == {} && VERSION in START.server.registry;
    StuckStays(end.server, before.server, MAIN_JOB, before.client);
    hide Exec, Fits, START, WORLD, Inv, Labels;
    ReadyOnMain(before.server);
    if Exec(WORLD, Apply(WORLD, before, Start(MAIN_JOB)), Turns(retry)).client == Done(MAIN_JOB, true) {
      SuccessNeeds(WORLD, before, MAIN_JOB, retry);
    }
  }

  lemma {:induction false} RunFrames(w: World, s: State, outcomes: seq<Outcome>)
    ensures var end := Exec(w, s, Turns(outcomes)).server;
            end.tips == s.server.tips && end.registry == s.server.registry && end.yanked == s.server.yanked
    decreases |outcomes|
  {
    if outcomes == [] {
      assert Turns(outcomes) == [];
    } else {
      var n := |outcomes| - 1;
      RunFrames(w, s, outcomes[..n]);
      assert Turns(outcomes)[..n] == Turns(outcomes[..n]);
      var before := Exec(w, s, Turns(outcomes[..n]));
      if before.client.Running? {
        TurnIs(w, before, outcomes[n]);
        CallFrames(w, before.server, Ask(w, before.client.job, before.client.pc), outcomes[n]);
      }
      hide Handle, Next, Ask;
    }
  }
}
