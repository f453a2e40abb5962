/** Whole-run results about the finalizer: permanence, Latest, qualification and call bounds. */
module FinalizerHistory {
  import opened Finalizer
  import opened FinalizerSafety
  import opened Provenance
  import opened ReleasePolicy
  import opened SemVer
  import opened Wrappers

  // ----- Stage order and permanence -----

  /**
   * In every reachable state a Release implies its exact annotated tag, which
   * implies a published archive of the same source; and no version ever got a
   * second Release.
   */
  lemma StagesInOrder(w: World, s: State, labels: seq<Label>, v: Version)
    requires Inv(w, s)
    ensures var now := Exec(w, s, labels);
            && (v in now.server.refs ==> TagStaged(w, now.server, v) && TagSpelled(w, now.server, v))
            && (v in now.server.releases ==> ReleaseStaged(w, now.server, v) && ReleaseSpelled(w, now.server, v))
            && (forall i, j :: 0 <= i < j < |now.finalized| ==> now.finalized[i].0 != now.finalized[j].0)
  {
    Reachable(w, s, labels);
    StagedIsSpelled(w, Exec(w, s, labels).server, v);
    hide Exec, TagSpelled, ReleaseSpelled, TagStaged, ReleaseStaged;
  }

  /** A successful finalization leaves the exact tag and Release of its published source. */
  lemma SuccessIsComplete(w: World, s: State, labels: seq<Label>, job: Job)
    requires Inv(w, s) && Exec(w, s, labels).client == Done(job, true)
    ensures var server := Exec(w, s, labels).server;
            && Published(server, job) && server.registry[job.version] == job.binding.source
            && TagStaged(w, server, job.version) && ReleaseStaged(w, server, job.version)
            && TagSpelled(w, server, job.version) && ReleaseSpelled(w, server, job.version)
  {
    Reachable(w, s, labels);
    StagedIsSpelled(w, Exec(w, s, labels).server, job.version);
    hide Exec, TagSpelled, ReleaseSpelled, TagStaged, ReleaseStaged;
  }

  /** Published archives, tag refs and Releases are never replaced or removed. */
  ghost predicate Retains(before: Server, after: Server) {
    && Extends(before, after)
    && forall v :: v in before.releases ==> v in after.releases && after.releases[v] == before.releases[v]
  }

  lemma StepRetains(w: World, s: State, step: Label)
    ensures Retains(s.server, Apply(w, s, step).server)
  {
    match step
    case Env(move) => MoveExtends(s.server, move);
    case Turn(o) =>
      if s.client.Running? {
        TurnIs(w, s, o);
        CallRetains(w, s.server, Ask(w, s.client.job, s.client.pc), o);
      }
      hide Next, Answer, Moved, Handle, Retains;
    case _ =>
  }

  lemma CallRetains(w: World, server: Server, call: Call, o: Outcome)
    ensures Retains(server, Handle(w, server, call, o).0)
  {
    hide Answer;
  }

  /** From any prefix of a run on, from any starting state, what the server holds stays. */
  lemma {:induction false} RunRetains(w: World, s: State, labels: seq<Label>, i: nat)
    requires i <= |labels|
    ensures Retains(Exec(w, s, labels[..i]).server, Exec(w, s, labels).server)
    decreases |labels|
  {
    hide Apply;
    if i < |labels| {
      var shorter := labels[..|labels| - 1];
      assert labels[..i] == shorter[..i];
      RunRetains(w, s, shorter, i);
      StepRetains(w, Exec(w, s, shorter), labels[|labels| - 1]);
    } else {
      assert labels[..i] == labels;
    }
  }

  // ----- Latest over whole runs -----

  function MainStables(finalized: seq<(Version, ReleaseLine)>): (versions: seq<Version>)
    ensures forall v :: v in versions <==> exists e :: e in finalized && MainStable(e) && e.0 == v
  {
    if finalized == [] then []
    else
      var (last, rest) := (finalized[|finalized| - 1], finalized[..|finalized| - 1]);
      assert forall e :: e in finalized <==> e in rest || e == last;
      MainStables(rest) + (if MainStable(last) then [last.0] else [])
  }

  /** Latest is always the greatest stable version that a main-line finalization released. */
  lemma LatestIsGreatest(w: World, s: State, labels: seq<Label>)
    requires Inv(w, s)
    ensures var now := Exec(w, s, labels);
            var greatest := Greatest(MainStables(now.finalized));
            && (now.server.latest.None? <==> greatest.None?)
            && (greatest.Some? ==> now.server.latest.value.tag == Family(greatest.value))
  {
    Reachable(w, s, labels);
    var now := Exec(w, s, labels);
    hide Exec;
    var greatest := Greatest(MainStables(now.finalized));
    if now.server.latest.Some? {
      var top := now.server.latest.value.tag.version;
      assert MainStable((top, Main)) && top in MainStables(now.finalized);
      var e :| e in now.finalized && MainStable(e) && e.0 == greatest.value;
      PrecedenceIsTotalOrder(top, greatest.value, top);
      assert ReleaseStaged(w, now.server, top) && ReleaseStaged(w, now.server, greatest.value);
      assert top.(build := "") == top && greatest.value.(build := "") == greatest.value;
    } else {
      assert forall e :: e in now.finalized ==> !MainStable(e);
    }
  }

  predicate LatestAtMost(before: Option<Latest>, after: Option<Latest>) {
    before.Some? ==>
      && before.value.tag.Family? && after.Some? && after.value.tag.Family?
      && AtMost(before.value.tag.version, after.value.tag.version)
  }

  /** Only a Release call whose guard chose to advance writes Latest. */
  lemma StepWritesLatest(w: World, s: State, step: Label)
    ensures var after := Apply(w, s, step).server.latest;
            after == s.server.latest
            || (s.client.Running? && s.client.pc.PostRelease? && s.client.pc.guard.advance
                && after.Some? && after.value.tag == Family(s.client.job.version))
  {
    hide Next, Answer;
  }

  /** A guard that advances does so for a stable main-line version above the Latest it saw. */
  lemma AdvanceIsUpward(line: ReleaseLine, v: Version, before: Option<Latest>)
    requires Capture(line, v, before).Ok? && Capture(line, v, before).value.advance
    ensures MakeLatest(line, v)
    ensures before.Some? ==> before.value.tag.Family? && Precedes(before.value.tag.version, v)
  {
  }

  /** Latest moves only up, and only through a stable main-line Release. */
  lemma StepRaisesLatest(w: World, s: State, step: Label)
    requires Inv(w, s)
    ensures LatestAtMost(s.server.latest, Apply(w, s, step).server.latest)
    ensures Apply(w, s, step).server.latest != s.server.latest ==>
              && s.client.Running? && s.client.pc.PostRelease?
              && MakeLatest(s.client.job.binding.line, s.client.job.version)
  {
    StepWritesLatest(w, s, step);
    LatestReflexive(w, s);
    CapturedAt(w, s);
    hide *;
    if Apply(w, s, step).server.latest != s.server.latest {
      var job := s.client.job;
      AdvanceIsUpward(job.binding.line, job.version, s.server.latest);
      FamilyAtMost(s.server.latest, Apply(w, s, step).server.latest, job.version);
    }
  }

  lemma CapturedAt(w: World, s: State)
    requires Inv(w, s)
    ensures s.client.Running? && s.client.pc.PostRelease? ==>
              var Running(job, pc) := s.client;
              Capture(job.binding.line, job.version, s.server.latest) == Ok(pc.guard)
  {
    hide Staged, LatestInOrder, MainLine.ValidSelection, Capture;
  }

  lemma FamilyAtMost(before: Option<Latest>, after: Option<Latest>, v: Version)
    requires before.Some? ==> before.value.tag.Family? && Precedes(before.value.tag.version, v)
    requires after.Some? && after.value.tag == Family(v)
    ensures LatestAtMost(before, after)
  {
  }

  lemma {:induction false} LatestNeverFalls(w: World, s: State, labels: seq<Label>, i: nat)
    requires Inv(w, s) && i <= |labels|
    ensures LatestAtMost(Exec(w, s, labels[..i]).server.latest, Exec(w, s, labels).server.latest)
    decreases |labels|
  {
    var before := Exec(w, s, labels[..i]).server.latest;
    if i < |labels| {
      var shorter := labels[..|labels| - 1];
      assert labels[..i] == shorter[..i];
      LatestNeverFalls(w, s, shorter, i);
      Reachable(w, s, shorter);
      StepRaisesLatest(w, Exec(w, s, shorter), labels[|labels| - 1]);
      LatestTransitive(before, Exec(w, s, shorter).server.latest, Exec(w, s, labels).server.latest);
    } else {
      assert labels[..i] == labels;
      Reachable(w, s, labels);
      LatestReflexive(w, Exec(w, s, labels));
    }
  }

  lemma LatestTransitive(a: Option<Latest>, b: Option<Latest>, c: Option<Latest>)
    requires LatestAtMost(a, b) && LatestAtMost(b, c)
    ensures LatestAtMost(a, c)
  {
    if a.Some? {
      PrecedenceIsTotalOrder(a.value.tag.version, b.value.tag.version, c.value.tag.version);
    }
  }

  lemma LatestReflexive(w: World, s: State)
    requires Inv(w, s)
    ensures LatestAtMost(s.server.latest, s.server.latest)
  {
    if s.server.latest.Some? {
      PrecedenceDichotomy(s.server.latest.value.tag.version, s.server.latest.value.tag.version);
    }
  }

  // ----- Qualification of what a finalizer left behind -----

  datatype Mode = Push | DispatchRelease | Validate | Resume | Requalify

  datatype Verdict =
    | ValidationOnly
    | Qualified(published: bool)
    | BadArchive
    | NothingPublished
    | AlreadyPublished
    | ConflictingObjects
    | ObjectsWithoutCrate
    | ReleaseWithoutTag
    | AppearedMeanwhile

  function InspectTag(w: World, job: Job, server: Server): Result<Option<nat>> {
    if job.version !in server.refs then Ok(None)
    else
      var reference := server.refs[job.version];
      if reference.kind != TagKind || reference.id >= |server.objects| then Err
      else if !ValidTagObject(w, job, server.objects[reference.id]) then Err
      else Ok(Some(reference.id))
  }

  function InspectRelease(w: World, job: Job, server: Server): Result<bool> {
    if job.version !in server.releases then Ok(false)
    else if ValidRelease(w, job, server.releases[job.version]) then Ok(true) else Err
  }

  /**
   * The registry, tag and Release checks of `qualify`, each reading the server
   * at its own time. Validation returns before them.
   */
  function QualifyState(w: World, job: Job, mode: Mode, atArchive: Server, atTag: Server, atRelease: Server): Verdict {
    var v := job.version;
    var published := v in atArchive.registry;
    if mode == Validate then ValidationOnly
    else if published && (v in atArchive.yanked || atArchive.registry[v] != job.binding.source) then BadArchive
    else if mode == Resume && !published then NothingPublished
    else if mode == DispatchRelease && published then AlreadyPublished
    else match (InspectTag(w, job, atTag), InspectRelease(w, job, atRelease))
      case (Ok(tag), Ok(release)) =>
        if (tag.Some? || release) && !published then ObjectsWithoutCrate
        else if release && tag.None? then ReleaseWithoutTag
        else if mode == Requalify && published then AppearedMeanwhile
        else Qualified(published)
      case _ => ConflictingObjects
  }

  /**
   * Exactly what qualifies: the archive is absent or this source's and allowed
   * by the mode, whatever tag or Release is there is the exact one, and each
   * stage presupposes the one before it.
   */
  lemma QualifiesIff(
    w: World, job: Job, mode: Mode, atArchive: Server, atTag: Server, atRelease: Server, published: bool)
    ensures QualifyState(w, job, mode, atArchive, atTag, atRelease) == Qualified(published) <==>
              var v, source := job.version, job.binding.source;
              && mode != Validate
              && (published <==> v in atArchive.registry)
              && (published ==> mode != DispatchRelease && mode != Requalify
                                && v !in atArchive.yanked && atArchive.registry[v] == source)
              && (!published ==> mode != Resume && v !in atTag.refs && v !in atRelease.releases)
              && (v in atRelease.releases ==> v in atTag.refs)
              && (v in atTag.refs ==>
                    && atTag.refs[v].kind == TagKind && atTag.refs[v].id < |atTag.objects|
                    && atTag.objects[atTag.refs[v].id] == TagOf(w, v, source))
              && (v in atRelease.releases ==>
                    var release := atRelease.releases[v];
                    release.id != 0 && release == ReleaseOf(w, v, source, release.id, true))
  {
    var v := job.version;
    if v in atTag.refs && atTag.refs[v].id < |atTag.objects| {
      ValidTagIff(w, job, atTag.objects[atTag.refs[v].id]);
    }
    if v in atRelease.releases {
      ValidReleaseIff(w, job, atRelease.releases[v]);
    }
    hide ValidTagObject, ValidRelease, TagOf, ReleaseOf;
  }

  /** The verdict that looks at the registry alone. */
  function RegistryVerdict(job: Job, mode: Mode, server: Server): Verdict {
    var v := job.version;
    if mode == Validate then ValidationOnly
    else if v in server.registry then
      if v in server.yanked || server.registry[v] != job.binding.source then BadArchive
      else if mode == DispatchRelease then AlreadyPublished
      else if mode == Requalify then AppearedMeanwhile
      else Qualified(true)
    else if mode == Resume then NothingPublished
    else Qualified(false)
  }

  function MoveAll(server: Server, moves: seq<Move>): Server {
    if moves == [] then server else Moved(MoveAll(server, moves[..|moves| - 1]), moves[|moves| - 1])
  }

  lemma {:induction false} MovesExtend(server: Server, moves: seq<Move>)
    ensures Extends(server, MoveAll(server, moves))
    ensures MoveAll(server, moves).refs == server.refs && MoveAll(server, moves).releases == server.releases
    decreases |moves|
  {
    hide Moved;
    if moves != [] {
      MovesExtend(server, moves[..|moves| - 1]);
      MoveExtends(MoveAll(server, moves[..|moves| - 1]), moves[|moves| - 1]);
    }
  }

  lemma TagInspection(w: World, job: Job, before: Server, after: Server)
    requires job.version in before.refs ==> TagStaged(w, before, job.version)
    requires Extends(before, after) && after.refs == before.refs
    ensures job.version !in before.refs ==> InspectTag(w, job, after) == Ok(None)
    ensures job.version in before.refs && before.registry[job.version] == job.binding.source ==>
              InspectTag(w, job, after) == Ok(Some(before.refs[job.version].id))
  {
  }

  lemma ReleaseInspection(w: World, job: Job, before: Server, after: Server)
    requires job.version in before.releases ==> ReleaseStaged(w, before, job.version)
    requires after.releases == before.releases
    ensures job.version !in before.releases ==> InspectRelease(w, job, after) == Ok(false)
    ensures job.version in before.releases && before.registry[job.version] == job.binding.source ==>
              InspectRelease(w, job, after) == Ok(true)
  {
  }

  /** With stages in order, inspection finds nothing to object to. */
  lemma OrderlyQualifies(w: World, job: Job, mode: Mode, now: Server, atTag: Server, atRelease: Server)
    requires job.version in now.refs ==> TagStaged(w, now, job.version)
    requires job.version in now.releases ==> ReleaseStaged(w, now, job.version)
    requires Extends(now, atTag) && atTag.refs == now.refs && atRelease.releases == now.releases
    ensures QualifyState(w, job, mode, now, atTag, atRelease) == RegistryVerdict(job, mode, now)
  {
    TagInspection(w, job, now, atTag);
    ReleaseInspection(w, job, now, atRelease);
    hide InspectTag, InspectRelease, Extends;
  }

  /**
   * Whatever a crashed or finished finalizer left, and however others change
   * the server between the three reads, no check of forge objects rejects:
   * the verdict is the registry's alone.
   */
  lemma OwnStateQualifies(
    w: World, s: State, labels: seq<Label>, job: Job, mode: Mode, toTag: seq<Move>, toRelease: seq<Move>)
    requires Inv(w, s) && !Exec(w, s, labels).client.Running?
    ensures var now := Exec(w, s, labels).server;
            var atTag := MoveAll(now, toTag);
            QualifyState(w, job, mode, now, atTag, MoveAll(atTag, toRelease)) == RegistryVerdict(job, mode, now)
  {
    hide *;
    StagesInOrder(w, s, labels, job.version);
    var now := Exec(w, s, labels).server;
    var atTag := MoveAll(now, toTag);
    MovesExtend(now, toTag);
    MovesExtend(atTag, toRelease);
    OrderlyQualifies(w, job, mode, now, atTag, MoveAll(atTag, toRelease));
  }

  // ----- Every job makes a bounded number of calls -----

  function RebindLeft(k: After): nat {
    match k
    case Begin => 46
    case BeforeTag => 37
    case BeforeObject => 29
    case BeforeRef(_) => 22
    case BeforeRelease(_, _) => 9
  }

  function LookLeft(why: Look): nat {
    match why
    case Find => 37
    case AfterRefError(_) => 21
    case Confirm(_) => 19
    case Existing(_, _) => 3
    case Exact(_, _) => 9
    case Retained(_, _) => 3
  }

  /** Calls that a client at this point can still make. */
  function CallsLeft(pc: Pc): nat {
    match pc
    case RebindBase(k) => RebindLeft(k) + 6
    case RebindLineage(k, _) => RebindLeft(k) + 5
    case RebindSource(k, _) => RebindLeft(k) + 4
    case RebindTip(k, _) => RebindLeft(k) + 3
    case RebindAgain(k, _) => RebindLeft(k) + 2
    case RebindMain(k, _) => RebindLeft(k) + 1
    case CheckArchive => 46
    case CheckScope => 45
    case CheckCommit => 44
    case LookRef(why) => LookLeft(why)
    case LookObject(why, _) => LookLeft(why) - 1
    case PostObject => 29
    case PostRef(_) => 22
    case CaptureLatest(_) => 17
    case LookRelease(check, _, _) => if check == First then 16 else if check == AfterError then 5 else 4
    case SameLatest(_, _) => 7
    case PostRelease(_, _) => 6
    case VerifyLatest(_) => 1
  }

  /** The client is still on this job with fewer calls left than before. */
  predicate Shrinks(client: Client, job: Job, before: nat) {
    client.Running? ==> client.job == job && CallsLeft(client.pc) < before
  }

  lemma RebindShrinks(w: World, job: Job, pc: Pc, reply: Reply)
    requires pc.RebindBase? || pc.RebindLineage? || pc.RebindSource? || pc.RebindTip?
             || pc.RebindAgain? || pc.RebindMain?
    ensures Shrinks(Next(w, job, pc, reply), job, CallsLeft(pc))
  {
    hide OnLineage, Anchored;
  }

  lemma OtherShrinks(w: World, job: Job, pc: Pc, reply: Reply)
    requires !(pc.RebindBase? || pc.RebindLineage? || pc.RebindSource? || pc.RebindTip?
               || pc.RebindAgain? || pc.RebindMain?)
    ensures Shrinks(Next(w, job, pc, reply), job, CallsLeft(pc))
  {
    hide ValidTagObject, ValidRelease, ObserveLatest, Capture, LatestAsIntended;
  }

  lemma CallsLeftRange(pc: Pc)
    ensures 0 < CallsLeft(pc) <= 52
  {
  }

  /** Each call brings the client closer to its end, whatever the reply: at most 52 calls in all. */
  lemma CallsAreBounded(w: World, job: Job, pc: Pc, reply: Reply)
    ensures 0 < CallsLeft(pc) <= 52
    ensures Next(w, job, pc, reply).Running? ==>
              Next(w, job, pc, reply).job == job && CallsLeft(Next(w, job, pc, reply).pc) < CallsLeft(pc)
  {
    hide Next, CallsLeft;
    CallsLeftRange(pc);
    if pc.RebindBase? || pc.RebindLineage? || pc.RebindSource? || pc.RebindTip? || pc.RebindAgain? || pc.RebindMain? {
      RebindShrinks(w, job, pc, reply);
    } else {
      OtherShrinks(w, job, pc, reply);
    }
  }

  /** The calls logged since the last start. */
  function JobCalls(log: seq<Event>): nat {
    if log == [] || log[|log| - 1].Started? then 0
    else JobCalls(log[..|log| - 1]) + (if log[|log| - 1].Called? then 1 else 0)
  }

  /** What the client has called in this job and can still call. */
  predicate WithinBudget(s: State) {
    JobCalls(s.log) + (if s.client.Running? then CallsLeft(s.client.pc) else 0) <= 52
  }

  lemma StepWithinBudget(w: World, s: State, step: Label)
    requires WithinBudget(s)
    ensures WithinBudget(Apply(w, s, step))
    ensures s.log <= Apply(w, s, step).log && |Apply(w, s, step).log| <= |s.log| + 1
  {
    match step
    case Turn(o) =>
      if s.client.Running? {
        var Running(job, pc) := s.client;
        var reply := Handle(w, s.server, Ask(w, job, pc), o).1;
        TurnIs(w, s, o);
        CallsAreBounded(w, job, pc, reply);
        hide CallsLeft, Next, Handle, Apply;
        assert (s.log + [Called(job, Ask(w, job, pc), reply)])[..|s.log|] == s.log;
      }
    case Start(job) =>
      hide Next, Handle;
    case Crash =>
      hide Next, Handle;
      assert (s.log + [Crashed])[..|s.log|] == s.log;
    case Env(_) =>
  }

  /** In every run each job makes at most 52 calls before it ends, crashes or another starts. */
  lemma {:induction false} JobsAreBounded(w: World, s: State, labels: seq<Label>, i: nat)
    requires s.client == Idle && s.log == []
    ensures WithinBudget(Exec(w, s, labels))
    ensures i <= |Exec(w, s, labels).log| ==> JobCalls(Exec(w, s, labels).log[..i]) <= 52
    decreases |labels|
  {
    hide Apply, CallsLeft;
    if labels != [] {
      var before, step := Exec(w, s, labels[..|labels| - 1]), labels[|labels| - 1];
      JobsAreBounded(w, s, labels[..|labels| - 1], i);
      StepWithinBudget(w, before, step);
      var log, after := before.log, Exec(w, s, labels).log;
      if i <= |log| {
        assert after[..i] == log[..i];
      } else if i <= |after| {
        assert after[..i] == after;
      }
    }
  }
}
