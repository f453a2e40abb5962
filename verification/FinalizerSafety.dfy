/** What every reachable state of the finalizer keeps, through crashes and lost replies. */
module FinalizerSafety {
  import opened Finalizer
  import opened ReleasePolicy
  import opened SemVer
  import opened Wrappers

  // ----- Stage order: Release, then exact tag, then published archive -----

  predicate TagStaged(w: World, server: Server, v: Version) {
    && v in server.refs && v in server.registry
    && server.refs[v].kind == TagKind && server.refs[v].id < |server.objects|
    && server.objects[server.refs[v].id] == ExpectedTag(w, v, server.registry[v])
  }

  predicate ReleaseStaged(w: World, server: Server, v: Version) {
    && TagStaged(w, server, v) && v in server.releases && v.build == ""
    && server.releases[v].id != 0
    && server.releases[v] == ExpectedRelease(w, v, server.registry[v], server.releases[v].id)
  }

  ghost predicate Staged(w: World, server: Server) {
    && (forall v :: v in server.refs ==> TagStaged(w, server, v))
    && (forall v :: v in server.releases ==> ReleaseStaged(w, server, v))
  }

  /**
   * A tag, spelled out: it names an annotated object that puts the version on
   * the commit its published archive records, by the App and with that
   * commit's date.
   */
  predicate TagSpelled(w: World, server: Server, v: Version) {
    && v in server.registry && v in server.refs && server.refs[v].kind == TagKind
    && server.refs[v].id < |server.objects|
    && var tag := server.objects[server.refs[v].id];
       && tag.kind == CommitKind && tag.target == server.registry[v]
       && tag.tag == v && tag.message == v
       && tag.tagger == App && tag.date == w.date(server.registry[v])
  }

  /** A Release, spelled out: that commit, that version's name and body, and nothing to change or download. */
  predicate ReleaseSpelled(w: World, server: Server, v: Version) {
    && TagSpelled(w, server, v) && v in server.releases
    && var release := server.releases[v];
       && release.target == server.registry[v] && release.tag == v && release.name == v
       && release.body == w.body(server.registry[v], v)
       && (release.prerelease <==> v.pre != [])
       && !release.draft && release.immutable && release.assets == 0
       && release.author == App && release.id != 0
  }

  lemma StagedIsSpelled(w: World, server: Server, v: Version)
    ensures TagStaged(w, server, v) <==> TagSpelled(w, server, v)
    ensures ReleaseStaged(w, server, v) <==> ReleaseSpelled(w, server, v) && v.build == ""
  {
  }

  // ----- Latest is the greatest main-line stable -----

  predicate MainStable(entry: (Version, ReleaseLine)) { entry.1 == Main && entry.0.pre == [] }

  /** `finalized` lists each released version once, and Latest is its greatest main-line stable. */
  ghost predicate LatestInOrder(server: Server, finalized: seq<(Version, ReleaseLine)>) {
    && (forall i, j :: 0 <= i < j < |finalized| ==> finalized[i].0 != finalized[j].0)
    && (forall e :: e in finalized ==> e.0 in server.releases)
    && (forall v :: v in server.releases ==> exists e :: e in finalized && e.0 == v)
    && (server.latest.None? ==> forall e :: e in finalized ==> !MainStable(e))
    && (server.latest.Some? ==>
          && server.latest.value.tag.Family?
          && var v := server.latest.value.tag.version;
             && (v, Main) in finalized && v.pre == [] && v in server.releases
             && server.latest.value.id == server.releases[v].id
             && forall e :: e in finalized && MainStable(e) ==> AtMost(e.0, v))
  }

  // ----- What a running client knows -----

  predicate Published(server: Server, job: Job) {
    job.version in server.registry && server.registry[job.version] == job.binding.source
  }

  predicate HasObject(w: World, server: Server, job: Job, id: nat) {
    id < |server.objects| && server.objects[id] == ExpectedTag(w, job.version, job.binding.source)
  }

  predicate HasTag(server: Server, job: Job, id: nat) {
    job.version in server.refs && server.refs[job.version] == Reference(TagKind, id)
  }

  predicate Captured(server: Server, job: Job, guard: Guard) {
    guard.before == server.latest && Capture(job.binding.line, job.version, server.latest) == Ok(guard)
  }

  predicate ReadyToRelease(server: Server, job: Job, tag: nat, guard: Guard) {
    Published(server, job) && HasTag(server, job, tag) && Captured(server, job, guard)
    && job.version !in server.releases
  }

  predicate Continues(w: World, server: Server, job: Job, k: After) {
    match k
    case Begin => true
    case BeforeTag => Published(server, job)
    case BeforeObject => Published(server, job) && job.version !in server.refs
    case BeforeRef(id) => Published(server, job) && job.version !in server.refs && HasObject(w, server, job, id)
    case BeforeRelease(tag, guard) => ReadyToRelease(server, job, tag, guard)
  }

  predicate Inspects(w: World, server: Server, job: Job, why: Look) {
    match why
    case Find => Published(server, job)
    case AfterRefError(id) => Published(server, job) && HasObject(w, server, job, id)
    case Confirm(id) => Published(server, job) && HasObject(w, server, job, id)
    case Existing(tag, _) => Published(server, job) && HasTag(server, job, tag) && job.version in server.releases
    case Exact(tag, guard) => ReadyToRelease(server, job, tag, guard)
    case Retained(tag, _) => Published(server, job) && HasTag(server, job, tag) && job.version in server.releases
  }

  predicate Knows(w: World, server: Server, job: Job, pc: Pc) {
    match pc
    case RebindBase(k) => Continues(w, server, job, k)
    case RebindLineage(k, _) => Continues(w, server, job, k)
    case RebindSource(k, _) => Continues(w, server, job, k)
    case RebindTip(k, _) => Continues(w, server, job, k)
    case RebindAgain(k, _) => Continues(w, server, job, k)
    case RebindMain(k, _) => Continues(w, server, job, k)
    case CheckArchive => true
    case CheckScope => Published(server, job)
    case CheckCommit => Published(server, job)
    case LookRef(why) => Inspects(w, server, job, why)
    case LookObject(why, id) => Inspects(w, server, job, why) && HasTag(server, job, id)
    case PostObject => Published(server, job) && job.version !in server.refs
    case PostRef(id) => Published(server, job) && job.version !in server.refs && HasObject(w, server, job, id)
    case CaptureLatest(tag) => Published(server, job) && HasTag(server, job, tag)
    case LookRelease(check, tag, guard) =>
      Published(server, job) && HasTag(server, job, tag) && (check == First ==> Captured(server, job, guard))
    case SameLatest(tag, guard) => ReadyToRelease(server, job, tag, guard)
    case PostRelease(tag, guard) => ReadyToRelease(server, job, tag, guard)
    case VerifyLatest(_) => Published(server, job) && job.version in server.releases
  }

  ghost predicate ClientKnows(w: World, server: Server, client: Client) {
    match client
    case Idle => true
    case Running(job, pc) => MainLine.ValidSelection(job.version) && Knows(w, server, job, pc)
    case Done(job, ok) => ok ==> Published(server, job) && job.version in server.releases
  }

  ghost predicate Inv(w: World, s: State) {
    && Staged(w, s.server)
    && LatestInOrder(s.server, s.finalized)
    && ClientKnows(w, s.server, s.client)
  }

  // ----- Each step keeps it -----

  /** Registry entries, tag objects and tag refs are only ever added. */
  ghost predicate Extends(before: Server, after: Server) {
    && (forall v :: v in before.registry ==> v in after.registry && after.registry[v] == before.registry[v])
    && before.objects <= after.objects
    && (forall v :: v in before.refs ==> v in after.refs && after.refs[v] == before.refs[v])
  }

  lemma StagedExtends(w: World, before: Server, after: Server)
    requires Staged(w, before) && Extends(before, after) && after.releases == before.releases
    requires forall v :: v in after.refs && v !in before.refs ==> TagStaged(w, after, v)
    ensures Staged(w, after)
  {
    forall v | v in after.refs ensures TagStaged(w, after, v) {
      assert v in before.refs ==> TagStaged(w, before, v);
    }
    forall v | v in after.releases ensures ReleaseStaged(w, after, v) {
      assert ReleaseStaged(w, before, v);
    }
  }

  lemma OrderUnchanged(before: Server, after: Server, finalized: seq<(Version, ReleaseLine)>)
    requires LatestInOrder(before, finalized)
    requires after.releases == before.releases && after.latest == before.latest
    ensures LatestInOrder(after, finalized)
  {
  }

  lemma MoveExtends(server: Server, move: Move)
    ensures Extends(server, Moved(server, move))
    ensures Moved(server, move).refs == server.refs && Moved(server, move).releases == server.releases
    ensures Moved(server, move).latest == server.latest
  {
  }

  /** What a client relies on survives: its archive, its objects, its tag, and what others cannot touch. */
  lemma FactsSurviveMove(w: World, server: Server, move: Move, job: Job)
    ensures var after := Moved(server, move);
            && (Published(server, job) ==> Published(after, job))
            && (forall id :: HasObject(w, server, job, id) ==> HasObject(w, after, job, id))
            && (forall id :: HasTag(server, job, id) <==> HasTag(after, job, id))
            && (forall guard :: Captured(server, job, guard) <==> Captured(after, job, guard))
            && after.refs == server.refs && after.releases == server.releases
  {
    hide Capture;
  }

  lemma KnowsSurvivesMove(w: World, server: Server, move: Move, job: Job, pc: Pc)
    requires Knows(w, server, job, pc)
    ensures Knows(w, Moved(server, move), job, pc)
  {
    FactsSurviveMove(w, server, move, job);
    hide Published, HasObject, HasTag, Captured, Moved;
  }

  lemma EnvKeepsInv(w: World, s: State, move: Move)
    requires Inv(w, s)
    ensures Inv(w, Apply(w, s, Env(move)))
  {
    hide Staged, LatestInOrder, Knows, Extends, Moved, MainLine.ValidSelection;
    var after := Moved(s.server, move);
    MoveExtends(s.server, move);
    StagedExtends(w, s.server, after);
    OrderUnchanged(s.server, after, s.finalized);
    if s.client.Running? {
      KnowsSurvivesMove(w, s.server, move, s.client.job, s.client.pc);
    }
  }

  /** A tag that inspection accepts is the retained exact one. */
  lemma ReadKeepsKnowledge(w: World, server: Server, job: Job, pc: Pc, o: Outcome)
    requires !Creates(Ask(w, job, pc)) && Knows(w, server, job, pc) && MainLine.ValidSelection(job.version)
    ensures ClientKnows(w, server, Next(w, job, pc, Handle(w, server, Ask(w, job, pc), o).1))
  {
    hide Precedes, MainLine.ValidSelection, Provenance.Compare;
  }

  lemma ObjectKeepsInv(w: World, s: State, o: Outcome)
    requires Inv(w, s) && s.client.Running? && s.client.pc.PostObject?
    ensures Inv(w, Apply(w, s, Turn(o)))
  {
    hide Staged, LatestInOrder, MainLine.ValidSelection;
    var after := Apply(w, s, Turn(o)).server;
    StagedExtends(w, s.server, after);
    OrderUnchanged(s.server, after, s.finalized);
  }

  lemma RefKeepsInv(w: World, s: State, o: Outcome)
    requires Inv(w, s) && s.client.Running? && s.client.pc.PostRef?
    ensures Inv(w, Apply(w, s, Turn(o)))
  {
    hide Staged, LatestInOrder, MainLine.ValidSelection;
    var after := Apply(w, s, Turn(o)).server;
    StagedExtends(w, s.server, after);
    OrderUnchanged(s.server, after, s.finalized);
  }

  /** What an applied Release creation does to the server. */
  function WithRelease(server: Server, made: Release, makeLatest: bool): Server {
    server.(releases := server.releases[made.tag := made], issued := server.issued + 1,
            latest := if makeLatest then Some(Latest(made.id, Family(made.tag))) else server.latest)
  }

  /** Latest chosen by the guard is the greatest main-line stable, the new Release included. */
  lemma NewReleaseInOrder(
    server: Server, finalized: seq<(Version, ReleaseLine)>, line: ReleaseLine, guard: Guard, made: Release)
    requires LatestInOrder(server, finalized) && made.tag !in server.releases && made.tag.build == ""
    requires guard.before == server.latest && Capture(line, made.tag, server.latest) == Ok(guard)
    requires server.latest.Some? ==> server.latest.value.tag.Family? && server.latest.value.tag.version.build == ""
    ensures LatestInOrder(WithRelease(server, made, guard.advance), finalized + [(made.tag, line)])
  {
    hide AtMost, Precedes;
    var v, after := made.tag, finalized + [(made.tag, line)];
    assert (v, line) in after && forall e :: e in finalized ==> e in after;
    PrecedenceDichotomy(v, v);
    if server.latest.Some? {
      var top := server.latest.value.tag.version;
      PrecedenceDichotomy(top, v);
      forall e | e in finalized && MainStable(e) && guard.advance ensures AtMost(e.0, v) {
        PrecedenceIsTotalOrder(e.0, top, v);
      }
    }
  }

  /** The Release call either changes nothing or stores exactly the expected Release. */
  lemma ReleaseEffect(w: World, s: State, o: Outcome)
    requires s.client.Running? && s.client.pc.PostRelease? && s.client.job.version !in s.server.releases
    ensures var Running(job, pc) := s.client;
            var made := ExpectedRelease(w, job.version, job.binding.source, s.server.issued + 1);
            var after := Apply(w, s, Turn(o));
            || (after.server == s.server && after.finalized == s.finalized)
            || (after.server == WithRelease(s.server, made, pc.guard.advance)
                && after.finalized == s.finalized + [(job.version, job.binding.line)])
  {
  }

  lemma ReleaseKnows(w: World, s: State, o: Outcome)
    requires ClientKnows(w, s.server, s.client) && s.client.Running? && s.client.pc.PostRelease?
    ensures ClientKnows(w, Apply(w, s, Turn(o)).server, Apply(w, s, Turn(o)).client)
  {
    hide MainLine.ValidSelection, Capture;
  }

  lemma ReleaseKeepsInv(w: World, s: State, o: Outcome)
    requires Inv(w, s) && s.client.Running? && s.client.pc.PostRelease?
    ensures Inv(w, Apply(w, s, Turn(o)))
  {
    var Running(job, pc) := s.client;
    BuildFree(job.version);
    assert TagStaged(w, s.server, job.version);
    LatestBuildFree(w, s);
    ReleaseEffect(w, s, o);
    ReleaseKnows(w, s, o);
    hide MainLine.ValidSelection, LatestInOrder, Staged, Capture, Apply, ClientKnows;
    var made := ExpectedRelease(w, job.version, job.binding.source, s.server.issued + 1);
    NewReleaseInOrder(s.server, s.finalized, job.binding.line, pc.guard, made);
    ReleaseKeepsStages(w, s.server, made, pc.guard.advance);
  }

  lemma LatestBuildFree(w: World, s: State)
    requires Inv(w, s)
    ensures s.server.latest.Some? ==>
              s.server.latest.value.tag.Family? && s.server.latest.value.tag.version.build == ""
  {
    if s.server.latest.Some? {
      assert ReleaseStaged(w, s.server, s.server.latest.value.tag.version);
    }
  }

  lemma BuildFree(v: Version)
    requires MainLine.ValidSelection(v)
    ensures v.build == ""
  {
  }

  lemma ReleaseKeepsStages(w: World, before: Server, made: Release, makeLatest: bool)
    requires Staged(w, before) && TagStaged(w, before, made.tag) && made.tag.build == "" && made.id != 0
    requires made == ExpectedRelease(w, made.tag, before.registry[made.tag], made.id)
    ensures Staged(w, WithRelease(before, made, makeLatest))
  {
    var after := WithRelease(before, made, makeLatest);
    forall v | v in after.refs ensures TagStaged(w, after, v) {
      assert TagStaged(w, before, v);
    }
    forall v | v in after.releases ensures ReleaseStaged(w, after, v) {
      assert v == made.tag || ReleaseStaged(w, before, v);
    }
  }

  lemma StepKeepsInv(w: World, s: State, step: Label)
    requires Inv(w, s)
    ensures Inv(w, Apply(w, s, step))
  {
    hide MainLine.ValidSelection, Staged, LatestInOrder, Next;
    match step
    case Env(move) => EnvKeepsInv(w, s, move);
    case Start(_) =>
    case Crash =>
    case Turn(o) =>
      if s.client.Running? {
        var Running(job, pc) := s.client;
        match pc
        case PostObject => ObjectKeepsInv(w, s, o);
        case PostRef(_) => RefKeepsInv(w, s, o);
        case PostRelease(_, _) => ReleaseKeepsInv(w, s, o);
        case _ => ReadKeepsKnowledge(w, s.server, job, pc, o);
      }
  }

  /** A server without any tag or Release, and no client, is one place to start from. */
  lemma InitialHolds(w: World, s: State)
    requires Initial(s)
    ensures Inv(w, s)
  {
  }

  lemma {:induction false} Reachable(w: World, s: State, labels: seq<Label>)
    requires Inv(w, s)
    ensures Inv(w, Exec(w, s, labels))
    decreases |labels|
  {
    if labels != [] {
      Reachable(w, s, labels[..|labels| - 1]);
      StepKeepsInv(w, Exec(w, s, labels[..|labels| - 1]), labels[|labels| - 1]);
    }
  }
}
