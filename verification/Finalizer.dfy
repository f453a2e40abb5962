/**
 * The release finalizer as a state machine: one client at a time, a server
 * that other actors also change, replies that can be lost, and crashes.
 */
module Finalizer {
  import opened CommitGraph
  import MainLine
  import opened Provenance
  import opened ReleasePolicy
  import opened SemVer
  import opened Wrappers

  // ----- Server objects -----

  datatype Kind = CommitKind | TagKind | OtherKind
  datatype Author = App | Somebody

  /** A version stands for its tag name: the prefix is fixed and version text is canonical. */
  datatype TagObject = TagObject(tag: Version, message: Version, kind: Kind, target: nat, tagger: Author, date: nat)
  datatype Reference = Reference(kind: Kind, id: nat)
  datatype Release = Release(
    id: nat, tag: Version, target: nat, name: Version, body: string, draft: bool, prerelease: bool,
    immutable: bool, author: Author, assets: nat)

  /** A tag name of the package family, or one that does not parse as such. */
  datatype TagName = Family(version: Version) | Foreign
  datatype Latest = Latest(id: nat, tag: TagName)

  /**
   * `objects` are the annotated tag objects by index, `registry` maps a
   * published version to the source its archive records, `issued` counts
   * Release identifiers.
   */
  datatype Server = Server(
    tips: map<ReleaseLine, nat>, registry: map<Version, nat>, yanked: set<Version>, objects: seq<TagObject>,
    refs: map<Version, Reference>, releases: map<Version, Release>, latest: Option<Latest>, issued: nat)

  /** What never changes: history, the API's merge-base choice, and what each source commit carries. */
  datatype World = World(
    graph: Graph, api: set<nat> -> nat, date: nat -> nat, body: (nat, Version) -> string, reviewed: set<nat>)

  /** One dispatched finalization: its version, its loaded binding, and whether its App identity is right. */
  datatype Job = Job(version: Version, binding: Binding, app: bool)

  // ----- Deterministic release policy -----

  function ExpectedTag(w: World, v: Version, source: nat): TagObject {
    TagObject(v, v, CommitKind, source, App, w.date(source))
  }

  function ExpectedRelease(w: World, v: Version, source: nat, id: nat): Release {
    Release(id, v, source, v, w.body(source, v), false, v.pre != [], true, App, 0)
  }

  predicate ValidTagObject(w: World, job: Job, tagObject: TagObject) {
    && tagObject.tag == job.version && tagObject.message == job.version
    && tagObject.kind == CommitKind && tagObject.target == job.binding.source
    && tagObject.tagger == App && tagObject.date == w.date(job.binding.source)
  }

  predicate ValidRelease(w: World, job: Job, release: Release) {
    && release.id != 0 && release.tag == job.version && release.target == job.binding.source
    && release.name == job.version && release.body == w.body(job.binding.source, job.version)
    && !release.draft && release.prerelease == (job.version.pre != [])
    && release.immutable && release.author == App && release.assets == 0
  }

  /** A tag object is valid for a job exactly if it is the App's tag of that version on the job's source commit. */
  lemma ValidTagIff(w: World, job: Job, tagObject: TagObject)
    ensures ValidTagObject(w, job, tagObject) <==> tagObject == TagOf(w, job.version, job.binding.source)
    ensures ExpectedTag(w, job.version, job.binding.source) == TagOf(w, job.version, job.binding.source)
  {
  }

  function TagOf(w: World, v: Version, source: nat): TagObject {
    TagObject(tag := v, message := v, kind := CommitKind, target := source, tagger := App, date := w.date(source))
  }

  /** A Release is valid for a job exactly if it is published, immutable, without assets, and this version's. */
  lemma ValidReleaseIff(w: World, job: Job, release: Release)
    ensures ValidRelease(w, job, release) <==>
              release.id != 0 && release == ReleaseOf(w, job.version, job.binding.source, release.id, true)
    ensures forall id :: ExpectedRelease(w, job.version, job.binding.source, id)
                           == ReleaseOf(w, job.version, job.binding.source, id, true)
  {
  }

  function ReleaseOf(w: World, v: Version, source: nat, id: nat, immutable: bool): Release {
    Release(id := id, tag := v, target := source, name := v, body := w.body(source, v), draft := false,
            prerelease := v.pre != [], immutable := immutable, author := App, assets := 0)
  }

  // ----- Latest -----

  datatype Guard = Guard(before: Option<Latest>, advance: bool)

  function ReleaseOrder(tag: TagName): Result<Version> {
    if tag.Family? && tag.version.build == "" then Ok(tag.version) else Err
  }

  /** `latest::read`: what was observed must be one canonical stable Release of the family. */
  function ObserveLatest(reply: Reply): Result<Option<Latest>> {
    match reply
    case Missing => Ok(None)
    case LatestAt(latest) =>
      (match ReleaseOrder(latest.tag)
       case Err => Err
       case Ok(v) => if latest.id == 0 || v.pre != [] then Err else Ok(Some(latest)))
    case _ => Err
  }

  function Capture(line: ReleaseLine, v: Version, before: Option<Latest>): Result<Guard> {
    if v.build != "" then Err
    else if line != Main && before.Some? && before.value.tag == Family(v) then Err
    else if before.None? then Ok(Guard(before, MakeLatest(line, v)))
    else match ReleaseOrder(before.value.tag)
      case Ok(current) => Ok(Guard(before, MakeLatest(line, v) && Precedes(current, v)))
      case Err => if MakeLatest(line, v) then Err else Ok(Guard(before, false))
  }

  /** What is observed is the reply's Latest, if it is one stable Release of the family, or that there is none. */
  lemma ObserveIff(reply: Reply, seen: Option<Latest>)
    ensures ObserveLatest(reply) == Ok(seen) <==>
              || (reply == Missing && seen == None)
              || (seen.Some? && reply == LatestAt(seen.value) && seen.value.id != 0 && seen.value.tag.Family?
                  && seen.value.tag.version.pre == [] && seen.value.tag.version.build == "")
  {
  }

  /**
   * The guard taken from an observed Latest. It refuses build metadata, and a
   * support job for the version that is Latest; it advances exactly for a
   * stable main-line version above Latest.
   */
  lemma CaptureIff(line: ReleaseLine, v: Version, before: Option<Latest>, guard: Guard)
    requires before.Some? ==> before.value.tag.Family? && before.value.tag.version.build == ""
    ensures Capture(line, v, before) == Ok(guard) <==>
              && v.build == "" && !(line.Support? && before.Some? && before.value.tag.version == v)
              && guard.before == before
              && (guard.advance <==> line == Main && v.pre == []
                                     && (before.Some? ==> Precedes(before.value.tag.version, v)))
  {
    hide Precedes;
  }

  /** A guard keeps the Latest it was made from. */
  lemma GuardRemembers(line: ReleaseLine, v: Version, before: Option<Latest>)
    ensures Capture(line, v, before).Ok? ==> Capture(line, v, before).value.before == before
  {
  }

  predicate LatestAsIntended(guard: Guard, v: Version, after: Option<Latest>) {
    if guard.advance then after.Some? && after.value.tag == Family(v) else after == guard.before
  }

  // ----- Calls -----

  datatype Call =
    | ReadBase(line: ReleaseLine)
    | CompareCommits(base: nat, head: nat)
    | ReadMain
    | ReadArchive(version: Version)
    | ReadScope
    | ReadCommit(source: nat)
    | ReadTagRef(version: Version)
    | ReadTagObject(id: nat)
    | ReadRelease(version: Version)
    | ReadLatest
    | CreateTagObject(tagObject: TagObject)
    | CreateTagRef(version: Version, id: nat)
    | CreateRelease(release: Release, makeLatest: bool)

  datatype Reply =
    | Failed
    | Missing
    | Tip(commit: nat)
    | Compared(comparison: Comparison)
    | Archive(source: nat)
    | Accepted
    | RefAt(reference: Reference)
    | ObjectAt(id: nat, tagObject: TagObject)
    | ReleaseAt(release: Release)
    | LatestAt(latest: Latest)

  predicate Creates(call: Call) { call.CreateTagObject? || call.CreateTagRef? || call.CreateRelease? }

  /** What a read returns when its reply arrives. */
  function Answer(w: World, server: Server, call: Call): Reply {
    match call
    case ReadBase(line) => if line in server.tips then Tip(server.tips[line]) else Failed
    case CompareCommits(base, head) =>
      (match Provenance.Compare(w.graph, w.api, base, head) case Ok(c) => Compared(c) case Err => Failed)
    case ReadMain => if Main in server.tips then Tip(server.tips[Main]) else Failed
    case ReadArchive(v) =>
      if v in server.registry && v !in server.yanked then Archive(server.registry[v]) else Failed
    case ReadScope => Accepted
    case ReadCommit(source) => if source in w.reviewed then Accepted else Failed
    case ReadTagRef(v) => if v in server.refs then RefAt(server.refs[v]) else Missing
    case ReadTagObject(id) => if id < |server.objects| then ObjectAt(id, server.objects[id]) else Failed
    case ReadRelease(v) => if v in server.releases then ReleaseAt(server.releases[v]) else Missing
    case ReadLatest => if server.latest.Some? then LatestAt(server.latest.value) else Missing
    case _ => Failed
  }

  /** How one call goes: whether a creation takes effect, an object it may reuse, whether the reply arrives. */
  datatype Outcome = Outcome(applied: bool, reuse: nat, delivered: bool)

  /** The server's side of one call. Refs and Releases are created only if absent. */
  function Handle(w: World, server: Server, call: Call, o: Outcome): (Server, Reply) {
    if !Creates(call) then (server, if o.delivered then Answer(w, server, call) else Failed)
    else if !o.applied then (server, Failed)
    else match call
      case CreateTagObject(tagObject) =>
        var reused := o.reuse < |server.objects| && server.objects[o.reuse] == tagObject;
        var id := if reused then o.reuse else |server.objects|;
        (if reused then server else server.(objects := server.objects + [tagObject]),
         if o.delivered then ObjectAt(id, tagObject) else Failed)
      case CreateTagRef(v, id) =>
        if v in server.refs || id >= |server.objects| then (server, Failed)
        else
          (server.(refs := server.refs[v := Reference(TagKind, id)]),
           if o.delivered then RefAt(Reference(TagKind, id)) else Failed)
      case CreateRelease(release, makeLatest) =>
        if release.tag in server.releases then (server, Failed)
        else
          var made := release.(id := server.issued + 1, immutable := true, author := App);
          (server.(releases := server.releases[release.tag := made], issued := server.issued + 1,
                   latest := if makeLatest then Some(Latest(made.id, Family(release.tag))) else server.latest),
           if o.delivered then ReleaseAt(made) else Failed)
      case _ => (server, Failed)
  }

  // ----- Client -----

  /** Where a successful rebind continues. */
  datatype After = Begin | BeforeTag | BeforeObject | BeforeRef(id: nat) | BeforeRelease(tag: nat, guard: Guard)

  /** Why the tag is inspected. */
  datatype Look =
    | Find
    | AfterRefError(id: nat)
    | Confirm(id: nat)
    | Existing(tag: nat, guard: Guard)
    | Exact(tag: nat, guard: Guard)
    | Retained(tag: nat, guard: Guard)

  /** Why the Release is inspected. */
  datatype Check = First | AfterError | Readback

  datatype Pc =
    | RebindBase(k: After)
    | RebindLineage(k: After, base: nat)
    | RebindSource(k: After, base: nat)
    | RebindTip(k: After, base: nat)
    | RebindAgain(k: After, base: nat)
    | RebindMain(k: After, base: nat)
    | CheckArchive
    | CheckScope
    | CheckCommit
    | LookRef(why: Look)
    | LookObject(why: Look, id: nat)
    | PostObject
    | PostRef(id: nat)
    | CaptureLatest(tag: nat)
    | LookRelease(check: Check, tag: nat, guard: Guard)
    | SameLatest(tag: nat, guard: Guard)
    | PostRelease(tag: nat, guard: Guard)
    | VerifyLatest(guard: Guard)

  datatype Client = Idle | Running(job: Job, pc: Pc) | Done(job: Job, ok: bool)

  /** The one call a client makes at each point. */
  function Ask(w: World, job: Job, pc: Pc): Call {
    var b, v := job.binding, job.version;
    match pc
    case RebindBase(_) => ReadBase(b.line)
    case RebindLineage(_, base) => CompareCommits(b.source, base)
    case RebindSource(_, base) => CompareCommits(b.source, b.main)
    case RebindTip(_, base) => CompareCommits(base, b.main)
    case RebindAgain(_, _) => ReadBase(b.line)
    case RebindMain(_, _) => ReadMain
    case CheckArchive => ReadArchive(v)
    case CheckScope => ReadScope
    case CheckCommit => ReadCommit(b.source)
    case LookRef(_) => ReadTagRef(v)
    case LookObject(_, id) => ReadTagObject(id)
    case PostObject => CreateTagObject(ExpectedTag(w, v, b.source))
    case PostRef(id) => CreateTagRef(v, id)
    case CaptureLatest(_) => ReadLatest
    case LookRelease(_, _, _) => ReadRelease(v)
    case SameLatest(_, _) => ReadLatest
    case PostRelease(_, guard) => CreateRelease(ExpectedRelease(w, v, b.source, 0).(immutable := false), guard.advance)
    case VerifyLatest(_) => ReadLatest
  }

  /** `Some(id)` for a retained exact tag, `None` for no tag; then the caller continues. */
  function TagSeen(job: Job, why: Look, seen: Option<nat>): Client {
    match why
    case Find => Running(job, if seen.Some? then CaptureLatest(seen.value) else RebindBase(BeforeObject))
    case AfterRefError(id) => if seen == Some(id) then Running(job, LookRef(Confirm(id))) else Done(job, false)
    case Confirm(id) => if seen == Some(id) then Running(job, CaptureLatest(id)) else Done(job, false)
    case Existing(tag, guard) => if seen == Some(tag) then Running(job, VerifyLatest(guard)) else Done(job, false)
    case Exact(tag, guard) => if seen == Some(tag) then Running(job, SameLatest(tag, guard)) else Done(job, false)
    case Retained(tag, guard) => if seen == Some(tag) then Running(job, VerifyLatest(guard)) else Done(job, false)
  }

  function ReleaseSeen(job: Job, check: Check, tag: nat, guard: Guard, seen: bool): Client {
    match check
    case First =>
      Running(job, if seen then LookRef(Existing(tag, guard)) else RebindBase(BeforeRelease(tag, guard)))
    case AfterError => if seen then Running(job, LookRelease(Readback, tag, guard)) else Done(job, false)
    case Readback => if seen then Running(job, LookRef(Retained(tag, guard))) else Done(job, false)
  }

  function Rebound(job: Job, k: After): Client {
    Running(job, match k
      case Begin => CheckArchive
      case BeforeTag => LookRef(Find)
      case BeforeObject => PostObject
      case BeforeRef(id) => PostRef(id)
      case BeforeRelease(tag, guard) => LookRef(Exact(tag, guard)))
  }

  /** What the client does with a reply. */
  function Next(w: World, job: Job, pc: Pc, reply: Reply): Client {
    var b, v, stop := job.binding, job.version, Done(job, false);
    match pc
    case RebindBase(k) =>
      if reply.Tip? && (b.operation == Fresh ==> reply.commit == b.source)
      then Running(job, RebindLineage(k, reply.commit)) else stop
    case RebindLineage(k, base) =>
      if reply.Compared? && OnLineage(Ok(reply.comparison), b.source)
      then Running(job, if b.anchor.Some? then RebindSource(k, base) else RebindAgain(k, base)) else stop
    case RebindSource(k, base) =>
      if reply.Compared? && b.anchor.Some? && Anchored(Ok(reply.comparison), b.source, b.anchor.value)
      then Running(job, RebindTip(k, base)) else stop
    case RebindTip(k, base) =>
      if reply.Compared? && b.anchor.Some? && Anchored(Ok(reply.comparison), base, b.anchor.value)
      then Running(job, RebindAgain(k, base)) else stop
    case RebindAgain(k, base) => if reply == Tip(base) then Running(job, RebindMain(k, base)) else stop
    case RebindMain(k, _) => if reply == Tip(b.main) then Rebound(job, k) else stop
    case CheckArchive => if reply == Archive(b.source) && job.app then Running(job, CheckScope) else stop
    case CheckScope => if reply == Accepted then Running(job, CheckCommit) else stop
    case CheckCommit => if reply == Accepted then Running(job, RebindBase(BeforeTag)) else stop
    case LookRef(why) =>
      (match reply
       case Missing => TagSeen(job, why, None)
       case RefAt(reference) => if reference.kind == TagKind then Running(job, LookObject(why, reference.id)) else stop
       case _ => stop)
    case LookObject(why, id) =>
      if reply.ObjectAt? && ValidTagObject(w, job, reply.tagObject) && reply.id == id
      then TagSeen(job, why, Some(id)) else stop
    case PostObject =>
      if reply.ObjectAt? && ValidTagObject(w, job, reply.tagObject)
      then Running(job, RebindBase(BeforeRef(reply.id))) else stop
    case PostRef(id) => Running(job, LookRef(if reply.RefAt? then Confirm(id) else AfterRefError(id)))
    case CaptureLatest(tag) =>
      (match ObserveLatest(reply)
       case Err => stop
       case Ok(before) =>
         match Capture(b.line, v, before)
         case Err => stop
         case Ok(guard) => Running(job, LookRelease(First, tag, guard)))
    case LookRelease(check, tag, guard) =>
      (match reply
       case Missing => ReleaseSeen(job, check, tag, guard, false)
       case ReleaseAt(release) =>
         if ValidRelease(w, job, release) then ReleaseSeen(job, check, tag, guard, true) else stop
       case _ => stop)
    case SameLatest(tag, guard) =>
      if ObserveLatest(reply) == Ok(guard.before) then Running(job, PostRelease(tag, guard)) else stop
    case PostRelease(tag, guard) =>
      if reply.ReleaseAt? then
        if ValidRelease(w, job, reply.release) then Running(job, LookRelease(Readback, tag, guard)) else stop
      else Running(job, LookRelease(AfterError, tag, guard))
    case VerifyLatest(guard) =>
      var after := ObserveLatest(reply);
      Done(job, after.Ok? && LatestAsIntended(guard, v, after.value))
  }

  // ----- The whole system -----

  /** What others do to the server. Nobody else touches release tags, Releases or Latest. */
  datatype Move =
    | Advance(line: ReleaseLine, commit: nat)
    | Publish(version: Version, source: nat)
    | Yank(version: Version)
    | Unyank(version: Version)
    | AddObject(tagObject: TagObject)

  function Moved(server: Server, move: Move): Server {
    match move
    case Advance(line, commit) => server.(tips := server.tips[line := commit])
    case Publish(v, source) =>
      if v in server.registry then server else server.(registry := server.registry[v := source])
    case Yank(v) => server.(yanked := server.yanked + {v})
    case Unyank(v) => server.(yanked := server.yanked - {v})
    case AddObject(tagObject) => server.(objects := server.objects + [tagObject])
  }

  datatype Event = Started(job: Job) | Called(job: Job, call: Call, reply: Reply) | Crashed

  /** `finalized` records, in order, each version that got a Release and the line that created it. */
  datatype State = State(server: Server, client: Client, log: seq<Event>, finalized: seq<(Version, ReleaseLine)>)

  datatype Label = Env(move: Move) | Start(job: Job) | Turn(outcome: Outcome) | Crash

  function Started0(job: Job): Client {
    if MainLine.ValidSelection(job.version) && Admits(job.binding.line, job.version)
    then Running(job, RebindBase(Begin)) else Done(job, false)
  }

  /** One step; a label that is not enabled does nothing. Only one client runs at a time. */
  function Apply(w: World, s: State, step: Label): State {
    match step
    case Env(move) => s.(server := Moved(s.server, move))
    case Start(job) =>
      if s.client.Running? then s else s.(client := Started0(job), log := s.log + [Event.Started(job)])
    case Crash => if s.client.Running? then s.(client := Idle, log := s.log + [Crashed]) else s
    case Turn(o) =>
      if !s.client.Running? then s
      else
        var Running(job, pc) := s.client;
        var call := Ask(w, job, pc);
        var (server, reply) := Handle(w, s.server, call, o);
        State(server, Next(w, job, pc, reply), s.log + [Called(job, call, reply)],
              if job.version in server.releases && job.version !in s.server.releases
              then s.finalized + [(job.version, job.binding.line)] else s.finalized)
  }

  /** What one call of a running client does to the server, the client and the log. */
  lemma TurnIs(w: World, s: State, o: Outcome)
    requires s.client.Running?
    ensures var Running(job, pc) := s.client;
            var (server, reply) := Handle(w, s.server, Ask(w, job, pc), o);
            var after := Apply(w, s, Turn(o));
            && after.server == server && after.client == Next(w, job, pc, reply)
            && after.log == s.log + [Called(job, Ask(w, job, pc), reply)]
  {
  }

  function Exec(w: World, s: State, labels: seq<Label>): State {
    if labels == [] then s else Apply(w, Exec(w, s, labels[..|labels| - 1]), labels[|labels| - 1])
  }

  /** A server that has not finalized anything yet; branches and registry are arbitrary. */
  predicate Initial(s: State) {
    && s.client == Idle && s.log == [] && s.finalized == []
    && s.server.refs == map[] && s.server.releases == map[] && s.server.latest == None
  }
}
