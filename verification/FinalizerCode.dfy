/**
 * The finalizer as written: straight-line code over a transport. `Send`
 * accepts only the call that the state machine makes next, so these methods
 * verify exactly when their calls and decisions are the machine's; every
 * result about its runs then holds of them.
 */
module FinalizerCode {
  import opened Finalizer
  import opened FinalizerHistory
  import opened FinalizerSafety
  import opened Provenance
  import opened Wrappers

  /** What the environment does around one call: others' moves first, then how the call goes. */
  datatype Weather = Weather(moves: seq<Move>, outcome: Outcome)

  /** Others' moves and then exactly one client step were added to a run. */
  ghost predicate OneTurn(before: seq<Label>, after: seq<Label>) {
    && |before| < |after| && before <= after && after[|after| - 1].Turn?
    && forall k :: |before| <= k < |after| - 1 ==> after[k].Env?
  }

  class Transport {
    const world: World
    ghost const initial: State
    var state: State
    var script: seq<Weather>
    ghost var labels: seq<Label>

    constructor (world: World, state: State, script: seq<Weather>)
      ensures this.world == world && this.state == this.initial == state && this.script == script
      ensures labels == [] && Valid()
    {
      this.world, this.initial, this.state, this.script, this.labels := world, state, state, script, [];
    }

    /** The state is the one the recorded run leads to. */
    ghost predicate Valid()
      reads this
    {
      state == Exec(world, initial, labels)
    }

    method Step(step: Label)
      requires Valid()
      modifies this`state, this`labels
      ensures Valid() && labels == old(labels) + [step] && state == Apply(world, old(state), step)
    {
      assert (labels + [step])[..|labels|] == labels;
      state := Apply(world, state, step);
      labels := labels + [step];
    }

    /**
     * One call, sent once: the run grows by others' moves and then a single
     * client step, and whatever others do does not touch the client.
     */
    method Send(call: Call) returns (reply: Reply)
      requires Valid() && state.client.Running?
      requires call == Ask(world, state.client.job, state.client.pc)
      modifies this
      ensures Valid() && old(labels) <= labels && OneTurn(old(labels), labels)
      ensures state.client == Next(world, old(state.client.job), old(state.client.pc), reply)
    {
      hide Handle, Next, Ask, Moved, Exec;
      var weather := if script == [] then Weather([], Outcome(true, 0, true)) else script[0];
      script := if script == [] then [] else script[1..];
      for i := 0 to |weather.moves|
        invariant Valid() && old(labels) <= labels && state.client == old(state.client)
        invariant forall k :: |old(labels)| <= k < |labels| ==> labels[k].Env?
      {
        Step(Env(weather.moves[i]));
      }
      reply := Handle(world, state.server, call, weather.outcome).1;
      Step(Turn(weather.outcome));
    }
  }

  /** `Binding::verify`, with `k` naming where the caller goes on. */
  method Rebind(t: Transport, job: Job, ghost k: After) returns (ok: bool)
    requires t.Valid() && t.state.client == Running(job, RebindBase(k))
    modifies t
    ensures t.Valid() && old(t.labels) <= t.labels
    ensures t.state.client == if ok then Rebound(job, k) else Done(job, false)
  {
    hide Exec, OneTurn, Transport.Valid, ValidTagObject, ValidRelease, LatestAsIntended;
    var b := job.binding;
    var reply := t.Send(ReadBase(b.line));
    if !reply.Tip? {
      return false;
    }
    var base := reply.commit;
    if b.operation == Fresh && base != b.source {
      return false;
    }
    reply := t.Send(CompareCommits(b.source, base));
    if !reply.Compared? || !OnLineage(Ok(reply.comparison), b.source) {
      return false;
    }
    if b.anchor.Some? {
      ok := RequireAnchor(t, job, k, base);
      if !ok {
        return;
      }
    }
    reply := t.Send(ReadBase(b.line));
    if reply != Tip(base) {
      return false;
    }
    reply := t.Send(ReadMain);
    ok := reply == Tip(b.main);
  }

  /** The comparisons of a support binding with main. */
  method RequireAnchor(t: Transport, job: Job, ghost k: After, base: nat) returns (ok: bool)
    requires t.Valid() && t.state.client == Running(job, RebindSource(k, base)) && job.binding.anchor.Some?
    modifies t
    ensures t.Valid() && old(t.labels) <= t.labels
    ensures t.state.client == if ok then Running(job, RebindAgain(k, base)) else Done(job, false)
  {
    hide Exec, OneTurn, Transport.Valid, ValidTagObject, ValidRelease, LatestAsIntended;
    var b := job.binding;
    var reply := t.Send(CompareCommits(b.source, b.main));
    if !reply.Compared? || !Anchored(Ok(reply.comparison), b.source, b.anchor.value) {
      return false;
    }
    reply := t.Send(CompareCommits(base, b.main));
    ok := reply.Compared? && Anchored(Ok(reply.comparison), base, b.anchor.value);
  }

  method InspectTag(t: Transport, job: Job, ghost why: Look) returns (seen: Result<Option<nat>>)
    requires t.Valid() && t.state.client == Running(job, LookRef(why))
    modifies t
    ensures t.Valid() && old(t.labels) <= t.labels
    ensures t.state.client == if seen.Ok? then TagSeen(job, why, seen.value) else Done(job, false)
  {
    hide Exec, OneTurn, Transport.Valid, ValidTagObject, ValidRelease, LatestAsIntended;
    var reply := t.Send(ReadTagRef(job.version));
    if reply.Missing? {
      return Ok(None);
    }
    if !reply.RefAt? || reply.reference.kind != TagKind {
      return Err;
    }
    var id := reply.reference.id;
    reply := t.Send(ReadTagObject(id));
    if !reply.ObjectAt? || !ValidTagObject(t.world, job, reply.tagObject) || reply.id != id {
      return Err;
    }
    seen := Ok(Some(id));
  }

  method RequireExactTagObject(t: Transport, job: Job, ghost why: Look, expected: nat) returns (ok: bool)
    requires t.Valid() && t.state.client == Running(job, LookRef(why))
    requires why.Existing? || why.Exact? || why.Retained?
    requires expected == why.tag
    modifies t
    ensures t.Valid() && old(t.labels) <= t.labels
    ensures t.state.client == if ok then TagSeen(job, why, Some(expected)) else Done(job, false)
  {
    hide Exec, OneTurn, Transport.Valid, ValidTagObject, ValidRelease, LatestAsIntended;
    var seen := InspectTag(t, job, why);
    ok := seen == Ok(Some(expected));
  }

  method ReconcileTag(t: Transport, job: Job) returns (tag: Result<nat>)
    requires t.Valid() && t.state.client == Running(job, LookRef(Find))
    modifies t
    ensures t.Valid() && old(t.labels) <= t.labels
    ensures t.state.client == if tag.Ok? then Running(job, CaptureLatest(tag.value)) else Done(job, false)
  {
    hide Exec, OneTurn, Transport.Valid, ValidTagObject, ValidRelease, LatestAsIntended;
    var seen := InspectTag(t, job, Find);
    if seen.Err? {
      return Err;
    }
    if seen.value.Some? {
      return Ok(seen.value.value);
    }
    var ok := Rebind(t, job, BeforeObject);
    if !ok {
      return Err;
    }
    var reply := t.Send(CreateTagObject(ExpectedTag(t.world, job.version, job.binding.source)));
    if !reply.ObjectAt? || !ValidTagObject(t.world, job, reply.tagObject) {
      return Err;
    }
    var id := reply.id;
    ok := Rebind(t, job, BeforeRef(id));
    if !ok {
      return Err;
    }
    reply := t.Send(CreateTagRef(job.version, id));
    if !reply.RefAt? {
      seen := InspectTag(t, job, AfterRefError(id));
      if seen != Ok(Some(id)) {
        return Err;
      }
    }
    seen := InspectTag(t, job, Confirm(id));
    tag := if seen == Ok(Some(id)) then Ok(id) else Err;
  }

  method InspectRelease(t: Transport, job: Job, ghost check: Check, ghost tag: nat, ghost guard: Guard)
    returns (seen: Result<bool>)
    requires t.Valid() && t.state.client == Running(job, LookRelease(check, tag, guard))
    modifies t
    ensures t.Valid() && old(t.labels) <= t.labels
    ensures t.state.client == if seen.Ok? then ReleaseSeen(job, check, tag, guard, seen.value) else Done(job, false)
  {
    hide Exec, OneTurn, Transport.Valid, ValidTagObject, ValidRelease, LatestAsIntended;
    var reply := t.Send(ReadRelease(job.version));
    if reply.Missing? {
      return Ok(false);
    }
    seen := if reply.ReleaseAt? && ValidRelease(t.world, job, reply.release) then Ok(true) else Err;
  }

  method VerifyLatestGuard(t: Transport, job: Job, guard: Guard) returns (ok: bool)
    requires t.Valid() && t.state.client == Running(job, VerifyLatest(guard))
    modifies t
    ensures t.Valid() && old(t.labels) <= t.labels && t.state.client == Done(job, ok)
  {
    hide Exec, OneTurn, Transport.Valid, ValidTagObject, ValidRelease, LatestAsIntended;
    var reply := t.Send(ReadLatest);
    var after := ObserveLatest(reply);
    ok := after.Ok? && LatestAsIntended(guard, job.version, after.value);
  }

  method ReconcileRelease(t: Transport, job: Job, tag: nat) returns (ok: bool)
    requires t.Valid() && t.state.client == Running(job, CaptureLatest(tag))
    modifies t
    ensures t.Valid() && old(t.labels) <= t.labels && t.state.client == Done(job, ok)
  {
    hide Exec, OneTurn, Transport.Valid, ValidTagObject, ValidRelease, LatestAsIntended;
    var reply := t.Send(ReadLatest);
    var before := ObserveLatest(reply);
    if before.Err? {
      return false;
    }
    var captured := Capture(job.binding.line, job.version, before.value);
    if captured.Err? {
      return false;
    }
    var guard := captured.value;
    GuardRemembers(job.binding.line, job.version, before.value);
    var seen := InspectRelease(t, job, First, tag, guard);
    if seen.Err? {
      return false;
    }
    if seen.value {
      ok := RequireExactTagObject(t, job, Existing(tag, guard), tag);
      if ok {
        ok := VerifyLatestGuard(t, job, guard);
      }
      return;
    }
    ok := CreateAndReadBack(t, job, tag, guard);
  }

  /** The part of `reconcile_release` after no Release was found. */
  method CreateAndReadBack(t: Transport, job: Job, tag: nat, guard: Guard) returns (ok: bool)
    requires t.Valid() && t.state.client == Running(job, RebindBase(BeforeRelease(tag, guard)))
    modifies t
    ensures t.Valid() && old(t.labels) <= t.labels && t.state.client == Done(job, ok)
  {
    hide Exec, OneTurn, Transport.Valid, ValidTagObject, ValidRelease, LatestAsIntended;
    ok := Rebind(t, job, BeforeRelease(tag, guard));
    if !ok {
      return;
    }
    ok := RequireExactTagObject(t, job, Exact(tag, guard), tag);
    if !ok {
      return;
    }
    var reply := t.Send(ReadLatest);
    if ObserveLatest(reply) != Ok(guard.before) {
      return false;
    }
    ok := CreateOnce(t, job, tag, guard);
    if ok {
      ok := ReadBack(t, job, tag, guard);
    }
  }

  /** The one POST of the Release; after an error it counts only if the Release is there. */
  method CreateOnce(t: Transport, job: Job, tag: nat, guard: Guard) returns (ok: bool)
    requires t.Valid() && t.state.client == Running(job, PostRelease(tag, guard))
    modifies t
    ensures t.Valid() && old(t.labels) <= t.labels
    ensures t.state.client == if ok then Running(job, LookRelease(Readback, tag, guard)) else Done(job, false)
  {
    hide Exec, OneTurn, Transport.Valid, ValidTagObject, ValidRelease, LatestAsIntended;
    var request := ExpectedRelease(t.world, job.version, job.binding.source, 0).(immutable := false);
    var reply := t.Send(CreateRelease(request, guard.advance));
    if reply.ReleaseAt? {
      return ValidRelease(t.world, job, reply.release);
    }
    var retained := InspectRelease(t, job, AfterError, tag, guard);
    ok := retained == Ok(true);
  }

  /** The checks after the Release was created or found. */
  method ReadBack(t: Transport, job: Job, tag: nat, guard: Guard) returns (ok: bool)
    requires t.Valid() && t.state.client == Running(job, LookRelease(Readback, tag, guard))
    modifies t
    ensures t.Valid() && old(t.labels) <= t.labels && t.state.client == Done(job, ok)
  {
    hide Exec, OneTurn, Transport.Valid, ValidTagObject, ValidRelease, LatestAsIntended;
    var seen := InspectRelease(t, job, Readback, tag, guard);
    if seen != Ok(true) {
      return false;
    }
    ok := RequireExactTagObject(t, job, Retained(tag, guard), tag);
    if ok {
      ok := VerifyLatestGuard(t, job, guard);
    }
  }

  /** A run over the transport that ended well left everything in place. */
  lemma EndedWell(t: Transport, job: Job)
    requires t.Valid() && t.state.client == Done(job, true)
    ensures Inv(t.world, t.initial) ==>
              && Published(t.state.server, job)
              && TagSpelled(t.world, t.state.server, job.version)
              && ReleaseSpelled(t.world, t.state.server, job.version)
  {
    hide Exec, Published, TagStaged, ReleaseStaged, TagSpelled, ReleaseSpelled, Inv;
    if Inv(t.world, t.initial) {
      SuccessIsComplete(t.world, t.initial, t.labels, job);
    }
  }

  /**
   * `finalize`: the whole job, from dispatch to its end. From any state in
   * order, success leaves the exact tag and Release of the published source.
   */
  method Finalize(t: Transport, job: Job) returns (ok: bool)
    requires t.Valid() && !t.state.client.Running?
    modifies t
    ensures t.Valid() && old(t.labels) <= t.labels
    ensures t.state.client == Done(job, ok)
    ensures ok && Inv(t.world, t.initial) ==>
              && Published(t.state.server, job)
              && TagSpelled(t.world, t.state.server, job.version)
              && ReleaseSpelled(t.world, t.state.server, job.version)
  {
    hide Exec, OneTurn, Transport.Valid, ValidTagObject, ValidRelease, LatestAsIntended, TagSpelled,
         ReleaseSpelled, Published, Inv;
    t.Step(Start(job));
    if Started0(job) == Done(job, false) {
      return false;
    }
    ok := Rebind(t, job, Begin);
    if !ok {
      return;
    }
    ok := ValidatePublication(t, job);
    if !ok {
      return;
    }
    ok := Rebind(t, job, BeforeTag);
    if !ok {
      return;
    }
    var tag := ReconcileTag(t, job);
    if tag.Err? {
      return false;
    }
    ok := ReconcileRelease(t, job, tag.value);
    if ok {
      EndedWell(t, job);
    }
  }

  /** The archive, the App scope and the release commit. */
  method ValidatePublication(t: Transport, job: Job) returns (ok: bool)
    requires t.Valid() && t.state.client == Running(job, CheckArchive)
    modifies t
    ensures t.Valid() && old(t.labels) <= t.labels
    ensures t.state.client == if ok then Running(job, RebindBase(BeforeTag)) else Done(job, false)
  {
    hide Exec, OneTurn, Transport.Valid, ValidTagObject, ValidRelease, LatestAsIntended;
    var reply := t.Send(ReadArchive(job.version));
    if reply != Archive(job.binding.source) || !job.app {
      return false;
    }
    reply := t.Send(ReadScope);
    if reply != Accepted {
      return false;
    }
    reply := t.Send(ReadCommit(job.binding.source));
    ok := reply == Accepted;
  }
}
