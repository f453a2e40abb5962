/**
 * What a finalizer has just read back whenever it goes on: the checks before
 * the tag, the tag before the Release, and everything before it ends well.
 */
module FinalizerConfirm {
  import opened Finalizer
  import opened FinalizerAuthority
  import opened Provenance
  import opened Wrappers

  /** The archive of the source, the App scope and the reviewed commit, in this order. */
  function ChecksSeen(job: Job): seq<Event> {
    ScopeSeen(job) + [Called(job, ReadCommit(job.binding.source), Accepted)]
  }

  function ScopeSeen(job: Job): seq<Event> { ArchiveSeen(job) + [Called(job, ReadScope, Accepted)] }

  function ArchiveSeen(job: Job): seq<Event> {
    [Called(job, ReadArchive(job.version), Archive(job.binding.source))]
  }

  /** A valid Release has been read, followed by `more`. */
  ghost predicate SawRelease(w: World, log: seq<Event>, job: Job, more: seq<Event>) {
    exists id :: id != 0 && EndsWith(log, [ReleaseEvent(w, job, id)] + more)
  }

  function ReleaseEvent(w: World, job: Job, id: nat): Event {
    Called(job, ReadRelease(job.version), ReleaseAt(ReleaseOf(w, job.version, job.binding.source, id, true)))
  }

  /** The guard in hand is one that was taken from an observed Latest. */
  predicate GuardChosen(job: Job, pc: Pc) {
    match pc
    case RebindBase(k) => ChosenFor(job, k)
    case RebindLineage(k, _) => ChosenFor(job, k)
    case RebindSource(k, _) => ChosenFor(job, k)
    case RebindTip(k, _) => ChosenFor(job, k)
    case RebindAgain(k, _) => ChosenFor(job, k)
    case RebindMain(k, _) => ChosenFor(job, k)
    case LookRef(why) => LookChosen(job, why)
    case LookObject(why, _) => LookChosen(job, why)
    case LookRelease(_, _, guard) => Chosen(job, guard)
    case SameLatest(_, guard) => Chosen(job, guard)
    case PostRelease(_, guard) => Chosen(job, guard)
    case VerifyLatest(guard) => Chosen(job, guard)
    case _ => true
  }

  predicate LookChosen(job: Job, why: Look) {
    match why
    case Existing(_, guard) => Chosen(job, guard)
    case Exact(_, guard) => Chosen(job, guard)
    case Retained(_, guard) => Chosen(job, guard)
    case _ => true
  }

  /** Latest was read last, and is what a guard taken from an observed Latest intends. */
  ghost predicate Confirmed(w: World, log: seq<Event>, job: Job) {
    exists tag: nat, guard: Guard, after: Option<Latest> ::
      && Chosen(job, guard)
      && (if guard.advance then after.Some? && after.value.tag == Family(job.version) else after == guard.before)
      && SawRelease(w, log, job, ExactTagSeen(w, job, tag) + [Called(job, ReadLatest, LatestReply(after))])
  }

  ghost predicate ReadBefore(w: World, log: seq<Event>, job: Job, pc: Pc) {
    match pc
    case CheckScope => EndsWith(log, ArchiveSeen(job))
    case CheckCommit => EndsWith(log, ScopeSeen(job))
    case RebindBase(BeforeTag) => EndsWith(log, ChecksSeen(job))
    case CaptureLatest(tag) => EndsWith(log, ExactTagSeen(w, job, tag))
    case LookRef(Existing(_, _)) => SawRelease(w, log, job, [])
    case LookRef(Retained(_, _)) => SawRelease(w, log, job, [])
    case LookObject(Existing(_, _), id) => SawRelease(w, log, job, ExactRefSeen(job, id))
    case LookObject(Retained(_, _), id) => SawRelease(w, log, job, ExactRefSeen(job, id))
    case LookObject(_, id) => EndsWith(log, ExactRefSeen(job, id))
    case VerifyLatest(_) => exists tag :: SawRelease(w, log, job, ExactTagSeen(w, job, tag))
    case _ => true
  }

  ghost predicate Informed(w: World, log: seq<Event>, client: Client) {
    match client
    case Running(job, pc) => GuardChosen(job, pc) && ReadBefore(w, log, job, pc)
    case Done(job, ok) => ok ==> Confirmed(w, log, job)
    case Idle => true
  }

  lemma SawMore(w: World, log: seq<Event>, job: Job, more: seq<Event>, event: Event)
    requires SawRelease(w, log, job, more)
    ensures SawRelease(w, log + [event], job, more + [event])
  {
    var id :| id != 0 && EndsWith(log, [ReleaseEvent(w, job, id)] + more);
    Grow(log, [ReleaseEvent(w, job, id)], more, event);
  }

  // ----- Where one call leads, by kind -----

  lemma RebindInforms(w: World, job: Job, pc: Pc, reply: Reply, log: seq<Event>)
    requires GuardChosen(job, pc)
    requires pc.RebindBase? || pc.RebindLineage? || pc.RebindSource? || pc.RebindTip?
             || pc.RebindAgain? || pc.RebindMain?
    ensures Informed(w, log, Next(w, job, pc, reply))
  {
    hide OnLineage, Anchored, Chosen, EndsWith, SawRelease, Confirmed;
  }

  /** Where each check leads, and the reply it takes. */
  lemma ChecksLead(w: World, job: Job, reply: Reply)
    ensures Next(w, job, CheckArchive, reply) != Done(job, false) ==>
              Next(w, job, CheckArchive, reply) == Running(job, CheckScope) && reply == Archive(job.binding.source)
    ensures Next(w, job, CheckScope, reply) != Done(job, false) ==>
              Next(w, job, CheckScope, reply) == Running(job, CheckCommit) && reply == Accepted
    ensures Next(w, job, CheckCommit, reply) != Done(job, false) ==>
              Next(w, job, CheckCommit, reply) == Running(job, RebindBase(BeforeTag)) && reply == Accepted
  {
  }

  lemma CheckedInforms(w: World, job: Job, log: seq<Event>)
    ensures EndsWith(log, ArchiveSeen(job)) <==> Informed(w, log, Running(job, CheckScope))
    ensures EndsWith(log, ScopeSeen(job)) <==> Informed(w, log, Running(job, CheckCommit))
    ensures EndsWith(log, ChecksSeen(job)) <==> Informed(w, log, Running(job, RebindBase(BeforeTag)))
  {
    hide EndsWith, ArchiveSeen, ScopeSeen, ChecksSeen, SawRelease, Chosen;
  }

  lemma CheckReadBefore(w: World, log: seq<Event>, job: Job)
    ensures ReadBefore(w, log, job, CheckScope) ==> EndsWith(log, ArchiveSeen(job))
    ensures ReadBefore(w, log, job, CheckCommit) ==> EndsWith(log, ScopeSeen(job))
  {
    hide EndsWith, ArchiveSeen, ScopeSeen;
  }

  lemma ChecksAre(job: Job)
    ensures ArchiveSeen(job) == [Called(job, ReadArchive(job.version), Archive(job.binding.source))]
    ensures ScopeSeen(job) == ArchiveSeen(job) + [Called(job, ReadScope, Accepted)]
    ensures ChecksSeen(job) == ScopeSeen(job) + [Called(job, ReadCommit(job.binding.source), Accepted)]
  {
  }

  lemma AsksForChecks(w: World, job: Job)
    ensures Ask(w, job, CheckArchive) == ReadArchive(job.version) && Ask(w, job, CheckScope) == ReadScope
    ensures Ask(w, job, CheckCommit) == ReadCommit(job.binding.source)
  {
  }

  lemma ChecksInform(w: World, job: Job, pc: Pc, reply: Reply, log: seq<Event>)
    requires ReadBefore(w, log, job, pc) && (pc.CheckArchive? || pc.CheckScope? || pc.CheckCommit?)
    ensures Informed(w, log + [Called(job, Ask(w, job, pc), reply)], Next(w, job, pc, reply))
  {
    hide *;
    var event := Called(job, Ask(w, job, pc), reply);
    AsksForChecks(w, job);
    ChecksLead(w, job, reply);
    ChecksAre(job);
    CheckReadBefore(w, log, job);
    CheckedInforms(w, job, log + [event]);
    if Next(w, job, pc, reply) == Done(job, false) {
      StoppedInforms(w, job, log + [event]);
    } else if pc.CheckArchive? {
      EndsWithLast(log, event);
    } else {
      Extend(log, if pc.CheckScope? then ArchiveSeen(job) else ScopeSeen(job), event);
    }
  }

  lemma EndsWithLast(log: seq<Event>, event: Event)
    ensures EndsWith(log + [event], [event])
  {
    assert (log + [event])[|log|..] == [event];
  }

  lemma RefInforms(w: World, job: Job, why: Look, reply: Reply, log: seq<Event>)
    requires GuardChosen(job, LookRef(why)) && ReadBefore(w, log, job, LookRef(why))
    ensures Informed(w, log + [Called(job, ReadTagRef(job.version), reply)], Next(w, job, LookRef(why), reply))
  {
    var event := Called(job, ReadTagRef(job.version), reply);
    if why.Existing? || why.Retained? {
      SawMore(w, log, job, [], event);
      assert [] + [event] == [event];
    }
    EndsWithLast(log, event);
    hide SawRelease, EndsWith, Chosen, Confirmed;
  }

  lemma ObjectLeads(w: World, job: Job, why: Look, id: nat, reply: Reply)
    ensures var client := Next(w, job, LookObject(why, id), reply);
            || client == Done(job, false)
            || (client == TagSeen(job, why, Some(id))
                && reply == ObjectAt(id, TagOf(w, job.version, job.binding.source)))
  {
    if reply.ObjectAt? {
      ValidTagIff(w, job, reply.tagObject);
    }
    hide ValidTagObject, TagOf;
  }

  /** Whether the tag is read for an existing Release or after a new one. */
  predicate AfterRelease(why: Look) { why.Existing? || why.Retained? }

  lemma TagSeenInforms(w: World, job: Job, why: Look, id: nat, log: seq<Event>)
    requires LookChosen(job, why)
    requires AfterRelease(why) ==> SawRelease(w, log, job, ExactTagSeen(w, job, id))
    requires !AfterRelease(why) ==> EndsWith(log, ExactTagSeen(w, job, id))
    ensures Informed(w, log, TagSeen(job, why, Some(id)))
  {
    hide SawRelease, EndsWith, Chosen, Confirmed, ExactTagSeen, ExactRefSeen, ChecksSeen;
  }

  lemma ExactTagIs(w: World, job: Job, id: nat)
    ensures ExactTagSeen(w, job, id)
         == ExactRefSeen(job, id)
            + [Called(job, ReadTagObject(id), ObjectAt(id, TagOf(w, job.version, job.binding.source)))]
  {
  }

  lemma ObjectReadAfter(w: World, log: seq<Event>, job: Job, why: Look, id: nat)
    requires GuardChosen(job, LookObject(why, id)) && ReadBefore(w, log, job, LookObject(why, id))
    ensures LookChosen(job, why)
    ensures AfterRelease(why) ==> SawRelease(w, log, job, ExactRefSeen(job, id))
    ensures !AfterRelease(why) ==> EndsWith(log, ExactRefSeen(job, id))
  {
    hide SawRelease, EndsWith, LookChosen, ExactRefSeen;
  }

  lemma StoppedInforms(w: World, job: Job, log: seq<Event>)
    ensures Informed(w, log, Done(job, false))
  {
  }

  lemma ObjectInforms(w: World, job: Job, why: Look, id: nat, reply: Reply, log: seq<Event>)
    requires GuardChosen(job, LookObject(why, id)) && ReadBefore(w, log, job, LookObject(why, id))
    ensures Informed(w, log + [Called(job, ReadTagObject(id), reply)], Next(w, job, LookObject(why, id), reply))
  {
    hide *;
    var event := Called(job, ReadTagObject(id), reply);
    ObjectReadAfter(w, log, job, why, id);
    ObjectLeads(w, job, why, id, reply);
    ExactTagIs(w, job, id);
    if Next(w, job, LookObject(why, id), reply) == Done(job, false) {
      StoppedInforms(w, job, log + [event]);
    } else {
      if AfterRelease(why) {
        SawMore(w, log, job, ExactRefSeen(job, id), event);
      } else {
        Extend(log, ExactRefSeen(job, id), event);
      }
      TagSeenInforms(w, job, why, id, log + [event]);
    }
  }

  lemma ReleaseInforms(w: World, job: Job, pc: Pc, reply: Reply, log: seq<Event>)
    requires GuardChosen(job, pc) && pc.LookRelease?
    ensures Informed(w, log + [Called(job, ReadRelease(job.version), reply)], Next(w, job, pc, reply))
  {
    var event := Called(job, ReadRelease(job.version), reply);
    EndsWithLast(log, event);
    if reply.ReleaseAt? && ValidRelease(w, job, reply.release) {
      ValidReleaseIff(w, job, reply.release);
      assert event == ReleaseEvent(w, job, reply.release.id);
      assert [event] + [] == [event];
      assert SawRelease(w, log + [event], job, []);
    }
    hide SawRelease, EndsWith, Chosen, Confirmed, ValidRelease, ReleaseOf;
  }

  lemma LatestInforms(w: World, job: Job, pc: Pc, reply: Reply, log: seq<Event>)
    requires GuardChosen(job, pc) && ReadBefore(w, log, job, pc)
    requires pc.CaptureLatest? || pc.SameLatest? || pc.VerifyLatest?
    ensures Informed(w, log + [Called(job, ReadLatest, reply)], Next(w, job, pc, reply))
  {
    var event := Called(job, ReadLatest, reply);
    if ObserveLatest(reply).Ok? {
      var after := ObserveLatest(reply).value;
      GuardRemembers(job.binding.line, job.version, after);
      assert reply == LatestReply(after);
      if pc.VerifyLatest? && LatestAsIntended(pc.guard, job.version, after) {
        var tag :| SawRelease(w, log, job, ExactTagSeen(w, job, tag));
        SawMore(w, log, job, ExactTagSeen(w, job, tag), event);
        assert Confirmed(w, log + [event], job);
      }
    }
    hide SawRelease, EndsWith, Capture, Confirmed, ObserveLatest, ExactTagSeen;
  }

  lemma PostInforms(w: World, job: Job, pc: Pc, reply: Reply, log: seq<Event>)
    requires GuardChosen(job, pc) && (pc.PostObject? || pc.PostRef? || pc.PostRelease?)
    ensures Informed(w, log, Next(w, job, pc, reply))
  {
    hide SawRelease, EndsWith, Chosen, Confirmed, ValidTagObject, ValidRelease;
  }

  // ----- The invariant -----

  lemma TurnInforms(w: World, s: State, o: Outcome)
    requires Informed(w, s.log, s.client) && s.client.Running?
    ensures Informed(w, Apply(w, s, Turn(o)).log, Apply(w, s, Turn(o)).client)
  {
    var Running(job, pc) := s.client;
    var reply := Handle(w, s.server, Ask(w, job, pc), o).1;
    TurnIs(w, s, o);
    AskAt(w, job, pc);
    hide Apply, Next, Handle, Ask, GuardChosen, ReadBefore;
    match pc
    case CheckArchive => ChecksInform(w, job, pc, reply, s.log);
    case CheckScope => ChecksInform(w, job, pc, reply, s.log);
    case CheckCommit => ChecksInform(w, job, pc, reply, s.log);
    case LookRef(why) => RefInforms(w, job, why, reply, s.log);
    case LookObject(why, id) => ObjectInforms(w, job, why, id, reply, s.log);
    case LookRelease(_, _, _) => ReleaseInforms(w, job, pc, reply, s.log);
    case CaptureLatest(_) => LatestInforms(w, job, pc, reply, s.log);
    case SameLatest(_, _) => LatestInforms(w, job, pc, reply, s.log);
    case VerifyLatest(_) => LatestInforms(w, job, pc, reply, s.log);
    case PostObject => PostInforms(w, job, pc, reply, Apply(w, s, Turn(o)).log);
    case PostRef(_) => PostInforms(w, job, pc, reply, Apply(w, s, Turn(o)).log);
    case PostRelease(_, _) => PostInforms(w, job, pc, reply, Apply(w, s, Turn(o)).log);
    case _ => RebindInforms(w, job, pc, reply, Apply(w, s, Turn(o)).log);
  }

  lemma AskAt(w: World, job: Job, pc: Pc)
    ensures pc.LookRef? ==> Ask(w, job, pc) == ReadTagRef(job.version)
    ensures pc.LookObject? ==> Ask(w, job, pc) == ReadTagObject(pc.id)
    ensures pc.LookRelease? ==> Ask(w, job, pc) == ReadRelease(job.version)
    ensures pc.CaptureLatest? || pc.SameLatest? || pc.VerifyLatest? ==> Ask(w, job, pc) == ReadLatest
  {
  }

  lemma StepInforms(w: World, s: State, step: Label)
    requires Informed(w, s.log, s.client)
    ensures Informed(w, Apply(w, s, step).log, Apply(w, s, step).client)
  {
    if s.client.Running? && step.Turn? {
      TurnInforms(w, s, step.outcome);
    } else {
      hide Next, Handle, ChecksSeen, SawRelease, Confirmed;
    }
  }

  /**
   * In every run: a job that ended well had, as its last four calls, read back
   * a valid Release, the tag ref, its exact tag object, and Latest as intended;
   * Latest is first captured directly after the exact tag was read; and the
   * rebind before the tag directly follows the archive, scope and commit
   * checks.
   */
  lemma {:induction false} EndsAreConfirmed(w: World, s: State, labels: seq<Label>)
    requires s.client == Idle && s.log == []
    ensures var now := Exec(w, s, labels);
            && (now.client.Done? && now.client.ok ==> Confirmed(w, now.log, now.client.job))
            && (now.client.Running? && now.client.pc.CaptureLatest? ==>
                  EndsWith(now.log, ExactTagSeen(w, now.client.job, now.client.pc.tag)))
            && (now.client.Running? && now.client.pc == RebindBase(BeforeTag) ==>
                  EndsWith(now.log, ChecksSeen(now.client.job)))
            && Informed(w, now.log, now.client)
    decreases |labels|
  {
    hide EndsWith, Confirmed, SawRelease, Apply, GuardChosen;
    if labels != [] {
      EndsAreConfirmed(w, s, labels[..|labels| - 1]);
      StepInforms(w, Exec(w, s, labels[..|labels| - 1]), labels[|labels| - 1]);
    }
  }
}
