/**
 * The event loop of the bounded subprocess runner, Unix half
 * (xtask/src/bounded_process.rs): spawn, drain, feed, poll, grace, cleanup.
 * Times are nanoseconds of a monotone clock.
 */
module BoundedProcess {
  import opened Wrappers
  import opened BoundedPipes

  const PIPE_CLOSE_GRACE: nat := 250_000_000
  const POST_CANCEL_TIMEOUT: nat := 2_000_000_000
  const POLL_INTERVAL: nat := 10_000_000
  const MAX_INPUT_BYTES: nat := 4 * 1024 * 1024

  /** Waits that fit before the post-cancellation deadline, and the one that finds it passed. */
  const MOST_WAITS: nat := POST_CANCEL_TIMEOUT / POLL_INTERVAL + 1

  /** Idle passes that fit in the grace period, and the pass that ends it. */
  const GRACE_PASSES: nat := PIPE_CLOSE_GRACE / POLL_INTERVAL + 1

  datatype OutputLimits = OutputLimits(stdout: usize, stderr: usize)

  datatype Stream = Stdout | Stderr

  datatype Cause =
    | InvalidLimit(stream: Stream)
    | InputTooLong
    | SpawnFailed
    | SetupFailed(kind: nat)
    | ReadFailed(stream: Stream, kind: nat)
    | WriteFailed(kind: nat)
    | InputStopped
    | LimitExceeded(stream: Stream)
    | PollFailed(kind: nat)
    | PipesRetained

  /** What `cleanup_error` appends to the primary error. */
  datatype Cleanup = NotNeeded | Reaped | NotReaped

  datatype RunResult =
    | Finished(status: nat, stdout: seq<byte>, stderr: seq<byte>)
    | Aborted(cause: Cause, cleanup: Cleanup)

  datatype Event = Polled | KilledGroup | TriedWait | KilledChild

  datatype PollOutcome = NotYet | Exited(status: nat) | PollError(kind: nat)

  class Clock {
    var now: nat

    constructor () {}

    method Instant() returns (t: nat)
      modifies this
      ensures old(now) <= now == t
    {
      var step: nat :| true;
      now := now + step;
      t := now;
    }

    method Sleep(duration: nat)
      modifies this
      ensures old(now) + duration <= now
    {
      var late: nat :| true;
      now := now + duration + late;
    }
  }

  /**
   * The direct child. `patience` is how many more polls may find it still
   * running: any number, but the loop under study ends only if the child does.
   */
  class Child {
    var reaped: Option<nat>
    var patience: nat
    ghost var log: seq<Event>
    ghost var answer: Option<PollOutcome>
    ghost var waited: Option<PollOutcome>
    ghost var left: int

    constructor (patience: nat)
      ensures reaped == None && log == [] && answer == waited == None && this.patience == patience
    {
      reaped, log, answer, waited, left, this.patience := None, [], None, None, 0, patience;
    }

    /** The loop's status poll; it notes its answer and the work left in the pipes at that moment. */
    method Poll(ghost stdout: Capture, ghost stderr: Capture, ghost feed: Feed) returns (outcome: PollOutcome)
      modifies this
      ensures answer == Some(outcome) && left == Remaining(stdout, stderr, feed)
      ensures log == old(log) + [Polled] && patience <= old(patience)
      ensures outcome.Exited? ==> reaped == Some(outcome.status)
      ensures !outcome.Exited? ==> reaped == old(reaped)
      ensures outcome.NotYet? ==> reaped == None && patience < old(patience)
    {
      log, left := log + [Polled], Remaining(stdout, stderr, feed);
      if * {
        var kind: nat :| true;
        outcome := PollError(kind);
      } else if reaped == None && patience > 0 {
        patience := patience - 1;
        outcome := NotYet;
      } else {
        outcome := Collect();
      }
      answer := Some(outcome);
    }

    /** `Child::try_wait`: a status that was collected once is returned again. */
    method TryWait() returns (outcome: PollOutcome)
      modifies this
      ensures log == old(log) + [TriedWait] && patience == old(patience) && answer == old(answer) && left == old(left)
      ensures waited == Some(outcome)
      ensures outcome.Exited? ==> reaped == Some(outcome.status)
      ensures !outcome.Exited? ==> reaped == None
      ensures old(reaped).Some? ==> reaped == old(reaped)
    {
      log := log + [TriedWait];
      if reaped.Some? {
        outcome := Collect();
      } else if * {
        outcome := Collect();
      } else if * {
        var kind: nat :| true;
        outcome := PollError(kind);
      } else {
        outcome := NotYet;
      }
      waited := Some(outcome);
    }

    method Collect() returns (outcome: PollOutcome)
      modifies `reaped
      ensures outcome.Exited? && reaped == Some(outcome.status)
      ensures old(reaped).Some? ==> reaped == old(reaped)
    {
      if reaped == None {
        var status: nat :| true;
        reaped := Some(status);
      }
      outcome := Exited(reaped.value);
    }

    method KillGroup()
      modifies `log
      ensures log == old(log) + [KilledGroup]
    {
      log := log + [KilledGroup];
    }

    method Kill()
      modifies `log
      ensures log == old(log) + [KilledChild]
    {
      log := log + [KilledChild];
    }
  }

  /** `validate_limits`. */
  function ValidateLimits(limits: OutputLimits, input: Option<seq<byte>>): (invalid: Option<Cause>)
    ensures invalid == None <==>
              && CheckedSuccessor(limits.stdout).Some? && CheckedSuccessor(limits.stderr).Some?
              && (input.Some? ==> |input.value| <= MAX_INPUT_BYTES)
  {
    if CheckedSuccessor(limits.stdout).None? then Some(InvalidLimit(Stdout))
    else if CheckedSuccessor(limits.stderr).None? then Some(InvalidLimit(Stderr))
    else if input.Some? && |input.value| > MAX_INPUT_BYTES then Some(InputTooLong)
    else None
  }

  /** `terminate_tree`: the group first, then the child itself unless it is known to be gone. */
  method TerminateTree(child: Child)
    modifies child
    ensures child.answer == old(child.answer) && child.left == old(child.left)
    ensures child.log ==
              old(child.log) + [KilledGroup, TriedWait] + (if child.reaped == None then [KilledChild] else [])
    ensures old(child.reaped).Some? ==> child.reaped == old(child.reaped)
  {
    child.KillGroup();
    var seen := child.TryWait();
    if !seen.Exited? {
      child.Kill();
    }
  }

  /** `reap_until`: `NotYet` is the deadline that passed; the waits it made fit the time it had. */
  method ReapUntil(child: Child, clock: Clock, deadline: nat) returns (outcome: PollOutcome, ghost tries: nat)
    modifies child, clock
    ensures child.answer == old(child.answer) && child.left == old(child.left)
    ensures child.reaped == if outcome.Exited? then Some(outcome.status) else None
    ensures outcome.NotYet? ==> deadline <= clock.now
    ensures child.waited == Some(outcome)
    ensures tries > 0 && child.log == old(child.log) + seq(tries, _ => TriedWait)
    ensures old(clock.now) <= clock.now
    ensures tries <= 1 || POLL_INTERVAL * (tries - 2) < deadline - old(clock.now)
  {
    tries := 0;
    while true
      invariant child.log == old(child.log) + seq(tries, _ => TriedWait)
      invariant child.answer == old(child.answer) && child.left == old(child.left)
      invariant old(clock.now) <= clock.now
      invariant tries > 0 ==> POLL_INTERVAL * (tries - 1) < deadline - old(clock.now)
      invariant old(clock.now) + POLL_INTERVAL * tries <= clock.now
      decreases deadline - clock.now
    {
      outcome := child.TryWait();
      tries := tries + 1;
      if !outcome.NotYet? {
        return;
      }
      var now := clock.Instant();
      if now >= deadline {
        return;
      }
      clock.Sleep(POLL_INTERVAL);
    }
  }

  /** The failure is what the named descriptor really answered, or what its stream really holds. */
  ghost predicate TrueOfPipes(cause: Cause, stdout: Pipe, stderr: Pipe, sink: Sink, limits: OutputLimits)
    reads stdout, stderr, sink
  {
    match cause
    case ReadFailed(Stdout, kind) => stdout.last == Some(ReadError(kind))
    case ReadFailed(Stderr, kind) => stderr.last == Some(ReadError(kind))
    case WriteFailed(kind) => sink.last == Some(WriteError(kind))
    case InputStopped => sink.last == Some(Accepted(0))
    case LimitExceeded(Stdout) => |stdout.stream| > limits.stdout
    case LimitExceeded(Stderr) => |stderr.stream| > limits.stderr && stdout.pos <= limits.stdout
    case PipesRetained =>
      && stdout.last in {Some(Eof), Some(ReadBlocked)} && stderr.last in {Some(Eof), Some(ReadBlocked)}
      && !(stdout.last == stderr.last == Some(Eof))
    case _ => true
  }

  ghost predicate Plumbed(stdout: Capture, stderr: Capture, feed: Feed, limits: OutputLimits)
    reads stdout, stderr, feed, stdout.source, stderr.source, feed.sink
  {
    && stdout != stderr && stdout.source != stderr.source
    && stdout.Valid() && stderr.Valid() && feed.Valid()
    && stdout.limit == limits.stdout && stderr.limit == limits.stderr
  }

  /** The bytes, closings and writes that can still happen. */
  ghost function Remaining(stdout: Capture, stderr: Capture, feed: Feed): int
    reads stdout, stderr, feed
  {
    stdout.Budget() + stderr.Budget() + feed.Budget()
  }

  lemma CaptureBounds(capture: Capture)
    requires capture.Valid()
    ensures capture.Exceeded() ==> |capture.source.stream| > capture.limit
  {}

  /** Both drains, the second only if the first went well. */
  method DrainBoth(stdout: Capture, stderr: Capture) returns (progressed: bool, failure: Option<Cause>)
    requires stdout != stderr && stdout.source != stderr.source && stdout.Valid() && stderr.Valid()
    modifies stdout, stderr, stdout.source, stderr.source
    ensures stdout.Valid() && stderr.Valid()
    ensures stdout.Budget() + stderr.Budget() <= old(stdout.Budget() + stderr.Budget())
    ensures failure == None && progressed ==>
              stdout.Budget() + stderr.Budget() < old(stdout.Budget() + stderr.Budget())
    ensures failure == None ==>
              && (stdout.Complete() || stdout.Exceeded() || stdout.source.last == Some(ReadBlocked))
              && (stderr.Complete() || stderr.Exceeded() || stderr.source.last == Some(ReadBlocked))
    ensures stdout.Exceeded() ==> |stdout.source.stream| > stdout.limit
    ensures stderr.Exceeded() ==> |stderr.source.stream| > stderr.limit
    ensures failure.Some? ==>
              && failure.value.ReadFailed?
              && (failure.value.stream == Stdout ==> stdout.source.last == Some(ReadError(failure.value.kind)))
              && (failure.value.stream == Stderr ==> stderr.source.last == Some(ReadError(failure.value.kind)))
  {
    CaptureBounds(stdout);
    CaptureBounds(stderr);
    hide Capture.Valid;
    progressed, failure := false, None;
    var drained := stdout.Drain();
    match drained {
      case Done(value) => progressed := value;
      case Failed(kind) => failure := Some(ReadFailed(Stdout, kind));
    }
    if failure == None {
      drained := stderr.Drain();
      match drained {
        case Done(value) => progressed := progressed || value;
        case Failed(kind) => failure := Some(ReadFailed(Stderr, kind));
      }
    }
  }

  /** The first half of a pass: both drains, the write, and the two limit checks, in order. */
  method Transfer(stdout: Capture, stderr: Capture, feed: Feed, limits: OutputLimits)
    returns (progressed: bool, failure: Option<Cause>)
    requires Plumbed(stdout, stderr, feed, limits)
    modifies stdout, stderr, feed, stdout.source, stderr.source, feed.sink
    ensures Plumbed(stdout, stderr, feed, limits)
    ensures Remaining(stdout, stderr, feed) <= old(Remaining(stdout, stderr, feed))
    ensures failure == None ==>
              && !stdout.Exceeded() && (stdout.Complete() || stdout.source.last == Some(ReadBlocked))
              && !stderr.Exceeded() && (stderr.Complete() || stderr.source.last == Some(ReadBlocked))
              && (feed.open ==> feed.sink.last == Some(WriteBlocked))
    ensures failure == None && progressed ==>
              Remaining(stdout, stderr, feed) < old(Remaining(stdout, stderr, feed))
    ensures failure.Some? ==>
              && (failure.value.ReadFailed? || failure.value.WriteFailed? || failure.value.InputStopped?
                  || failure.value.LimitExceeded?)
              && TrueOfPipes(failure.value, stdout.source, stderr.source, feed.sink, limits)
  {
    hide Capture.Valid, Feed.Valid, MostWork;
    progressed, failure := DrainBoth(stdout, stderr);
    if failure == None {
      var written := feed.WriteInput();
      match written {
        case Done(value) => progressed := progressed || value;
        case Failed(None) => failure := Some(InputStopped);
        case Failed(Some(kind)) => failure := Some(WriteFailed(kind));
      }
    }
    if failure == None && stdout.Exceeded() {
      failure := Some(LimitExceeded(Stdout));
    }
    PlumbedWork(stdout, stderr, feed, limits);
    if failure == None && stderr.Exceeded() {
      failure := Some(LimitExceeded(Stderr));
    }
  }

  /** Only polls happened before the group was killed, and only reaping after. */
  ghost predicate Contained(log: seq<Event>) {
    exists k :: 0 <= k < |log| && KilledAt(log, k)
  }

  ghost predicate KilledAt(log: seq<Event>, k: nat)
    requires k < |log|
  {
    && log[k] == KilledGroup
    && (forall j :: 0 <= j < k ==> log[j] == Polled)
    && (forall j :: k < j < |log| ==> log[j] in {TriedWait, KilledChild})
  }

  /** The failure path shared by every abort: kill, drop the pipes, reap unless a status is known. */
  method Abort(child: Child, clock: Clock, cause: Cause, status: Option<nat>) returns (result: RunResult)
    requires status.Some? ==> child.reaped == status
    requires forall j :: 0 <= j < |child.log| ==> child.log[j] == Polled
    modifies child, clock
    ensures child.answer == old(child.answer) && child.left == old(child.left)
    ensures Contained(child.log) && old(clock.now) <= clock.now
    ensures status.Some? ==> child.reaped == status
    ensures result.Aborted? && result.cleanup == NotReaped ==>
              (child.waited.Some? && child.waited.value.PollError?) || clock.now >= old(clock.now) + POST_CANCEL_TIMEOUT
    ensures |child.log| <= |old(child.log)| + 3 + MOST_WAITS
    ensures result == Aborted(cause, if child.reaped.Some? then Reaped else NotReaped)
  {
    ghost var k := |child.log|;
    TerminateTree(child);
    if status.Some? {
      result := Aborted(cause, Reaped);
    } else {
      var started := clock.Instant();
      ghost var tries;
      var reaped;
      reaped, tries := ReapUntil(child, clock, started + POST_CANCEL_TIMEOUT);
      result := Aborted(cause, if reaped.Exited? then Reaped else NotReaped);
    }
    assert KilledAt(child.log, k);
  }

  /** What the loop did after it learned of the direct child's exit: its passes, and the clock before the last one. */
  datatype Watch = Watch(exit: Option<nat>, passes: nat, checked: nat)

  /** No pass is begun once the grace after the exit is known to be over. */
  predicate WithinGrace(watch: Watch) {
    watch.exit.Some? && watch.passes > 0 ==> watch.checked < watch.exit.value + PIPE_CLOSE_GRACE
  }

  /** Everything the two captures and the feed could ever do. */
  function MostWork(limits: OutputLimits, input: seq<byte>): nat {
    (limits.stdout + 2) + (limits.stderr + 2) + (|input| + 1)
  }

  function InputBytes(input: Option<seq<byte>>): seq<byte> {
    if input.Some? then input.value else []
  }

  ghost predicate OnlyPolled(log: seq<Event>) { forall j :: 0 <= j < |log| ==> log[j] == Polled }

  /**
   * The event loop of `output_inner`. Once the exit of the child is known it
   * ends within the work that was left then plus the passes of the grace
   * period, whatever the descendants do with the pipes.
   */
  method EventLoop(child: Child, clock: Clock, stdout: Capture, stderr: Capture, feed: Feed, limits: OutputLimits)
    returns (status: Option<nat>, failure: Option<Cause>, ghost watch: Watch)
    requires Plumbed(stdout, stderr, feed, limits) && child.reaped == None && child.log == []
    modifies child, clock, stdout, stderr, feed, stdout.source, stderr.source, feed.sink
    ensures Plumbed(stdout, stderr, feed, limits)
    ensures OnlyPolled(child.log) && child.reaped == status && watch.exit.Some? == status.Some?
    ensures failure == None ==>
              && status.Some? && stdout.Complete() && stderr.Complete()
              && (feed.open ==> feed.sink.last == Some(WriteBlocked))
    ensures failure.Some? ==>
              && (failure.value.ReadFailed? || failure.value.WriteFailed? || failure.value.InputStopped?
                  || failure.value.LimitExceeded? || failure.value.PollFailed? || failure.value.PipesRetained?)
              && TrueOfPipes(failure.value, stdout.source, stderr.source, feed.sink, limits)
    ensures failure.Some? && failure.value.PollFailed? ==> child.answer == Some(PollError(failure.value.kind))
    ensures failure == Some(PipesRetained) ==> watch.exit.Some? && clock.now - watch.exit.value >= PIPE_CLOSE_GRACE
    ensures status.Some? ==>
              && child.answer == Some(Exited(status.value))
              && watch.passes <= child.left + GRACE_PASSES && WithinGrace(watch)
              && child.left <= old(Remaining(stdout, stderr, feed))
  {
    hide Plumbed, Remaining, Capture.Valid, Feed.Valid;
    watch, status, failure := Watch(None, 0, 0), None, None;
    var directExit: Option<nat> := None;
    ghost var idle: nat, seen: nat := 0, 0;
    PlumbedWork(stdout, stderr, feed, limits);
    while true
      invariant Plumbed(stdout, stderr, feed, limits) && OnlyPolled(child.log)
      invariant child.reaped == status && directExit == watch.exit && (status.Some? <==> directExit.Some?)
      invariant status == None ==> watch.passes == 0 && idle == 0
      invariant status.Some? ==>
                  && child.answer == Some(Exited(status.value)) && child.left <= old(Remaining(stdout, stderr, feed))
                  && directExit.value + POLL_INTERVAL * idle <= clock.now
                  && Remaining(stdout, stderr, feed) + watch.passes <= child.left + idle
      invariant idle <= GRACE_PASSES - 1
      invariant WithinGrace(watch) && (status.Some? ==> seen < directExit.value + PIPE_CLOSE_GRACE)
      invariant Remaining(stdout, stderr, feed) <= old(Remaining(stdout, stderr, feed))
      decreases if status == None then child.patience + 1 else 0,
                Remaining(stdout, stderr, feed), GRACE_PASSES - idle
    {
      PlumbedWork(stdout, stderr, feed, limits);
      if status.Some? {
        watch := watch.(passes := watch.passes + 1, checked := seen);
      }
      var progressed;
      progressed, failure := Transfer(stdout, stderr, feed, limits);
      if failure.Some? {
        return;
      }
      PlumbedWork(stdout, stderr, feed, limits);
      if status == None {
        var outcome := child.Poll(stdout, stderr, feed);
        match outcome {
          case Exited(code) =>
            status := Some(code);
            var now := clock.Instant();
            directExit := Some(now);
            progressed := true;
            watch := Watch(directExit, 0, now);
          case NotYet =>
          case PollError(kind) =>
            failure := Some(PollFailed(kind));
            return;
        }
      }
      if status.Some? && stdout.Complete() && stderr.Complete() {
        return;
      }
      if directExit.Some? {
        var now := clock.Instant();
        seen := now;
        if now - directExit.value >= PIPE_CLOSE_GRACE {
          failure := Some(PipesRetained);
          return;
        }
      }
      if !progressed {
        clock.Sleep(POLL_INTERVAL);
        if status.Some? {
          idle := idle + 1;
        }
      }
    }
  }

  lemma PlumbedWork(stdout: Capture, stderr: Capture, feed: Feed, limits: OutputLimits)
    requires Plumbed(stdout, stderr, feed, limits)
    ensures 0 <= Remaining(stdout, stderr, feed) <= MostWork(limits, feed.input)
    ensures stdout.source.pos == |stdout.bytes|
    ensures !stdout.Complete() <==> stdout.source.last != Some(Eof)
    ensures !stderr.Complete() <==> stderr.source.last != Some(Eof)
  {}

  /**
   * `output_inner` from the spawned child on; `setup` is a failure to make the
   * pipes non-blocking.
   *
   * Success is a reaped child and two entire streams within their limits, and
   * the whole input delivered exactly when the last write neither found a
   * broken pipe nor would have blocked. On every exit but a rejected limit the group was killed after nothing but
   * polls and before anything but reaping. Each failure is true of the pipes.
   */
  method OutputInner(child: Child, clock: Clock, outPipe: Pipe, errPipe: Pipe, sink: Sink,
                     limits: OutputLimits, input: Option<seq<byte>>, setup: Option<nat>)
    returns (result: RunResult, ghost watch: Watch)
    requires child.reaped == None && child.log == []
    requires outPipe != errPipe && sink.received == [] && sink.last == None
    requires outPipe.pos == 0 && outPipe.last == None && errPipe.pos == 0 && errPipe.last == None
    modifies child, clock, outPipe, errPipe, sink
    ensures result.Finished? ==>
              && child.reaped == Some(result.status)
              && result.stdout == outPipe.stream && |outPipe.stream| <= limits.stdout
              && result.stderr == errPipe.stream && |errPipe.stream| <= limits.stderr
    ensures result.Finished? ==>
              (sink.received == InputBytes(input) <==> sink.last !in {Some(BrokenPipe), Some(WriteBlocked)})
    ensures result.Aborted? && result.cause.InvalidLimit? <==>
              setup == None && (limits.stdout == USIZE_MAX || limits.stderr == USIZE_MAX)
    ensures result.Finished? || !result.cause.InvalidLimit? ==> Contained(child.log)
    ensures result.Aborted? && !result.cause.InvalidLimit? ==>
              && TrueOfPipes(result.cause, outPipe, errPipe, sink, limits)
              && result.cleanup == if child.reaped.Some? then Reaped else NotReaped
    ensures result.Aborted? && result.cause.PipesRetained? ==>
              child.reaped.Some? && watch.exit.Some? && clock.now - watch.exit.value >= PIPE_CLOSE_GRACE
    ensures result.Aborted? && result.cause.SetupFailed? <==> setup.Some?
    ensures result.Aborted? && result.cause.SetupFailed? ==> setup == Some(result.cause.kind)
    ensures result.Aborted? && result.cause.PollFailed? ==> child.answer == Some(PollError(result.cause.kind))
    ensures result.Aborted? ==> !result.cause.InputTooLong? && !result.cause.SpawnFailed?
    ensures sink.received <= InputBytes(input)
    ensures outPipe.pos <= limits.stdout + 1 && errPipe.pos <= limits.stderr + 1
    ensures watch.exit.Some? ==>
              && watch.passes <= child.left + GRACE_PASSES && child.left <= MostWork(limits, InputBytes(input))
              && WithinGrace(watch)
  {
    watch := Watch(None, 0, 0);
    if setup.Some? {
      result := Abort(child, clock, SetupFailed(setup.value), None);
      return;
    }
    if CheckedSuccessor(limits.stdout).None? {
      return Aborted(InvalidLimit(Stdout), NotNeeded), watch;
    }
    if CheckedSuccessor(limits.stderr).None? {
      return Aborted(InvalidLimit(Stderr), NotNeeded), watch;
    }
    var stdout := new Capture(outPipe, limits.stdout);
    var stderr := new Capture(errPipe, limits.stderr);
    var feed := new Feed(sink, InputBytes(input));
    PlumbedWork(stdout, stderr, feed, limits);
    var status, failure;
    status, failure, watch := EventLoop(child, clock, stdout, stderr, feed, limits);
    if failure.Some? {
      result := Abort(child, clock, failure.value, status);
      return;
    }
    child.KillGroup();
    assert KilledAt(child.log, |child.log| - 1);
    return Finished(status.value, stdout.bytes, stderr.bytes), watch;
  }

  /**
   * `output` and `output_with_input`: the limits are checked before the child
   * exists, so the captures cannot be refused and no exit after the spawn
   * leaves the group alive.
   */
  method Output(child: Child, clock: Clock, outPipe: Pipe, errPipe: Pipe, sink: Sink,
                limits: OutputLimits, input: Option<seq<byte>>, spawned: bool, setup: Option<nat>)
    returns (result: RunResult)
    requires child.reaped == None && child.log == []
    requires outPipe != errPipe && sink.received == [] && sink.last == None
    requires outPipe.pos == 0 && outPipe.last == None && errPipe.pos == 0 && errPipe.last == None
    modifies child, clock, outPipe, errPipe, sink
    ensures ValidateLimits(limits, input).Some? ==>
              result == Aborted(ValidateLimits(limits, input).value, NotNeeded) && child.log == []
    ensures ValidateLimits(limits, input) == None && !spawned ==> result == Aborted(SpawnFailed, NotNeeded)
    ensures ValidateLimits(limits, input) == None && spawned ==>
              Contained(child.log) && (result.Aborted? ==> !result.cause.InvalidLimit? && !result.cleanup.NotNeeded?)
    ensures result.Finished? ==>
              && child.reaped == Some(result.status)
              && result.stdout == outPipe.stream && |outPipe.stream| <= limits.stdout
              && result.stderr == errPipe.stream && |errPipe.stream| <= limits.stderr
              && (sink.received == InputBytes(input) <==> sink.last !in {Some(BrokenPipe), Some(WriteBlocked)})
    ensures sink.received <= InputBytes(input)
  {
    var invalid := ValidateLimits(limits, input);
    if invalid.Some? {
      return Aborted(invalid.value, NotNeeded);
    }
    if !spawned {
      return Aborted(SpawnFailed, NotNeeded);
    }
    ghost var watch;
    result, watch := OutputInner(child, clock, outPipe, errPipe, sink, limits, input, setup);
  }
}
