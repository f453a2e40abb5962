/**
 * The non-blocking pipe ends of the bounded subprocess runner
 * (xtask/src/bounded_process.rs): two captures, one incremental writer, and
 * the one-shot reader that a capture must agree with.
 *
 * The environment is demonic: a pipe end may at every call move any positive
 * number of bytes up to what is asked for, report would-block, or fail.
 */
module BoundedPipes {
  import opened Wrappers

  const USIZE_MAX: nat := 0xFFFF_FFFF_FFFF_FFFF
  const CHUNK: nat := 8192

  type usize = n: nat | n <= USIZE_MAX
  type byte = bv8

  datatype ReadOutcome = Chunk(count: nat) | Eof | ReadBlocked | ReadError(kind: nat)

  datatype WriteOutcome = Accepted(count: nat) | WriteBlocked | BrokenPipe | WriteError(kind: nat)

  /** An `io::Result` that keeps what the operating system answered. */
  datatype Outcome<+T, +E> = Done(value: T) | Failed(error: E)

  /** `Option`'s `checked_add(1)` on `usize`. */
  function CheckedSuccessor(n: usize): (r: Option<usize>)
    ensures r.None? <==> n == USIZE_MAX
    ensures r.Some? ==> r.value == n + 1
  {
    if n == USIZE_MAX then None else Some(n + 1)
  }

  /** The read end of a pipe; `stream` is everything its writers will ever put into it. */
  class Pipe {
    const stream: seq<byte>
    var pos: nat
    ghost var last: Option<ReadOutcome>

    constructor (stream: seq<byte>)
      ensures this.stream == stream && pos == 0 && last == None
    {
      this.stream, pos, last := stream, 0, None;
    }

    /** `Read::read` on a non-blocking descriptor; end of file only once every byte has been delivered. */
    method Read(buffer: array<byte>, wanted: nat) returns (outcome: ReadOutcome)
      requires 0 < wanted <= buffer.Length && pos <= |stream|
      modifies this, buffer
      ensures last == Some(outcome) && old(pos) <= pos <= |stream|
      ensures outcome.Chunk? ==>
                && 0 < outcome.count <= wanted && pos == old(pos) + outcome.count
                && buffer[..outcome.count] == stream[old(pos)..pos]
      ensures !outcome.Chunk? ==> pos == old(pos)
      ensures outcome.Eof? ==> pos == |stream|
    {
      if * {
        outcome := ReadBlocked;
      } else if * {
        var kind: nat :| true;
        outcome := ReadError(kind);
      } else if pos == |stream| {
        outcome := Eof;
      } else {
        var room := if |stream| - pos < wanted then |stream| - pos else wanted;
        assert 0 < room;
        var count :| 0 < count <= room;
        forall i | 0 <= i < count {
          buffer[i] := stream[pos + i];
        }
        pos := pos + count;
        outcome := Chunk(count);
      }
      last := Some(outcome);
    }
  }

  /** The write end of the child's standard input. */
  class Sink {
    var received: seq<byte>
    ghost var last: Option<WriteOutcome>

    constructor ()
      ensures received == [] && last == None
    {
      received, last := [], None;
    }

    method Write(data: seq<byte>) returns (outcome: WriteOutcome)
      modifies this
      ensures last == Some(outcome)
      ensures outcome.Accepted? ==> outcome.count <= |data| && received == old(received) + data[..outcome.count]
      ensures !outcome.Accepted? ==> received == old(received)
    {
      if * {
        outcome := WriteBlocked;
      } else if * {
        outcome := BrokenPipe;
      } else if * {
        var kind: nat :| true;
        outcome := WriteError(kind);
      } else {
        var count :| 0 <= count <= |data|;
        received := received + data[..count];
        outcome := Accepted(count);
      }
      last := Some(outcome);
    }
  }

  datatype BoundedPipe = BoundedPipe(bytes: seq<byte>, exceeded: bool)

  /** What bounding a stream means: at most one byte past the limit, and whether there was one. */
  function Bounded(stream: seq<byte>, limit: nat): BoundedPipe {
    if |stream| > limit then BoundedPipe(stream[..limit + 1], true) else BoundedPipe(stream, false)
  }

  lemma SettledIsBounded(bytes: seq<byte>, stream: seq<byte>, limit: nat)
    requires bytes <= stream && |bytes| <= limit + 1
    ensures |bytes| > limit || |bytes| == |stream| ==> BoundedPipe(bytes, |bytes| > limit) == Bounded(stream, limit)
  {}

  /** `read_bounded_pipe`: no error means exactly the bounded stream. */
  method ReadBoundedPipe(reader: Pipe, limit: usize) returns (result: Outcome<BoundedPipe, Option<ReadOutcome>>)
    requires reader.pos == 0
    modifies reader
    ensures limit == USIZE_MAX ==> result == Failed(None)
    ensures result.Done? ==> result.value == Bounded(reader.stream, limit)
    ensures result.Failed? && limit < USIZE_MAX ==> result.error == reader.last && reader.last.Some?
    ensures reader.pos <= limit + 1
  {
    var sentinel := CheckedSuccessor(limit);
    if sentinel.None? {
      return Failed(None);
    }
    var bytes: seq<byte> := [];
    var buffer := new byte[CHUNK];
    while |bytes| < sentinel.value
      invariant |bytes| == reader.pos <= |reader.stream| && |bytes| <= sentinel.value
      invariant bytes == reader.stream[..reader.pos]
      decreases sentinel.value - |bytes|
    {
      var remaining := sentinel.value - |bytes|;
      var outcome := reader.Read(buffer, if remaining < CHUNK then remaining else CHUNK);
      match outcome
      case Eof =>
        return Done(BoundedPipe(bytes, |bytes| > limit));
      case Chunk(count) =>
        assert reader.stream[..reader.pos] == bytes + reader.stream[|bytes|..reader.pos];
        bytes := bytes + buffer[..count];
      case _ =>
        return Failed(Some(outcome));
    }
    return Done(BoundedPipe(bytes, |bytes| > limit));
  }

  /** `Capture`: one output stream of the child, kept up to one byte past its limit. */
  class Capture {
    const source: Pipe
    const limit: nat
    var open: bool
    var bytes: seq<byte>

    ghost predicate Valid()
      reads this, source
    {
      && |bytes| == source.pos <= |source.stream|
      && |bytes| <= limit + 1
      && bytes == source.stream[..source.pos]
      && (open <==> source.last != Some(Eof))
      && (!open ==> |bytes| == |source.stream| <= limit)
    }

    constructor (source: Pipe, limit: nat)
      requires source.pos == 0 && source.last == None
      ensures Valid() && this.source == source && this.limit == limit && open && bytes == []
    {
      this.source, this.limit, open, bytes := source, limit, true, [];
    }

    predicate Complete()
      reads this
    {
      !open
    }

    predicate Exceeded()
      reads this
    {
      |bytes| > limit
    }

    /** How many more bytes and closings `Drain` can report. */
    ghost function Budget(): int
      reads this
    {
      limit + 1 - |bytes| + (if open then 1 else 0)
    }

    /**
     * `Capture::drain`: consumes what is available now. However short the reads
     * and however often it is called, a capture that is complete or exceeded
     * holds exactly what the one-shot reader would return.
     */
    method Drain() returns (result: Outcome<bool, nat>)
      requires Valid()
      modifies this, source
      ensures Valid() && old(bytes) <= bytes
      ensures !old(open) || old(|bytes| > limit) ==> result == Done(false)
      ensures Budget() <= old(Budget())
      ensures result == Done(true) ==> Budget() < old(Budget())
      ensures result == Done(false) ==> bytes == old(bytes) && open == old(open)
      ensures result.Done? && open && |bytes| <= limit ==> source.last == Some(ReadBlocked)
      ensures result.Failed? ==> source.last == Some(ReadError(result.error)) && |bytes| <= limit
      ensures Complete() || Exceeded() ==> BoundedPipe(bytes, Exceeded()) == Bounded(source.stream, limit)
    {
      hide Bounded;
      SettledIsBounded(bytes, source.stream, limit);
      if !open {
        return Done(false);
      }
      var sentinel := limit + 1;
      if |bytes| >= sentinel {
        return Done(false);
      }
      var progressed := false;
      var buffer := new byte[CHUNK];
      while true
        invariant Valid() && open && |bytes| < sentinel && old(bytes) <= bytes
        invariant progressed <==> |old(bytes)| < |bytes|
        decreases sentinel - |bytes|
      {
        var remaining := sentinel - |bytes|;
        var outcome := source.Read(buffer, if remaining < CHUNK then remaining else CHUNK);
        match outcome
        case Eof =>
          open := false;
          SettledIsBounded(bytes, source.stream, limit);
          return Done(true);
        case Chunk(count) =>
          assert source.stream[..source.pos] == bytes + source.stream[|bytes|..source.pos];
          bytes := bytes + buffer[..count];
          progressed := true;
          if |bytes| >= sentinel {
            SettledIsBounded(bytes, source.stream, limit);
            return Done(true);
          }
        case ReadBlocked =>
          return Done(progressed);
        case ReadError(kind) =>
          return Failed(kind);
      }
    }
  }

  /** Standard input being fed: the writer (`open` while held), the input, and the offset. */
  class Feed {
    const sink: Sink
    const input: seq<byte>
    var open: bool
    var offset: nat

    /** What was written is exactly the input up to the offset; a writer given up early saw a broken pipe. */
    ghost predicate Valid()
      reads this, sink
    {
      && offset <= |input|
      && sink.received == input[..offset]
      && (open ==> offset < |input|)
      && (!open && offset < |input| ==> sink.last == Some(BrokenPipe))
      && (sink.last in {Some(BrokenPipe), Some(WriteBlocked)} ==> offset < |input|)
    }

    constructor (sink: Sink, input: seq<byte>)
      requires sink.received == [] && sink.last == None
      ensures Valid() && this.sink == sink && this.input == input && offset == 0
    {
      this.sink, this.input, open, offset := sink, input, input != [], 0;
    }

    ghost function Budget(): int
      reads this
    {
      |input| - offset + (if open then 1 else 0)
    }

    /** `write_input`. `Failed(None)` is the write that accepted nothing. */
    method WriteInput() returns (result: Outcome<bool, Option<nat>>)
      requires Valid()
      modifies this, sink
      ensures Valid() && old(sink.received) <= sink.received
      ensures !old(open) ==> result == Done(false)
      ensures Budget() <= old(Budget())
      ensures result == Done(true) ==> Budget() < old(Budget())
      ensures result == Done(false) ==> offset == old(offset) && open == old(open)
      ensures result.Done? && open ==> sink.last == Some(WriteBlocked)
      ensures result.Failed? ==>
                sink.last == Some(if result.error.Some? then WriteError(result.error.value) else Accepted(0))
    {
      if !open {
        return Done(false);
      }
      var progressed := false;
      while offset < |input|
        invariant offset <= |input| && open && sink.received == input[..offset]
        invariant old(offset) <= offset && (progressed <==> old(offset) < offset)
        invariant sink.last in {Some(BrokenPipe), Some(WriteBlocked)} ==> offset < |input|
        decreases |input| - offset
      {
        var outcome := sink.Write(input[offset..]);
        match outcome
        case Accepted(count) =>
          if count == 0 {
            return Failed(None);
          }
          assert input[..offset] + input[offset..][..count] == input[..offset + count];
          offset := offset + count;
          progressed := true;
        case WriteBlocked =>
          return Done(progressed);
        case BrokenPipe =>
          open := false;
          return Done(true);
        case WriteError(kind) =>
          return Failed(Some(kind));
      }
      open := false;
      return Done(true);
    }
  }
}
