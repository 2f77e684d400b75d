/**
 * One playback channel: a decoded stream, a transfer buffer of BUFFER_SIZE
 * bytes and an output line, with a running flag and the playing thread.
 * Every method is proved to change the state exactly as the matching
 * reference definition of AudioModel says.
 */
module Audio {
  import opened Outcomes
  import opened AudioModel

  class GDMAudio {
    var stream: Stream
    var line: Line
    var running: bool
    /** Whether `thread` is set: run() records its thread, stop() forgets it. */
    var hasThread: bool
    const buffer: array<byte>

    ghost predicate Valid()
      reads this
    {
      buffer.Length == BUFFER_SIZE && State().Valid()
    }

    function State(): ChannelState
      reads this
    {
      ChannelState(stream, line, running, hasThread)
    }

    /**
     * Marks the stream at its position when it supports marks, allocates the
     * buffer and opens the line obtained for the stream's format. The
     * IOException that marking a closed stream raises is the caller's
     * outcome (AudioEngine.GDMAudioEngine.MakeChannel), so no channel is
     * built for such a stream.
     */
    constructor (s: Stream, l: Line)
      requires s.Valid() && !MarkThrows(s)
      ensures Valid() && fresh(buffer)
      ensures stream == MarkIfSupported(s)
      ensures line == OpenedLine(l)
      ensures !running && !hasThread
      ensures !IsClosed() && IsFree()
    {
      stream := MarkIfSupported(s);
      buffer := new byte[BUFFER_SIZE];
      line := OpenedLine(l);
      running := false;
      hasThread := false;
    }

    /** Whether the channel is not playing. */
    predicate IsFree()
      reads this
    {
      !running
    }

    /** Whether the channel's line is closed. */
    predicate IsClosed()
      reads this
    {
      !line.open
    }

    /**
     * stream.read(buffer, 0, buffer.length): fills the buffer with the next
     * bytes of the stream, as many as fit.
     */
    method ReadChunk() returns (n: nat)
      requires Valid()
      modifies this, buffer
      ensures Valid()
      ensures n == Min(BUFFER_SIZE, old(stream.Available()))
      ensures buffer[..n] == old(stream.Remaining())[..n]
      ensures stream == old(stream).(pos := old(stream.pos) + n)
      ensures line == old(line) && running == old(running) && hasThread == old(hasThread)
    {
      var s := stream;
      n := Min(BUFFER_SIZE, s.Available());
      for i := 0 to n
        modifies buffer
        invariant buffer[..i] == s.data[s.pos..s.pos + i]
      {
        buffer[i] := s.data[s.pos + i];
      }
      assert buffer[..n] == s.Remaining()[..n];
      stream := s.(pos := s.pos + n);
    }

    /**
     * Plays the stream: copies it chunk by chunk to the line. An exception
     * (a closed stream, or `fault`, a read failing on the (k+1)-th chunk) is
     * caught and ends the run with the channel still running.
     */
    method Run(fault: Option<nat>) returns (outcome: RunOutcome)
      requires Valid()
      modifies this, buffer
      ensures Valid()
      ensures (State(), outcome) == RunSpec(old(State()), fault)
    {
      hasThread := true;
      running := true;
      line := line.(started := true);
      outcome := Transfer(fault);
      if outcome == Completed && running {
        Stop();
        var _ := Reset();
      }
    }

    /** The `while` loop of run(), with the exceptions it can raise. */
    method Transfer(fault: Option<nat>) returns (outcome: RunOutcome)
      requires Valid() && running
      modifies this, buffer
      ensures Valid()
      ensures (State(), outcome) == TransferSpec(old(State()), fault)
    {
      ghost var st0 := State();
      ghost var cs := RunChunks(st0);
      var j := 0;
      assert cs[..0] == [];
      while true
        invariant j <= |cs|
        invariant State() == Progress(st0, j) && Valid()
        invariant j > 0 ==> stream.open
        invariant fault.Some? ==> j <= fault.value
        decreases |cs| - j
      {
        if !stream.open {
          // available() throws on a closed stream
          return Failed;
        }
        if !(running && stream.Available() > 0 && !IsClosed()) {
          break;
        }
        ProgressRemaining(st0, j);
        if fault == Some(j) {
          // stream.read() throws
          return Failed;
        }
        CopyChunk(st0, j);
        j := j + 1;
      }
      if line.open {
        ProgressRemaining(st0, j);
      }
      return Completed;
    }

    /**
     * One pass of the loop: read the next chunk into the buffer and write it
     * to the line, so that j + 1 of the chunks of `st0` are copied.
     */
    method CopyChunk(ghost st0: ChannelState, ghost j: nat)
      requires Valid() && st0.Valid() && st0.line.open && j < |RunChunks(st0)|
      requires State() == Progress(st0, j)
      modifies this, buffer
      ensures Valid() && State() == Progress(st0, j + 1)
    {
      ProgressRemaining(st0, j);
      ProgressStep(st0, j);
      ghost var rest := stream.Remaining();
      ChunksStep(rest);
      var n := ReadChunk();
      line := line.(written := line.written + [buffer[..n]]);
    }

    /** Pauses playback: unconditional, the read position stays where it is. */
    method Stop()
      requires Valid()
      modifies this
      ensures Valid()
      ensures State() == StopSpec(old(State()))
    {
      line := line.(started := false);
      hasThread := false;
      running := false;
    }

    /** Rewinds the stream to its mark and marks it there again. */
    method Reset() returns (ok: bool)
      requires Valid()
      modifies this
      ensures Valid()
      ensures (State(), ok) == ResetSpec(old(State()))
    {
      if !stream.markSupported || !stream.open {
        // stream.reset() throws an IOException
        return false;
      }
      stream := stream.(pos := stream.mark);
      stream := stream.(mark := stream.pos);
      return true;
    }

    /** Skips `bytes` bytes of the stream; a negative amount is an illegal argument. */
    method Skip(bytes: int) returns (r: Result<bool>)
      requires Valid()
      modifies this
      ensures Valid()
      ensures match SkipSpec(old(State()), bytes)
        case Throw(e) => r == Throw(e) && State() == old(State())
        case Ok((st, ok)) => r == Ok(ok) && State() == st
    {
      if bytes < 0 {
        return Throw(IllegalArgument);
      }
      if !stream.open {
        // stream.skip() throws an IOException
        return Ok(false);
      }
      stream := stream.(pos := stream.pos + Min(bytes, stream.Available()));
      return Ok(true);
    }

    /**
     * Waits for the recorded thread. Without one it returns false at once, so
     * it never blocks after stop().
     */
    method Await() returns (ok: bool)
      requires Valid()
      ensures ok <==> hasThread
      ensures ok <==> !IsFree()
    {
      if hasThread {
        // thread.join()
        return true;
      }
      return false;
    }

    /** Closes the line, then the stream; false when either throws. */
    method Close() returns (ok: bool)
      requires Valid()
      modifies this
      ensures Valid()
      ensures (State(), ok) == CloseSpec(old(State()))
    {
      if line.closeFails {
        return false;
      }
      line := line.(open := false);
      if stream.closeFails {
        return false;
      }
      stream := stream.(open := false);
      return true;
    }
  }
}
