/**
 * The collaborators of one playback channel, as values: the decoded audio
 * stream (bytes, read position, optional mark) and the output line (open and
 * started flags, the chunks written to it). The functions here are the
 * reference definitions that the methods of GDMAudio are proved against.
 */
module AudioModel {
  import opened Outcomes

  newtype byte = x: int | 0 <= x < 256

  /** Amount of audio data moved per transfer, GDMAudio.BUFFER_SIZE. */
  const BUFFER_SIZE: nat := 4096

  /**
   * A decoded audio stream. `closeFails` stands for a stream whose close()
   * throws an IOException.
   */
  datatype Stream = Stream(data: seq<byte>, pos: nat, mark: nat,
                           markSupported: bool, open: bool, closeFails: bool)
  {
    predicate Valid() { pos <= |data| && mark <= |data| }

    function Available(): nat
      requires Valid()
    {
      |data| - pos
    }

    function Remaining(): seq<byte>
      requires Valid()
    {
      data[pos..]
    }
  }

  /**
   * An output line. `closeFails` stands for a line whose close() throws.
   */
  datatype Line = Line(open: bool, started: bool, written: seq<seq<byte>>, closeFails: bool)

  /**
   * The line getSourceDataLine(format) hands out, once open() has returned:
   * open, not started and with nothing written to it yet.
   */
  function OpenedLine(l: Line): (r: Line)
    ensures r.open && !r.started && r.written == []
    ensures r.closeFails == l.closeFails
  {
    l.(open := true, started := false, written := [])
  }

  /** Everything `GDMAudio` owns that its methods change. `hasThread` is `thread != null`. */
  datatype ChannelState = ChannelState(stream: Stream, line: Line, running: bool, hasThread: bool)
  {
    predicate Valid() { stream.Valid() && running == hasThread }
  }

  /** How a call of run() ended: normally, or with an exception it caught and logged. */
  datatype RunOutcome = Completed | Failed

  // ---------------------------------------------------------------------------
  // Chunking of the bytes that run() transfers

  /** Concatenation of a sequence of chunks. */
  function Flatten(cs: seq<seq<byte>>): seq<byte>
  {
    if cs == [] then [] else cs[0] + Flatten(cs[1..])
  }

  /** The chunks of at most BUFFER_SIZE bytes that run() reads from `s`, in order. */
  function Chunks(s: seq<byte>): (r: seq<seq<byte>>)
    ensures forall i :: 0 <= i < |r| ==> 0 < |r[i]| <= BUFFER_SIZE
    ensures Flatten(r) == s
    decreases |s|
  {
    if s == [] then []
    else
      var n := Min(BUFFER_SIZE, |s|);
      var rest := Chunks(s[n..]);
      assert ([s[..n]] + rest)[1..] == rest;
      assert s[..n] + s[n..] == s;
      [s[..n]] + rest
  }

  lemma {:induction false} FlattenAppend(a: seq<seq<byte>>, b: seq<seq<byte>>)
    ensures Flatten(a + b) == Flatten(a) + Flatten(b)
    decreases |a|
  {
    if a != [] {
      assert (a + b)[1..] == a[1..] + b;
      FlattenAppend(a[1..], b);
      calc {
        Flatten(a + b);
        (a + b)[0] + Flatten((a + b)[1..]);
        a[0] + Flatten(a[1..] + b);
        a[0] + (Flatten(a[1..]) + Flatten(b));
        (a[0] + Flatten(a[1..])) + Flatten(b);
        Flatten(a) + Flatten(b);
      }
    } else {
      assert a + b == b;
    }
  }

  /** Splitting the chunks at k splits the bytes at the length of the first k chunks. */
  lemma FlattenSplit(cs: seq<seq<byte>>, k: nat)
    requires k <= |cs|
    ensures Flatten(cs) == Flatten(cs[..k]) + Flatten(cs[k..])
  {
    assert cs == cs[..k] + cs[k..];
    FlattenAppend(cs[..k], cs[k..]);
  }

  /** The first chunk of a non-empty input and what is left after it. */
  lemma ChunksStep(s: seq<byte>)
    requires s != []
    ensures Chunks(s)[0] == s[..Min(BUFFER_SIZE, |s|)]
    ensures Chunks(s)[1..] == Chunks(s[Min(BUFFER_SIZE, |s|)..])
  {
  }

  /** Every chunk but the last is full, so k chunks hold min(k * BUFFER_SIZE, |s|) bytes. */
  lemma {:induction false} ChunksPrefixLength(s: seq<byte>, k: nat)
    requires k <= |Chunks(s)|
    ensures |Flatten(Chunks(s)[..k])| == Min(k * BUFFER_SIZE, |s|)
    decreases k
  {
    if k > 0 {
      var n := Min(BUFFER_SIZE, |s|);
      ChunksStep(s);
      var cs := Chunks(s);
      assert cs[..k] == [cs[0]] + cs[1..][..k - 1];
      FlattenAppend([cs[0]], cs[1..][..k - 1]);
      assert Flatten([cs[0]]) == cs[0];
      ChunksPrefixLength(s[n..], k - 1);
    }
  }

  // ---------------------------------------------------------------------------
  // The stream operations GDMAudio calls

  /**
   * Whether the constructor's stream.available() throws an IOException: it
   * is called only for a stream that supports marks, and throws once the
   * stream is closed.
   */
  predicate MarkThrows(s: Stream)
  {
    s.markSupported && !s.open
  }

  /** stream.mark(stream.available()), guarded by markSupported() as the constructor guards it. */
  function MarkIfSupported(s: Stream): (r: Stream)
    requires s.Valid() && !MarkThrows(s)
    ensures r.Valid() && r.data == s.data && r.pos == s.pos
    ensures s.markSupported ==> r.mark == s.pos
    ensures !s.markSupported ==> r == s
  {
    if s.markSupported then s.(mark := s.pos) else s
  }

  // ---------------------------------------------------------------------------
  // Reference definitions of GDMAudio's operations

  /** stop(): the line is stopped, the thread forgotten, the flag cleared. */
  function StopSpec(st: ChannelState): (r: ChannelState)
    ensures r.stream == st.stream && r.line.open == st.line.open && r.line.written == st.line.written
    ensures !r.running && !r.hasThread && !r.line.started
  {
    st.(line := st.line.(started := false), running := false, hasThread := false)
  }

  /**
   * reset(): stream.reset() then stream.mark(); the first throws when marks
   * are unsupported or the stream is closed, and then nothing changes.
   */
  function ResetSpec(st: ChannelState): (r: (ChannelState, bool))
    requires st.Valid()
    ensures r.0.Valid()
    ensures r.1 <==> st.stream.markSupported && st.stream.open
    ensures r.1 ==> r.0 == st.(stream := st.stream.(pos := st.stream.mark))
    ensures r.1 ==> r.0.stream.pos == r.0.stream.mark == st.stream.mark
    ensures !r.1 ==> r.0 == st
  {
    if st.stream.markSupported && st.stream.open then
      (st.(stream := st.stream.(pos := st.stream.mark)), true)
    else (st, false)
  }

  /**
   * skip(n): a negative n throws IllegalArgumentException before the stream is
   * touched; on a closed stream skip throws an IOException and false is returned.
   */
  function SkipSpec(st: ChannelState, n: int): (r: Result<(ChannelState, bool)>)
    requires st.Valid()
    ensures r.Throw? <==> n < 0
    ensures r.Throw? ==> r.exception == IllegalArgument
    ensures r.Ok? ==> r.value.0.Valid() && (r.value.1 <==> st.stream.open)
    ensures r.Ok? ==> st.stream.pos <= r.value.0.stream.pos <= st.stream.pos + n
    ensures r.Ok? && r.value.1 ==> r.value.0.stream.pos == st.stream.pos + Min(n, st.stream.Available())
    ensures r.Ok? ==> r.value.0 == st.(stream := st.stream.(pos := r.value.0.stream.pos))
  {
    if n < 0 then Throw(IllegalArgument)
    else if !st.stream.open then Ok((st, false))
    else Ok((st.(stream := st.stream.(pos := st.stream.pos + Min(n, st.stream.Available()))), true))
  }

  /**
   * close(): line.close() then stream.close(); when the first throws the
   * second is not attempted.
   */
  function CloseSpec(st: ChannelState): (r: (ChannelState, bool))
    ensures r.1 <==> !st.line.closeFails && !st.stream.closeFails
    ensures st.line.closeFails ==> r.0 == st
    ensures !st.line.closeFails ==> !r.0.line.open
    ensures r.1 ==> !r.0.stream.open
    ensures r.0.stream.data == st.stream.data && r.0.stream.pos == st.stream.pos
    ensures r.0.running == st.running && r.0.hasThread == st.hasThread
    ensures r.0.line.written == st.line.written
  {
    if st.line.closeFails then (st, false)
    else
      var lineClosed := st.(line := st.line.(open := false));
      if st.stream.closeFails then (lineClosed, false)
      else (lineClosed.(stream := lineClosed.stream.(open := false)), true)
  }

  /** The chunks run() transfers from a state: none when the line is closed. */
  function RunChunks(st: ChannelState): (r: seq<seq<byte>>)
    requires st.Valid()
    ensures !st.line.open ==> r == []
    ensures st.line.open ==> Flatten(r) == st.stream.Remaining()
    ensures forall i :: 0 <= i < |r| ==> 0 < |r[i]| <= BUFFER_SIZE
  {
    if st.line.open then Chunks(st.stream.Remaining()) else []
  }

  /** The first steps of run(): record the thread, set running, start the line. */
  function Begin(st: ChannelState): (r: ChannelState)
    ensures r.running && r.hasThread && r.line.started
    ensures r.stream == st.stream && r.line.open == st.line.open && r.line.written == st.line.written
  {
    st.(running := true, hasThread := true, line := st.line.(started := true))
  }

  /** The state after the transfer loop has copied the first j chunks. */
  function Progress(st: ChannelState, j: nat): (r: ChannelState)
    requires st.Valid() && j <= |RunChunks(st)|
    ensures r.Valid()
    ensures r == st.(stream := r.stream, line := r.line)
  {
    var cs := RunChunks(st);
    FlattenSplit(cs, j);
    st.(stream := st.stream.(pos := st.stream.pos + |Flatten(cs[..j])|),
        line := st.line.(written := st.line.written + cs[..j]))
  }

  /** Copying one more chunk appends it to the line and moves the position past it. */
  lemma ProgressStep(st: ChannelState, j: nat)
    requires st.Valid() && j < |RunChunks(st)|
    ensures var p := Progress(st, j); var c := RunChunks(st)[j];
      Progress(st, j + 1) == p.(stream := p.stream.(pos := p.stream.pos + |c|),
                                line := p.line.(written := p.line.written + [c]))
  {
    var cs := RunChunks(st);
    assert cs[..j + 1] == cs[..j] + [cs[j]];
    FlattenAppend(cs[..j], [cs[j]]);
    assert Flatten([cs[j]]) == cs[j];
  }

  /** After j chunks, the chunks of the rest of the stream are the remaining chunks. */
  lemma {:induction false} ProgressRemaining(st: ChannelState, j: nat)
    requires st.Valid() && st.line.open && j <= |RunChunks(st)|
    ensures Chunks(Progress(st, j).stream.Remaining()) == RunChunks(st)[j..]
    decreases j
  {
    var cs := RunChunks(st);
    if j > 0 {
      ProgressRemaining(st, j - 1);
      var rest := Progress(st, j - 1).stream.Remaining();
      ChunksStep(rest);
      ProgressStep(st, j - 1);
      assert Progress(st, j).stream.Remaining() == rest[Min(BUFFER_SIZE, |rest|)..];
      assert cs[j - 1..][1..] == cs[j..];
    } else {
      assert cs[..0] == [];
      assert Progress(st, 0).stream == st.stream;
    }
  }

  /**
   * The transfer loop of run(): copy chunks while running, data is available
   * and the line is open. available() on a closed stream throws; `fault ==
   * Some(k)` is a read that throws on the (k+1)-th chunk. Either exception
   * ends the loop as Failed.
   */
  function TransferSpec(st: ChannelState, fault: Option<nat>): (r: (ChannelState, RunOutcome))
    requires st.Valid()
    ensures r.0.Valid()
    ensures r.0 == st.(stream := r.0.stream, line := r.0.line)
  {
    var cs := RunChunks(st);
    if !st.stream.open then (st, Failed)
    else if fault.Some? && fault.value < |cs| then (Progress(st, fault.value), Failed)
    else (Progress(st, |cs|), Completed)
  }

  /**
   * run(): Begin, the transfer loop, and, when the loop ends normally (not by
   * a caught exception), stop() followed by reset().
   */
  function RunSpec(st: ChannelState, fault: Option<nat>): (r: (ChannelState, RunOutcome))
    requires st.Valid()
    ensures r.0.Valid()
  {
    var (t, o) := TransferSpec(Begin(st), fault);
    if o == Failed then (t, Failed)
    else (ResetSpec(StopSpec(t)).0, Completed)
  }

  // ---------------------------------------------------------------------------
  // Properties of run()

  /**
   * Every chunk run() writes holds 1 to BUFFER_SIZE bytes, and the chunks,
   * concatenated in order, are exactly the stream bytes it consumed.
   */
  lemma RunWritesStreamInChunks(st: ChannelState, fault: Option<nat>)
    requires st.Valid()
    ensures var r := RunSpec(st, fault).0;
      && |st.line.written| <= |r.line.written|
      && r.line.written[..|st.line.written|] == st.line.written
      && (forall i :: |st.line.written| <= i < |r.line.written| ==> 0 < |r.line.written[i]| <= BUFFER_SIZE)
      && r.stream.data == st.stream.data
  {
  }

  /**
   * A run that ends normally on an open line writes the whole rest of the
   * stream, in chunks; one ending at a fault writes a prefix of it.
   */
  lemma RunTransfersRemaining(st: ChannelState, fault: Option<nat>)
    requires st.Valid() && st.stream.open && st.line.open
    ensures var (r, o) := RunSpec(st, fault);
      |st.line.written| <= |r.line.written| &&
      (o == Completed ==> Flatten(r.line.written[|st.line.written|..]) == st.stream.Remaining()) &&
      (o == Failed ==> exists k :: 0 <= k <= |st.stream.Remaining()| &&
                         Flatten(r.line.written[|st.line.written|..]) == st.stream.Remaining()[..k] &&
                         r.stream.pos == st.stream.pos + k)
  {
    var (r, o) := RunSpec(st, fault);
    var cs := RunChunks(st);
    var s := st.stream.Remaining();
    if o == Failed {
      var k := fault.value;
      assert r.line.written[|st.line.written|..] == cs[..k];
      FlattenSplit(cs, k);
      var m := |Flatten(cs[..k])|;
      assert Flatten(cs[..k]) == s[..m];
    } else {
      assert r.line.written[|st.line.written|..] == cs;
    }
  }

  /**
   * When run() ends normally the channel is free again and has no thread; if
   * the stream supports marks its position is back at the mark.
   */
  lemma RunCompletedFreesChannel(st: ChannelState, fault: Option<nat>)
    requires st.Valid()
    requires RunSpec(st, fault).1 == Completed
    ensures var r := RunSpec(st, fault).0;
      && !r.running && !r.hasThread && !r.line.started
      && (st.stream.markSupported ==> r.stream.pos == r.stream.mark == st.stream.mark)
      && r.line.open == st.line.open
  {
  }

  /** A caught exception leaves the channel busy: running and its thread stay set. */
  lemma RunFailedLeavesBusy(st: ChannelState, fault: Option<nat>)
    requires st.Valid()
    requires RunSpec(st, fault).1 == Failed
    ensures var r := RunSpec(st, fault).0;
      r.running && r.hasThread && r.line.started && r.stream.mark == st.stream.mark
  {
  }

  /** run() fails exactly when the stream is closed or the fault hits before the data runs out. */
  lemma RunFailsIff(st: ChannelState, fault: Option<nat>)
    requires st.Valid()
    ensures RunSpec(st, fault).1 == Failed <==>
      !st.stream.open || (fault.Some? && fault.value < |RunChunks(st)|)
  {
  }

  /**
   * Rewinding round trip: from a stream positioned at its mark, a run that
   * ends normally restores the stream, so a second run writes the same chunks
   * again.
   */
  lemma {:induction false} RunReplays(st: ChannelState)
    requires st.Valid() && st.stream.markSupported && st.stream.open && st.line.open
    requires st.stream.pos == st.stream.mark
    ensures var (r1, o1) := RunSpec(st, None);
      && o1 == Completed && r1.stream == st.stream
      && var (r2, o2) := RunSpec(r1, None);
      && o2 == Completed && r2.stream == st.stream
      && r1.line.written == st.line.written + Chunks(st.stream.Remaining())
      && r2.line.written == r1.line.written + Chunks(st.stream.Remaining())
  {
    var cs := RunChunks(st);
    FlattenSplit(cs, |cs|);
    assert cs[..|cs|] == cs;
    assert |Flatten(cs)| == |st.stream.Remaining()|;
    var r1 := RunSpec(st, None).0;
    assert r1.stream == st.stream;
    assert RunChunks(r1) == cs;
  }

  /** stop() is idempotent and never moves the read position. */
  lemma StopIdempotent(st: ChannelState)
    ensures StopSpec(StopSpec(st)) == StopSpec(st)
    ensures StopSpec(st).stream.pos == st.stream.pos
  {
  }

  /** A successful close() is idempotent when the collaborators close cleanly. */
  lemma CloseIdempotent(st: ChannelState)
    requires CloseSpec(st).1
    ensures CloseSpec(CloseSpec(st).0) == CloseSpec(st)
  {
  }
}
