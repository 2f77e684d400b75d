/**
 * The audio engine: a fixed arena of channel slots addressed by index, with a
 * parallel array of the handles that play() records. A slot is free when it
 * is empty or its channel's line is closed; load() fills the first free one.
 */
module AudioEngine {
  import opened Outcomes
  import opened AudioModel
  import opened Audio

  /** The Future that submitting a channel's run() to the pool returns. */
  datatype Handle = Submitted(slot: nat)

  /** First fit: the least index holding true, or -1 when there is none. */
  function FirstFit(free: seq<bool>): (r: int)
    ensures -1 <= r < |free|
    ensures r >= 0 ==> free[r] && forall j :: 0 <= j < r ==> !free[j]
    ensures r == -1 <==> forall j :: 0 <= j < |free| ==> !free[j]
  {
    if free == [] then -1
    else if free[0] then 0
    else
      var r := FirstFit(free[1..]);
      if r == -1 then -1 else r + 1
  }

  class GDMAudioEngine {
    const channels: array<GDMAudio?>
    const futures: array<Option<Handle>>

    ghost predicate Valid()
      reads channels, channels[..]
    {
      && channels.Length == futures.Length
      && (forall i :: 0 <= i < channels.Length && channels[i] != null ==> channels[i].Valid())
      // every slot is filled with a new channel, so no channel sits in two slots
      && (forall i, j :: 0 <= i < j < channels.Length && channels[i] != null ==> channels[i] != channels[j])
    }

    /** A slot load() may fill: empty, or holding a channel whose line is closed. */
    predicate SlotFree(i: int)
      requires 0 <= i < channels.Length
      reads channels, channels[..]
    {
      channels[i] == null || channels[i].IsClosed()
    }

    /** For each slot in order, whether it is free. */
    ghost function FreeMask(): (m: seq<bool>)
      reads channels, channels[..]
      ensures |m| == channels.Length
      ensures forall i :: 0 <= i < |m| ==> m[i] == SlotFree(i)
    {
      seq(channels.Length, i requires 0 <= i < channels.Length reads channels, channels[..] => SlotFree(i))
    }

    /** A channel number in range whose slot has been loaded (closed or not). */
    predicate IsValidChannel(c: int)
      reads channels
    {
      0 <= c < channels.Length && channels[c] != null
    }

    /** An engine with n empty slots and no recorded handles. */
    constructor (n: nat)
      ensures Valid() && fresh(channels) && fresh(futures)
      ensures channels.Length == n && futures.Length == n
      ensures forall i :: 0 <= i < n ==> channels[i] == null && futures[i] == None
      ensures FreeMask() == seq(n, i => true)
    {
      channels := new GDMAudio?[n](i => null);
      futures := new Option<Handle>[n](i => None);
    }

    /** First-fit scan of the slots; -1 when none is free. */
    method GetFreeChannel() returns (i: int)
      requires Valid()
      ensures i == FirstFit(FreeMask())
    {
      for k := 0 to channels.Length
        invariant forall j :: 0 <= j < k ==> !SlotFree(j)
      {
        if channels[k] == null || channels[k].IsClosed() {
          ghost var m := FreeMask();
          assert m[k] && forall j :: 0 <= j < k ==> !m[j];
          return k;
        }
      }
      return -1;
    }

    /**
     * Opens a channel on the first free slot. With no free slot it throws
     * IllegalStateException. The channel's constructor then marks the stream,
     * which throws an IOException for a closed markable stream, and obtains
     * the line, which throws LineUnavailableException when there is none
     * (`line == None`). On any exception no slot changes. Otherwise only
     * slot i is replaced, and i is returned.
     */
    method MakeChannel(stream: Stream, line: Option<Line>) returns (r: Result<nat>)
      requires Valid() && stream.Valid()
      modifies channels
      ensures Valid()
      ensures var i := FirstFit(old(FreeMask()));
        && (i == -1 ==> r == Throw(IllegalState))
        && (i >= 0 && MarkThrows(stream) ==> r == Throw(IOFailure))
        && (i >= 0 && !MarkThrows(stream) && line.None? ==> r == Throw(LineUnavailable))
        && (i >= 0 && !MarkThrows(stream) && line.Some? ==> r == Ok(i))
      ensures r.Throw? ==> channels[..] == old(channels[..])
      ensures r.Ok? ==> && channels[..] == old(channels[..])[r.value := channels[r.value]]
                        && fresh(channels[r.value])
                        && channels[r.value].State() ==
                           ChannelState(MarkIfSupported(stream), OpenedLine(line.value), false, false)
      ensures FreeMask() == if r.Ok? then old(FreeMask())[r.value := false] else old(FreeMask())
    {
      ghost var free := FreeMask();
      var i := GetFreeChannel();
      if i < 0 {
        return Throw(IllegalState);
      }
      if MarkThrows(stream) {
        // stream.available() throws an IOException
        return Throw(IOFailure);
      }
      if line.None? {
        return Throw(LineUnavailable);
      }
      Install(i, stream, line.value);
      assert FreeMask() == free[i := false];
      return Ok(i);
    }

    /** channels[i] = new GDMAudio(stream, format), for a stream that can be marked. */
    method Install(i: nat, stream: Stream, l: Line)
      requires Valid() && stream.Valid() && !MarkThrows(stream) && i < channels.Length
      modifies channels
      ensures Valid()
      ensures channels[..] == old(channels[..])[i := channels[i]]
      ensures channels[i] != null && fresh(channels[i])
      ensures channels[i].State() == ChannelState(MarkIfSupported(stream), OpenedLine(l), false, false)
      ensures FreeMask() == old(FreeMask())[i := false]
    {
      var ch := new GDMAudio(stream, l);
      channels[i] := ch;
    }

    /**
     * load() on an audio resource: `decoded` is what the decoder produced
     * (None when the resource is unsupported or unreadable). Decoding comes
     * before the search for a free slot.
     */
    method Load(decoded: Option<Stream>, line: Option<Line>) returns (r: Result<nat>)
      requires Valid()
      requires decoded.Some? ==> decoded.value.Valid()
      modifies channels
      ensures Valid()
      ensures decoded.None? ==> r == Throw(DecodeFailure)
      ensures var i := FirstFit(old(FreeMask()));
        && (decoded.Some? && i == -1 ==> r == Throw(IllegalState))
        && (decoded.Some? && i >= 0 && MarkThrows(decoded.value) ==> r == Throw(IOFailure))
        && (decoded.Some? && i >= 0 && !MarkThrows(decoded.value) && line.None? ==> r == Throw(LineUnavailable))
        && (decoded.Some? && i >= 0 && !MarkThrows(decoded.value) && line.Some? ==> r == Ok(i))
      ensures r.Throw? ==> channels[..] == old(channels[..])
      ensures r.Ok? ==> && channels[..] == old(channels[..])[r.value := channels[r.value]]
                        && fresh(channels[r.value])
                        && channels[r.value].State() ==
                           ChannelState(MarkIfSupported(decoded.value), OpenedLine(line.value), false, false)
      ensures FreeMask() == if r.Ok? then old(FreeMask())[r.value := false] else old(FreeMask())
    {
      if decoded.None? {
        return Throw(DecodeFailure);
      }
      r := MakeChannel(decoded.value, line);
    }

    /**
     * Submits a free channel's run() to the pool and records its handle; a
     * busy channel is left alone and false is returned.
     */
    method Play(c: int) returns (r: Result<bool>)
      requires Valid()
      modifies futures
      ensures Valid()
      ensures !IsValidChannel(c) ==> r == Throw(IllegalArgument) && futures[..] == old(futures[..])
      ensures IsValidChannel(c) ==> r == Ok(channels[c].IsFree())
      ensures IsValidChannel(c) ==>
        futures[..] == if channels[c].IsFree() then old(futures[..])[c := Some(Submitted(c))]
                       else old(futures[..])
    {
      if !IsValidChannel(c) {
        return Throw(IllegalArgument);
      }
      if channels[c].IsFree() {
        futures[c] := Some(Submitted(c));
        return Ok(true);
      }
      return Ok(false);
    }

    /**
     * Runs a free channel on the calling thread; `fault` is passed to its
     * run(). No handle is recorded.
     */
    method PlayAndAwait(c: int, fault: Option<nat>) returns (r: Result<bool>)
      requires Valid()
      modifies if IsValidChannel(c) then {channels[c], channels[c].buffer} else {}
      ensures Valid()
      ensures !IsValidChannel(c) ==> r == Throw(IllegalArgument)
      ensures IsValidChannel(c) ==> r == Ok(old(channels[c].IsFree()))
      ensures IsValidChannel(c) ==>
        channels[c].State() == if old(channels[c].IsFree()) then RunSpec(old(channels[c].State()), fault).0
                               else old(channels[c].State())
    {
      if !IsValidChannel(c) {
        return Throw(IllegalArgument);
      }
      if channels[c].IsFree() {
        var _ := channels[c].Run(fault);
        return Ok(true);
      }
      return Ok(false);
    }

    /**
     * Waits on the handle recorded for a channel. With none recorded the
     * lookup fails and false is returned instead of an exception.
     */
    method Await(c: int) returns (r: Result<bool>)
      requires Valid()
      ensures !IsValidChannel(c) ==> r == Throw(IllegalArgument)
      ensures IsValidChannel(c) ==> r == Ok(futures[c].Some?)
    {
      if !IsValidChannel(c) {
        return Throw(IllegalArgument);
      }
      // futures[c].get(); a missing handle throws and is caught
      return Ok(futures[c].Some?);
    }

    /** Pauses a channel. */
    method Stop(c: int) returns (r: Result<()>)
      requires Valid()
      modifies if IsValidChannel(c) then {channels[c]} else {}
      ensures Valid()
      ensures !IsValidChannel(c) ==> r == Throw(IllegalArgument)
      ensures IsValidChannel(c) ==> r == Ok(()) && channels[c].State() == StopSpec(old(channels[c].State()))
    {
      if !IsValidChannel(c) {
        return Throw(IllegalArgument);
      }
      channels[c].Stop();
      return Ok(());
    }

    /**
     * Closes a channel. The slot keeps the closed channel, so the number stays
     * valid and the slot becomes free exactly when its line closed.
     */
    method Unload(c: int) returns (r: Result<bool>)
      requires Valid()
      modifies if IsValidChannel(c) then {channels[c]} else {}
      ensures Valid()
      ensures !IsValidChannel(c) ==> r == Throw(IllegalArgument)
      ensures IsValidChannel(c) ==> r.Ok? && (channels[c].State(), r.value) == CloseSpec(old(channels[c].State()))
      ensures IsValidChannel(c) ==> FreeMask() == old(FreeMask())[c := channels[c].IsClosed()]
      ensures IsValidChannel(c) && r.value ==> FreeMask() == old(FreeMask())[c := true]
    {
      if !IsValidChannel(c) {
        return Throw(IllegalArgument);
      }
      var ok := channels[c].Close();
      return Ok(ok);
    }

    /**
     * Closes every loaded slot, carrying on after a failure, and reports
     * whether every close succeeded.
     */
    method UnloadAll() returns (ok: bool)
      requires Valid()
      modifies channels[..]
      ensures Valid()
      ensures forall i :: 0 <= i < channels.Length && channels[i] != null ==>
        channels[i].State() == CloseSpec(old(channels[i].State())).0
      ensures ok <==> forall i :: 0 <= i < channels.Length && channels[i] != null ==>
        CloseSpec(old(channels[i].State())).1
    {
      ok := true;
      for i := 0 to channels.Length
        invariant Valid()
        invariant forall j :: 0 <= j < i && channels[j] != null ==>
          channels[j].State() == CloseSpec(old(channels[j].State())).0
        invariant forall j :: i <= j < channels.Length && channels[j] != null ==>
          channels[j].State() == old(channels[j].State())
        invariant ok <==> forall j :: 0 <= j < i && channels[j] != null ==>
          CloseSpec(old(channels[j].State())).1
      {
        if channels[i] != null {
          var closed := channels[i].Close();
          if !closed {
            ok := false;
          }
        }
      }
    }
  }

  /** Loads three streams into an engine with two free slots. */
  method LoadThree(engine: GDMAudioEngine, a: Stream, b: Stream, c: Stream, line: Line)
    returns (r0: Result<nat>, r1: Result<nat>, r2: Result<nat>)
    requires engine.Valid() && engine.FreeMask() == [true, true]
    requires a.Valid() && b.Valid() && c.Valid() && a.open && b.open && c.open
    modifies engine.channels
    ensures engine.Valid() && engine.FreeMask() == [false, false]
    ensures r0 == Ok(0) && r1 == Ok(1) && r2 == Throw(IllegalState)
    ensures engine.channels[0] != null && fresh(engine.channels[0])
    ensures engine.channels[0].State().stream.closeFails == a.closeFails
    ensures engine.channels[0].State().line.closeFails == line.closeFails
  {
    assert FirstFit([true, true]) == 0;
    r0 := engine.Load(Some(a), Some(line));
    assert engine.FreeMask() == [false, true];
    assert FirstFit([false, true]) == 1;
    r1 := engine.Load(Some(b), Some(line));
    assert engine.FreeMask() == [false, false];
    assert FirstFit([false, false]) == -1;
    r2 := engine.Load(Some(c), Some(line));
  }

  /**
   * Two slots: two loads fill slots 0 and 1, a third finds no free slot,
   * unloading slot 0 frees it and the next load reuses it.
   */
  method TwoChannelScenario(a: Stream, b: Stream, c: Stream, line: Line)
    returns (r0: Result<nat>, r1: Result<nat>, r2: Result<nat>, u: Result<bool>, r3: Result<nat>)
    requires a.Valid() && b.Valid() && c.Valid() && a.open && b.open && c.open
    requires !a.closeFails && !line.closeFails
    ensures r0 == Ok(0) && r1 == Ok(1) && r2 == Throw(IllegalState)
    ensures u == Ok(true) && r3 == Ok(0)
  {
    var engine := new GDMAudioEngine(2);
    assert engine.FreeMask() == [true, true];
    r0, r1, r2 := LoadThree(engine, a, b, c, line);
    u := engine.Unload(0);
    assert engine.FreeMask() == [true, false];
    assert FirstFit([true, false]) == 0;
    r3 := engine.Load(Some(c), Some(line));
  }

  /** The first free slot of a mask whose slots from i on are free. */
  lemma FirstFitOfSuffix(n: nat, i: nat)
    requires i <= n
    ensures FirstFit(seq(n, j => j >= i)) == if i < n then i else -1
  {
    var m := seq(n, j => j >= i);
    if i < n {
      assert m[i];
    }
  }

  /** Taking slot i of a mask whose slots from i on are free leaves the slots from i + 1 on free. */
  lemma SuffixMaskStep(n: nat, i: nat)
    requires i < n
    ensures seq(n, j => j >= i)[i := false] == seq(n, j => j >= i + 1)
  {
  }

  /**
   * Any number of slots: on a new engine of n slots, n loads of open streams
   * fill slots 0 to n-1 in order, and one more load finds no free slot.
   */
  method FillEngine(n: nat, s: Stream, line: Line) returns (rs: seq<Result<nat>>, extra: Result<nat>)
    requires s.Valid() && s.open
    ensures rs == seq(n, i => Ok(i))
    ensures extra == Throw(IllegalState)
  {
    var engine := new GDMAudioEngine(n);
    rs := [];
    for i := 0 to n
      invariant engine.Valid() && engine.channels.Length == n && fresh(engine.channels)
      invariant engine.FreeMask() == seq(n, j => j >= i)
      invariant rs == seq(i, j => Ok(j))
    {
      FirstFitOfSuffix(n, i);
      var r := engine.Load(Some(s), Some(line));
      assert r == Ok(i);
      SuffixMaskStep(n, i);
      rs := rs + [r];
    }
    FirstFitOfSuffix(n, n);
    extra := engine.Load(Some(s), Some(line));
  }
}
