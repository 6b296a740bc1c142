/**
 * The allpass delay of src/allpass.rs: a 35000-sample history of its own
 * recirculated signal, read `delay` samples behind the cursor BEFORE the
 * current sample is stored, combined per Schroeder & Logan (1960).
 */
module Allpass {
  import opened Wrappers
  import opened ControlBlock
  import Ring
  import Buses

  const HISTORY_SIZE: nat := 35000

  /** What one block of samples leaves behind: the history, the cursor, and per sample the tap read, the value stored and the output. */
  datatype Trace = Trace(mem: seq<real>, ix: nat, taps: seq<real>, wets: seq<real>, outs: seq<real>)

  /** The output of one sample: the recirculated value in naive mode, the Schroeder & Logan allpass otherwise. */
  function Output(dry: real, tap: real, c: AllpassControlBlock): real
  {
    if c.naive then dry + c.gain * tap else -c.gain * dry + (1.0 - c.gain * c.gain) * tap
  }

  /** The value stored into the history for one sample: the input plus the scaled tap, in both modes. */
  function Stored(dry: real, tap: real, c: AllpassControlBlock): real
  {
    dry + c.gain * tap
  }

  /** The effect of `ctl_run` on a block whose source samples are `dry`, starting from history `mem0` and cursor `ix0`. */
  ghost function Filtered(mem0: seq<real>, ix0: nat, dry: seq<real>, c: AllpassControlBlock): (r: Trace)
    requires |mem0| > 0 && ix0 < |mem0|
    ensures |r.mem| == |mem0| && r.ix < |mem0|
    ensures |r.taps| == |dry| && |r.wets| == |dry| && |r.outs| == |dry|
    decreases |dry|
  {
    if dry == [] then Trace(mem0, ix0, [], [], [])
    else
      var p := Filtered(mem0, ix0, dry[..|dry| - 1], c);
      var x := dry[|dry| - 1];
      var tap := p.mem[Ring.TapIndex(p.ix, c.delay, |mem0|)];
      var wet := Stored(x, tap, c);
      Trace(p.mem[p.ix := wet], (p.ix + 1) % |mem0|, p.taps + [tap], p.wets + [wet], p.outs + [Output(x, tap, c)])
  }

  /** A block of `n` samples advances the cursor by `n` modulo the history size. */
  lemma {:induction false} FilteredCursor(mem0: seq<real>, ix0: nat, dry: seq<real>, c: AllpassControlBlock)
    requires |mem0| > 0 && ix0 < |mem0|
    ensures Filtered(mem0, ix0, dry, c).ix == (ix0 + |dry|) % |mem0|
    decreases |dry|
  {
    if dry == [] {
      Ring.ModUnique(ix0, 0, ix0, |mem0|);
    } else {
      FilteredCursor(mem0, ix0, dry[..|dry| - 1], c);
      Ring.NextSlot(ix0 + |dry| - 1, |mem0|);
    }
  }

  /** The history after a block holds the stored values written one per slot from the starting cursor. */
  lemma {:induction false} FilteredMemory(mem0: seq<real>, ix0: nat, dry: seq<real>, c: AllpassControlBlock)
    requires |mem0| > 0 && ix0 < |mem0|
    ensures Filtered(mem0, ix0, dry, c).mem == Ring.Written(mem0, ix0, Filtered(mem0, ix0, dry, c).wets)
    decreases |dry|
  {
    if dry != [] {
      var n := |dry|;
      var p := Filtered(mem0, ix0, dry[..n - 1], c);
      FilteredMemory(mem0, ix0, dry[..n - 1], c);
      FilteredCursor(mem0, ix0, dry[..n - 1], c);
      assert Filtered(mem0, ix0, dry, c).wets[..n - 1] == p.wets;
    }
  }

  /** Every sample stores `Stored(dry, tap)`, whatever `naive` says, and outputs `Output(dry, tap)`. */
  lemma {:induction false} FilteredSamples(mem0: seq<real>, ix0: nat, dry: seq<real>, c: AllpassControlBlock)
    requires |mem0| > 0 && ix0 < |mem0|
    ensures var r := Filtered(mem0, ix0, dry, c);
      forall k :: 0 <= k < |dry| ==> r.wets[k] == Stored(dry[k], r.taps[k], c) && r.outs[k] == Output(dry[k], r.taps[k], c)
    decreases |dry|
  {
    if dry != [] {
      var n := |dry|;
      FilteredSamples(mem0, ix0, dry[..n - 1], c);
      var p := Filtered(mem0, ix0, dry[..n - 1], c);
      var r := Filtered(mem0, ix0, dry, c);
      assert r.taps[..n - 1] == p.taps && r.wets[..n - 1] == p.wets && r.outs[..n - 1] == p.outs;
    }
  }

  /** The trace of a block extends the trace of each of its prefixes. */
  lemma {:induction false} FilteredPrefix(mem0: seq<real>, ix0: nat, dry: seq<real>, c: AllpassControlBlock, m: nat)
    requires |mem0| > 0 && ix0 < |mem0| && m <= |dry|
    ensures Filtered(mem0, ix0, dry[..m], c).taps == Filtered(mem0, ix0, dry, c).taps[..m]
    ensures Filtered(mem0, ix0, dry[..m], c).wets == Filtered(mem0, ix0, dry, c).wets[..m]
    decreases |dry|
  {
    if m < |dry| {
      var n := |dry|;
      assert dry[..n - 1][..m] == dry[..m];
      FilteredPrefix(mem0, ix0, dry[..n - 1], c, m);
    } else {
      assert dry[..m] == dry;
    }
  }

  /** One more sample: the trace of `dry[..i + 1]` is the trace of `dry[..i]` extended by sample `i`. */
  lemma FilteredNext(mem0: seq<real>, ix0: nat, dry: seq<real>, c: AllpassControlBlock, i: nat)
    requires |mem0| > 0 && ix0 < |mem0| && i < |dry|
    ensures var p := Filtered(mem0, ix0, dry[..i], c);
      var tap := p.mem[Ring.TapIndex(p.ix, c.delay, |mem0|)];
      var wet := Stored(dry[i], tap, c);
      Filtered(mem0, ix0, dry[..i + 1], c)
        == Trace(p.mem[p.ix := wet], (p.ix + 1) % |mem0|, p.taps + [tap], p.wets + [wet], p.outs + [Output(dry[i], tap, c)])
  {
    assert dry[..i + 1][..i] == dry[..i];
  }

  /** The tap of sample `k` is read from the history left by the first `k` samples, `delay` slots behind the cursor `ix0 + k`. */
  lemma TapOfSample(mem0: seq<real>, ix0: nat, dry: seq<real>, c: AllpassControlBlock, k: nat)
    requires |mem0| > 0 && ix0 < |mem0| && k < |dry|
    ensures Filtered(mem0, ix0, dry, c).taps[k]
      == Ring.Written(mem0, ix0, Filtered(mem0, ix0, dry, c).wets[..k])[(ix0 + k - c.delay) % |mem0|]
  {
    var p := Filtered(mem0, ix0, dry[..k], c);
    var r := Filtered(mem0, ix0, dry, c);
    FilteredNext(mem0, ix0, dry, c, k);
    FilteredPrefix(mem0, ix0, dry, c, k + 1);
    assert r.taps[k] == p.mem[Ring.TapIndex(p.ix, c.delay, |mem0|)];
    FilteredPrefix(mem0, ix0, dry, c, k);
    FilteredMemory(mem0, ix0, dry[..k], c);
    assert p.mem == Ring.Written(mem0, ix0, r.wets[..k]);
    FilteredCursor(mem0, ix0, dry[..k], c);
    Ring.TapIndexOfReduced(ix0 + k, c.delay, |mem0|);
  }

  /**
   * The tap of sample `k` reads the value stored `delay` samples earlier
   * (for `1 <= delay <= k`); a delay of 0 reads the value stored a whole
   * history (35000 samples) earlier, because the tap is read before the
   * current sample is stored.
   */
  lemma TapReadsHistory(mem0: seq<real>, ix0: nat, dry: seq<real>, c: AllpassControlBlock, k: nat)
    requires |mem0| > 0 && ix0 < |mem0| && k < |dry|
    ensures 1 <= c.delay <= k && c.delay <= |mem0| ==>
      Filtered(mem0, ix0, dry, c).taps[k] == Filtered(mem0, ix0, dry, c).wets[k - c.delay]
    ensures c.delay == 0 && |mem0| <= k ==>
      Filtered(mem0, ix0, dry, c).taps[k] == Filtered(mem0, ix0, dry, c).wets[k - |mem0|]
  {
    var L := |mem0|;
    var wets := Filtered(mem0, ix0, dry, c).wets;
    TapOfSample(mem0, ix0, dry, c, k);
    if 1 <= c.delay <= k && c.delay <= L {
      Ring.WrittenRecent(mem0, ix0, wets[..k], c.delay);
    }
    if c.delay == 0 && L <= k {
      Ring.ModShift(ix0 + k - L, 1, L);
      Ring.WrittenRecent(mem0, ix0, wets[..k], L);
    }
  }

  /** The allpass ugen: bus indices, control-block slot, and its recirculation history with a cursor. */
  class AllpassState {
    const src: nat
    const dst: nat
    const ctl: nat
    var ix: nat
    const memoryRec: array<real>

    ghost predicate Valid()
      reads this
    {
      memoryRec.Length == HISTORY_SIZE && ix < HISTORY_SIZE
    }

    /** A fresh allpass: cursor at 0 and a silent history. */
    constructor (src: nat, dst: nat, ctl: nat)
      ensures Valid() && this.src == src && this.dst == dst && this.ctl == ctl
      ensures ix == 0 && fresh(memoryRec)
      ensures forall i :: 0 <= i < memoryRec.Length ==> memoryRec[i] == 0.0
    {
      this.src := src;
      this.dst := dst;
      this.ctl := ctl;
      ix := 0;
      memoryRec := new real[HISTORY_SIZE](_ => 0.0);
    }

    /** `do_tap`: the history value `delay` samples behind the cursor, wrapping around the start of the buffer. */
    function DoTap(delay: nat): (r: real)
      reads this, memoryRec
      requires Valid()
      ensures delay <= ix ==> r == memoryRec[ix - delay]
      ensures ix < delay <= ix + HISTORY_SIZE ==> r == memoryRec[ix - delay + HISTORY_SIZE]
    {
      memoryRec[Ring.TapIndex(ix, delay, HISTORY_SIZE)]
    }

    /** `ctl_run`: filters bus `src` into bus `dst` sample by sample; every other bus is left alone. */
    method CtlRun(bus: array2<real>, tickS: real, c: AllpassControlBlock) returns (keep: bool)
      requires Valid() && src < bus.Length0 && dst < bus.Length0
      modifies this`ix, memoryRec, bus
      ensures Valid() && keep
      ensures var r := Filtered(old(memoryRec[..]), old(ix), old(Buses.Row(bus, src)), c);
        && memoryRec[..] == r.mem && ix == r.ix
        && forall j :: 0 <= j < bus.Length1 ==> bus[dst, j] == r.outs[j]
      ensures forall b, j :: 0 <= b < bus.Length0 && b != dst && 0 <= j < bus.Length1 ==> bus[b, j] == old(bus[b, j])
    {
      ghost var dry := Buses.Row(bus, src);
      ghost var mem0 := memoryRec[..];
      ghost var ix0 := ix;
      ghost var r := Filtered(mem0, ix0, dry[..0], c);
      var i := 0;
      while i < bus.Length1
        invariant i <= bus.Length1 && Valid()
        invariant r == Filtered(mem0, ix0, dry[..i], c)
        invariant memoryRec[..] == r.mem && ix == r.ix && |r.outs| == i
        invariant forall j :: 0 <= j < i ==> bus[dst, j] == r.outs[j]
        invariant forall b, j :: 0 <= b < bus.Length0 && 0 <= j < bus.Length1 && (b != dst || i <= j) ==> bus[b, j] == old(bus[b, j])
      {
        FilteredNext(mem0, ix0, dry, c, i);
        Tick(bus, i, c, r, dry[i]);
        ghost var tap := r.mem[Ring.TapIndex(r.ix, c.delay, HISTORY_SIZE)];
        ghost var wet := Stored(dry[i], tap, c);
        r := Trace(r.mem[r.ix := wet], (r.ix + 1) % HISTORY_SIZE, r.taps + [tap], r.wets + [wet], r.outs + [Output(dry[i], tap, c)]);
        i := i + 1;
      }
      assert dry[..i] == dry;
      return true;
    }

    /**
     * One sample of `ctl_run` on input `x` with trace `p` so far: reads the tap
     * before storing, stores the recirculated value, writes the output, moves
     * the cursor.
     */
    method Tick(bus: array2<real>, i: nat, c: AllpassControlBlock, ghost p: Trace, ghost x: real)
      requires Valid() && src < bus.Length0 && dst < bus.Length0 && i < bus.Length1
      requires p.mem == memoryRec[..] && p.ix == ix && x == bus[src, i]
      modifies this`ix, memoryRec, bus
      ensures Valid()
      ensures var tap := p.mem[Ring.TapIndex(p.ix, c.delay, HISTORY_SIZE)];
        && memoryRec[..] == p.mem[p.ix := Stored(x, tap, c)]
        && ix == (p.ix + 1) % HISTORY_SIZE
        && bus[dst, i] == Output(x, tap, c)
      ensures forall b, j :: 0 <= b < bus.Length0 && 0 <= j < bus.Length1 && (b != dst || j != i) ==> bus[b, j] == old(bus[b, j])
    {
      var x := bus[src, i];
      var tap := DoTap(c.delay);
      var wet := Stored(x, tap, c);
      memoryRec[ix] := wet;
      bus[dst, i] := Output(x, tap, c);
      ix := (ix + 1) % HISTORY_SIZE;
    }

    /** `run`: filters only when slot `ctl` holds an allpass control block; otherwise reports the ugen finished and changes nothing. */
    method Run(bus: array2<real>, tickS: real, ctls: seq<Option<ControlBlock>>) returns (keep: bool)
      requires Valid() && src < bus.Length0 && dst < bus.Length0 && ctl < |ctls|
      modifies this`ix, memoryRec, bus
      ensures Valid()
      ensures keep <==> ctls[ctl].Some? && ctls[ctl].value.All?
      ensures keep ==> var r := Filtered(old(memoryRec[..]), old(ix), old(Buses.Row(bus, src)), ctls[ctl].value.all);
        && memoryRec[..] == r.mem && ix == r.ix
        && forall j :: 0 <= j < bus.Length1 ==> bus[dst, j] == r.outs[j]
      ensures forall b, j :: 0 <= b < bus.Length0 && 0 <= j < bus.Length1 && (b != dst || !keep) ==> bus[b, j] == old(bus[b, j])
      ensures !keep ==> ix == old(ix) && memoryRec[..] == old(memoryRec[..])
    {
      match ctls[ctl] {
        case Some(All(c)) =>
          keep := CtlRun(bus, tickS, c);
        case _ =>
          keep := false;
      }
    }
  }
}
