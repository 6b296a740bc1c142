/**
 * The one-pole lowpass of src/lowpass.rs: a 35000-sample memory of its own
 * output, where each sample mixes the input with a tap one slot behind the
 * cursor, and the cursor ADVANCES before the new value is stored.
 */
module Lowpass {
  import opened ControlBlock
  import opened Consts
  import Ring
  import Buses

  const LOW_PASS_AMOUNT: nat := 35000

  /** The output for one sample: `(1 - p)` of the input plus `p` of the tap. */
  function Mix(p: real, x: real, tap: real): real
  {
    (1.0 - p) * x + p * tap
  }

  /** The per-sample recurrence for lowpass parameter `p`. */
  function Recurrence(p: real): (real, real) -> real
  {
    (x, tap) => Mix(p, x, tap)
  }

  /**
   * Since the tap sits one slot behind a cursor that has already moved past
   * the last store, every output from the third sample of a block on mixes
   * the input with the output of TWO samples earlier:
   * `y[k] = (1 - p)*x[k] + p*y[k - 2]`.
   */
  lemma MixesOutputTwoBack(mem0: seq<real>, ix0: nat, xs: seq<real>, p: real, k: nat)
    requires |mem0| == LOW_PASS_AMOUNT && ix0 < |mem0| && 2 <= k < |xs|
    ensures var r := Ring.AdvanceThenStore(mem0, ix0, xs, 1, Recurrence(p));
      r.wets[k] == Mix(p, xs[k], r.wets[k - 2])
  {
    Ring.AdvanceThenStoreSamples(mem0, ix0, xs, 1, Recurrence(p));
    Ring.TapReadsOneFurther(mem0, ix0, xs, 1, Recurrence(p), k);
  }

  /** The lowpass ugen: its buses, its output memory with a cursor, and an unused block-sized buffer. */
  class LowpassState {
    const src: nat
    const dst: nat
    var ix: nat
    const memory: array<real>
    const buf: array<real>

    ghost predicate Valid()
      reads this
    {
      memory.Length == LOW_PASS_AMOUNT && ix < LOW_PASS_AMOUNT
    }

    /** A fresh lowpass: cursor at 0, silent memory, and a zeroed buffer of one block. */
    constructor (src: nat, dst: nat)
      ensures Valid() && this.src == src && this.dst == dst && ix == 0
      ensures fresh(memory) && fresh(buf) && buf.Length == BUF_SIZE
      ensures forall i :: 0 <= i < memory.Length ==> memory[i] == 0.0
      ensures forall i :: 0 <= i < buf.Length ==> buf[i] == 0.0
    {
      this.src := src;
      this.dst := dst;
      ix := 0;
      memory := new real[LOW_PASS_AMOUNT](_ => 0.0);
      buf := new real[BUF_SIZE](_ => 0.0);
    }

    /** The `tap` closure: `scale` times the memory `offset` slots behind the cursor, wrapping at the start. */
    function Tap(offset: nat, scale: real): (r: real)
      reads this, memory
      requires Valid()
      ensures offset <= ix ==> r == scale * memory[ix - offset]
      ensures ix < offset <= ix + LOW_PASS_AMOUNT ==> r == scale * memory[ix - offset + LOW_PASS_AMOUNT]
    {
      scale * memory[Ring.TapIndex(ix, offset, memory.Length)]
    }

    /** `ctl_run`: writes the filtered bus `src` into bus `dst`; memory and cursor follow the recurrence; other buses are untouched. */
    method CtlRun(bus: array2<real>, tickS: real, c: LowpassControlBlock) returns (keep: bool)
      requires Valid() && src < bus.Length0 && dst < bus.Length0
      modifies this`ix, memory, bus
      ensures Valid() && keep
      ensures var r := Ring.AdvanceThenStore(old(memory[..]), old(ix), old(Buses.Row(bus, src)), 1, Recurrence(c.lowpParam));
        && memory[..] == r.mem && ix == r.ix
        && forall j :: 0 <= j < bus.Length1 ==> bus[dst, j] == r.wets[j]
      ensures forall b, j :: 0 <= b < bus.Length0 && b != dst && 0 <= j < bus.Length1 ==> bus[b, j] == old(bus[b, j])
    {
      ghost var xs := Buses.Row(bus, src);
      ghost var mem0 := memory[..];
      ghost var ix0 := ix;
      ghost var f := Recurrence(c.lowpParam);
      ghost var r := Ring.AdvanceThenStore(mem0, ix0, xs[..0], 1, f);
      var i := 0;
      while i < bus.Length1
        invariant i <= bus.Length1 && Valid()
        invariant r == Ring.AdvanceThenStore(mem0, ix0, xs[..i], 1, f)
        invariant memory[..] == r.mem && ix == r.ix && |r.wets| == i
        invariant forall j :: 0 <= j < i ==> bus[dst, j] == r.wets[j]
        invariant forall b, j :: 0 <= b < bus.Length0 && 0 <= j < bus.Length1 && (b != dst || i <= j) ==> bus[b, j] == old(bus[b, j])
      {
        Ring.AdvanceThenStoreNext(mem0, ix0, xs, 1, f, i);
        Tick(bus, i, c, r.mem, r.ix, xs[i]);
        ghost var tap := r.mem[Ring.TapIndex(r.ix, 1, LOW_PASS_AMOUNT)];
        ghost var next := (r.ix + 1) % LOW_PASS_AMOUNT;
        ghost var wet := Mix(c.lowpParam, xs[i], tap);
        assert f(xs[i], tap) == wet;
        r := Ring.Feedback(r.mem[next := wet], next, r.taps + [tap], r.wets + [wet]);
        i := i + 1;
      }
      assert xs[..i] == xs;
      return true;
    }

    /**
     * One sample of `ctl_run` on input `x`, from memory `mem` and cursor `ix0`:
     * mixes the input with the tap one slot behind, writes the output, then
     * advances the cursor and stores the output there.
     */
    method Tick(bus: array2<real>, i: nat, c: LowpassControlBlock, ghost mem: seq<real>, ghost ix0: nat, ghost x: real)
      requires Valid() && src < bus.Length0 && dst < bus.Length0 && i < bus.Length1
      requires mem == memory[..] && ix0 == ix && x == bus[src, i]
      modifies this`ix, memory, bus
      ensures Valid()
      ensures var wet := Mix(c.lowpParam, x, mem[Ring.TapIndex(ix0, 1, LOW_PASS_AMOUNT)]);
        && ix == (ix0 + 1) % LOW_PASS_AMOUNT
        && memory[..] == mem[ix := wet]
        && bus[dst, i] == wet
      ensures forall b, j :: 0 <= b < bus.Length0 && 0 <= j < bus.Length1 && (b != dst || j != i) ==> bus[b, j] == old(bus[b, j])
    {
      var wet := (1.0 - c.lowpParam) * bus[src, i] + Tap(1, c.lowpParam);
      assert wet == Mix(c.lowpParam, x, mem[Ring.TapIndex(ix0, 1, LOW_PASS_AMOUNT)]);
      bus[dst, i] := wet;
      ix := (ix + 1) % LOW_PASS_AMOUNT;
      memory[ix] := wet;
      assert memory[..] == mem[ix := wet];
    }

    /** `run`: filters only when the hard-coded control slot 1 holds a lowpass block; otherwise reports finished and changes nothing. */
    method Run(bus: array2<real>, tickS: real, ctls: seq<ControlBlock>) returns (keep: bool)
      requires Valid() && src < bus.Length0 && dst < bus.Length0 && 1 < |ctls|
      modifies this`ix, memory, bus
      ensures Valid()
      ensures keep <==> ctls[1].Low?
      ensures keep ==> var r := Ring.AdvanceThenStore(old(memory[..]), old(ix), old(Buses.Row(bus, src)), 1, Recurrence(ctls[1].low.lowpParam));
        && memory[..] == r.mem && ix == r.ix
        && forall j :: 0 <= j < bus.Length1 ==> bus[dst, j] == r.wets[j]
      ensures forall b, j :: 0 <= b < bus.Length0 && 0 <= j < bus.Length1 && (b != dst || !keep) ==> bus[b, j] == old(bus[b, j])
      ensures !keep ==> ix == old(ix) && memory[..] == old(memory[..])
    {
      match ctls[1] {
        case Low(c) =>
          keep := CtlRun(bus, tickS, c);
        case _ =>
          keep := false;
      }
    }
  }
}
