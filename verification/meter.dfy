/**
 * The level meter of src/meter.rs: a leaky mean-square estimate kept in a
 * ring buffer of a third of a second, advancing its cursor before storing.
 */
module Meter {
  import Ring
  import Buses

  const METER_AMOUNT: nat := 44100 / 3

  /** Leak factor of the estimate. */
  const A: real := 0.99

  /** The per-sample recurrence: `(1 - a)` of the squared input plus `a` of the tap. */
  function Leak(): (real, real) -> real
  {
    (sig, tap) => (1.0 - A) * sig * sig + A * tap
  }

  /** A memory whose every entry is non-negative. */
  ghost predicate NonNegative(mem: seq<real>)
  {
    forall i :: 0 <= i < |mem| ==> mem[i] >= 0.0
  }

  /** A mean-square estimate never goes negative: non-negative memory stays non-negative through any block. */
  lemma {:induction false} StaysNonNegative(mem0: seq<real>, ix0: nat, xs: seq<real>)
    requires |mem0| > 0 && ix0 < |mem0| && NonNegative(mem0)
    ensures NonNegative(Ring.AdvanceThenStore(mem0, ix0, xs, 1, Leak()).mem)
    decreases |xs|
  {
    if xs != [] {
      var n := |xs|;
      StaysNonNegative(mem0, ix0, xs[..n - 1]);
      var p := Ring.AdvanceThenStore(mem0, ix0, xs[..n - 1], 1, Leak());
      var x := xs[n - 1];
      assert x * x >= 0.0;
      assert p.mem[Ring.TapIndex(p.ix, 1, |mem0|)] >= 0.0;
    }
  }

  /** The meter ugen: the bus it listens to and its ring buffer with a cursor. */
  class MeterState {
    const src: nat
    var ix: nat
    const memory: array<real>

    ghost predicate Valid()
      reads this
    {
      memory.Length == METER_AMOUNT && ix < METER_AMOUNT
    }

    /** A fresh meter: cursor at 0 and a silent buffer of 14700 entries. */
    constructor (src: nat)
      ensures Valid() && this.src == src && ix == 0 && fresh(memory)
      ensures forall i :: 0 <= i < memory.Length ==> memory[i] == 0.0
    {
      this.src := src;
      ix := 0;
      memory := new real[METER_AMOUNT](_ => 0.0);
    }

    /** `run`: folds bus `src` into the estimate; it writes no bus and always keeps running. */
    method Run(bus: array2<real>, tickS: real) returns (keep: bool)
      requires Valid() && src < bus.Length0
      modifies this`ix, memory
      ensures Valid() && keep
      ensures var r := Ring.AdvanceThenStore(old(memory[..]), old(ix), Buses.Row(bus, src), 1, Leak());
        memory[..] == r.mem && ix == r.ix
    {
      ghost var xs := Buses.Row(bus, src);
      ghost var mem0 := memory[..];
      ghost var ix0 := ix;
      var i := 0;
      while i < bus.Length1
        invariant i <= bus.Length1 && Valid()
        invariant var r := Ring.AdvanceThenStore(mem0, ix0, xs[..i], 1, Leak());
          memory[..] == r.mem && ix == r.ix
      {
        assert xs[..i + 1][..i] == xs[..i];
        ghost var p := Ring.AdvanceThenStore(mem0, ix0, xs[..i], 1, Leak());
        var sig := bus[src, i];
        var wet := (1.0 - A) * sig * sig;
        wet := wet + A * memory[Ring.TapIndex(ix, 1, memory.Length)];
        assert wet == Leak()(xs[i], p.mem[Ring.TapIndex(p.ix, 1, METER_AMOUNT)]);
        ix := (ix + 1) % METER_AMOUNT;
        memory[ix] := wet;
        assert memory[..] == p.mem[ix := wet];
        i := i + 1;
      }
      assert xs[..i] == xs;
      return true;
    }
  }
}
