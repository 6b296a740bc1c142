/**
 * Wavetable oscillators shared by src/drum.rs, src/reasonable_synth.rs and
 * src/bass_drum.rs: a phase in `[0, 1]` scaled onto a table, linear
 * interpolation between two neighbouring entries, and the phase step that
 * wraps only when the phase goes strictly above 1.
 */
module Oscillator {
  import opened Wrappers

  const INDEX_PANIC: string := "index out of bounds"

  /** Rust's `f32 as usize` on a floored value: negative values saturate to 0. */
  function SaturatingIndex(x: real): (i: nat)
    ensures x >= 0.0 ==> i == x.Floor
    ensures x < 0.0 ==> i == 0
  {
    if x < 0.0 then 0 else x.Floor
  }

  /** A phase scaled to a table of `n` intervals: a phase in `[0, 1)` stays below `n`, a phase of exactly 1 lands on `n`. */
  function Scaled(phase: real, n: nat): (x: real)
    ensures 0.0 <= phase < 1.0 && n > 0 ==> 0.0 <= x < n as real
    ensures phase == 1.0 ==> x == n as real
  {
    if 0.0 <= phase < 1.0 && n > 0 then
      assert phase * (n as real) < 1.0 * (n as real);
      phase * (n as real)
    else phase * (n as real)
  }

  /** The floor of a value in `[0, n)` is below `n`. */
  lemma FloorBelow(x: real, n: nat)
    ensures 0.0 <= x < n as real ==> SaturatingIndex(x) < n
  {
    if 0.0 <= x < n as real {
      assert (x.Floor as real) <= x;
    }
  }

  /** Linear interpolation between `lo` (at 0) and `hi` (at 1). */
  function Lerp(f: real, lo: real, hi: real): real
  {
    f * hi + (1.0 - f) * lo
  }

  /**
   * One linearly interpolated table read at `phase` (a fraction of the
   * table): it reads entries `offset + 1` and `offset`, and fails when
   * `offset + 1` is past the end of the table. Every phase in `[0, 1)` reads
   * in bounds; a phase of exactly 1 reads one past the end.
   */
  function Interpolate(table: seq<real>, phase: real): (r: Result<real>)
    ensures |table| >= 2 && 0.0 <= phase < 1.0 ==> r.Ok?
    ensures |table| >= 1 && phase == 1.0 ==> r == Err(INDEX_PANIC)
  {
    if |table| == 0 then Err(INDEX_PANIC)
    else
      var tablePhase := Scaled(phase, |table| - 1);
      var offset := SaturatingIndex(tablePhase);
      FloorBelow(tablePhase, |table| - 1);
      if offset + 1 >= |table| then Err(INDEX_PANIC)
      else Ok(Lerp(tablePhase - offset as real, table[offset], table[offset + 1]))
  }

  /** The phase update: add the increment, and subtract 1 only when the result is strictly above 1. */
  function NextPhase(phase: real, inc: real): (p: real)
    ensures 0.0 <= phase <= 1.0 && 0.0 <= inc <= 1.0 ==> 0.0 <= p <= 1.0
    ensures phase + inc == 1.0 ==> p == 1.0
  {
    var p := phase + inc;
    if p > 1.0 then p - 1.0 else p
  }

  /**
   * The phase can land on exactly 1: from a phase `p` with `p + inc == 1`
   * the wrap does not fire, and the next table read of any non-empty table
   * is one past its end.
   */
  lemma PhaseOneReadsPastEnd(table: seq<real>, phase: real, inc: real)
    requires |table| >= 1 && phase + inc == 1.0
    ensures NextPhase(phase, inc) == 1.0
    ensures Interpolate(table, NextPhase(phase, inc)) == Err(INDEX_PANIC)
  {
  }


  lemma NonNegativeProduct(x: real, y: real)
    requires x >= 0.0 && y >= 0.0
    ensures x * y >= 0.0
  {
  }

  /** A value between 0 and 1 interpolates between two values in `[lo, hi]` without leaving it. */
  lemma LerpBetween(f: real, a: real, b: real, lo: real, hi: real)
    requires 0.0 <= f <= 1.0 && lo <= a <= hi && lo <= b <= hi
    ensures lo <= Lerp(f, a, b) <= hi
  {
    assert f * b + (1.0 - f) * a - lo == f * (b - lo) + (1.0 - f) * (a - lo);
    assert hi - (f * b + (1.0 - f) * a) == f * (hi - b) + (1.0 - f) * (hi - a);
    NonNegativeProduct(f, b - lo);
    NonNegativeProduct(1.0 - f, a - lo);
    NonNegativeProduct(f, hi - b);
    NonNegativeProduct(1.0 - f, hi - a);
  }

  /**
   * An interpolated read at a non-negative phase stays within the bounds of
   * the table: a table of values in `[lo, hi]` yields a value in `[lo, hi]`.
   */
  lemma InterpolateBounded(table: seq<real>, phase: real, lo: real, hi: real)
    ensures && 0.0 <= phase && (forall i :: 0 <= i < |table| ==> lo <= table[i] <= hi)
            && Interpolate(table, phase).Ok?
            ==> lo <= Interpolate(table, phase).value <= hi
  {
    if && 0.0 <= phase && (forall i :: 0 <= i < |table| ==> lo <= table[i] <= hi)
       && Interpolate(table, phase).Ok? {
      var tablePhase := Scaled(phase, |table| - 1);
      var offset := SaturatingIndex(tablePhase);
      assert 0.0 <= tablePhase by {
        assert phase * ((|table| - 1) as real) >= 0.0 * ((|table| - 1) as real);
      }
      LerpBetween(tablePhase - offset as real, table[offset], table[offset + 1], lo, hi);
    }
  }
}
