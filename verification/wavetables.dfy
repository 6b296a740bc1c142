/**
 * The three shared wavetables of src/wavetables.rs (saw, square, noise).
 * Each has `TABLE_SIZE + 1` entries, the last one a copy of the first, so
 * that interpolation at the end of a cycle can read one entry further
 * without wrapping its index.
 */
module Wavetables {
  import opened Consts

  /** The tables once built; they are shared read-only afterwards. */
  datatype Wavetables = Wavetables(saw: seq<real>, sqr: seq<real>, noise: seq<real>)

  /** Entry `i` of the saw table: a ramp from -1 upwards, below 1 throughout the cycle. */
  function Saw(i: nat): (v: real)
    ensures i < TABLE_SIZE ==> -1.0 <= v < 1.0
  {
    2.0 * ((i as real) / (TABLE_SIZE as real)) - 1.0
  }

  /** Entry `i` of the square table: high for the first half of the cycle, low for the second. */
  function Square(i: nat): (v: real)
    ensures v == 1.0 || v == -1.0
    ensures v == 1.0 <==> i < TABLE_SIZE / 2
  {
    if i < TABLE_SIZE / 2 then 1.0 else -1.0
  }

  /** The shape every table has: `TABLE_SIZE + 1` entries whose last repeats the first. */
  ghost predicate WrapsAround(t: seq<real>)
  {
    |t| == TABLE_SIZE + 1 && t[TABLE_SIZE] == t[0]
  }

  /**
   * `Wavetables::new`: fills each table's first `TABLE_SIZE` entries, then
   * copies entry 0 to the end. Noise entries are arbitrary values in `[-1, 1)`.
   */
  method New() returns (w: Wavetables)
    ensures WrapsAround(w.saw) && WrapsAround(w.sqr) && WrapsAround(w.noise)
    ensures forall i :: 0 <= i < TABLE_SIZE ==> w.saw[i] == Saw(i) && w.sqr[i] == Square(i)
    ensures forall i :: 0 <= i <= TABLE_SIZE ==> -1.0 <= w.saw[i] < 1.0 && -1.0 <= w.noise[i] < 1.0
  {
    var saw := new real[TABLE_SIZE + 1](_ => 0.0);
    var sqr := new real[TABLE_SIZE + 1](_ => 0.0);
    var noise := new real[TABLE_SIZE + 1](_ => 0.0);

    for i := 0 to TABLE_SIZE
      invariant forall j :: 0 <= j < i ==> saw[j] == Saw(j)
      modifies saw
    {
      saw[i] := Saw(i);
    }
    saw[TABLE_SIZE] := saw[0];

    for i := 0 to TABLE_SIZE
      invariant forall j :: 0 <= j < i ==> sqr[j] == Square(j)
      modifies sqr
    {
      sqr[i] := Square(i);
    }
    sqr[TABLE_SIZE] := sqr[0];

    for i := 0 to TABLE_SIZE
      invariant forall j :: 0 <= j < i ==> -1.0 <= noise[j] < 1.0
      modifies noise
    {
      var r: real :| -1.0 <= r < 1.0;
      noise[i] := r;
    }
    noise[TABLE_SIZE] := noise[0];

    w := Wavetables(saw[..], sqr[..], noise[..]);
  }
}
