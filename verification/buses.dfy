/**
 * The audio buses (`AudioBusses` of src/state.rs): one row of samples per
 * bus, all rows of the same length, modelled as a two-dimensional array.
 */
module Buses {
  /** The samples of bus `b`, as a sequence. */
  ghost function Row(bus: array2<real>, b: nat): (r: seq<real>)
    reads bus
    requires b < bus.Length0
    ensures |r| == bus.Length1
    ensures forall j :: 0 <= j < bus.Length1 ==> r[j] == bus[b, j]
  {
    seq(bus.Length1, j requires 0 <= j < bus.Length1 reads bus => bus[b, j])
  }
}
