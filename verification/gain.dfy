/** The per-block gain stage of src/gain.rs: bus `dst` becomes bus `src` scaled. */
module Gain {
  import opened Wrappers
  import opened ControlBlock

  /** Hard-coded control slot the gain reads. */
  const GAIN_CONTROL_SLOT: nat := 2

  /** The gain ugen: a source and a destination bus. */
  class GainState {
    const src: nat
    const dst: nat

    constructor (src: nat, dst: nat)
      ensures this.src == src && this.dst == dst
    {
      this.src := src;
      this.dst := dst;
    }

    /** `ctl_run`: every sample of `dst` becomes the matching sample of `src` times `scale`; no other bus changes. */
    method CtlRun(bus: array2<real>, c: GainControlBlock) returns (keep: bool)
      requires src < bus.Length0 && dst < bus.Length0
      modifies bus
      ensures keep
      ensures forall j :: 0 <= j < bus.Length1 ==> bus[dst, j] == old(bus[src, j]) * c.scale
      ensures forall b, j :: 0 <= b < bus.Length0 && b != dst && 0 <= j < bus.Length1 ==> bus[b, j] == old(bus[b, j])
    {
      var i := 0;
      while i < bus.Length1
        invariant i <= bus.Length1
        invariant forall j :: 0 <= j < i ==> bus[dst, j] == old(bus[src, j]) * c.scale
        invariant forall b, j :: 0 <= b < bus.Length0 && 0 <= j < bus.Length1 && (b != dst || i <= j) ==> bus[b, j] == old(bus[b, j])
      {
        bus[dst, i] := bus[src, i] * c.scale;
        i := i + 1;
      }
      return true;
    }

    /** `run`: scales only when slot 2 holds a gain block; otherwise reports finished with every bus unchanged. */
    method Run(bus: array2<real>, tickS: real, ctls: seq<Option<ControlBlock>>) returns (keep: bool)
      requires src < bus.Length0 && dst < bus.Length0 && GAIN_CONTROL_SLOT < |ctls|
      modifies bus
      ensures keep <==> ctls[GAIN_CONTROL_SLOT].Some? && ctls[GAIN_CONTROL_SLOT].value.Gain?
      ensures keep ==> forall j :: 0 <= j < bus.Length1 ==>
        bus[dst, j] == old(bus[src, j]) * ctls[GAIN_CONTROL_SLOT].value.gain.scale
      ensures forall b, j :: 0 <= b < bus.Length0 && 0 <= j < bus.Length1 && (b != dst || !keep) ==> bus[b, j] == old(bus[b, j])
    {
      match ctls[GAIN_CONTROL_SLOT] {
        case Some(Gain(c)) =>
          keep := CtlRun(bus, c);
        case _ =>
          keep := false;
      }
    }
  }
}
