/**
 * `UgenGroupState` of src/ugen_group.rs: a pool of transient ugens (the
 * sequencer's drum hits) that all write into one bus and are freed once
 * they report they are done.
 */
module UgenGroup {
  import opened Wrappers
  import Pool

  /** A group of ugens of type `U` over a first-fit pool of slots. */
  class UgenGroupState<U> {
    const dst: nat
    var ugenState: seq<Option<U>>

    /** `new`: an empty group writing to bus `dst`. */
    constructor (dst: nat)
      ensures this.dst == dst && ugenState == []
    {
      this.dst := dst;
      ugenState := [];
    }

    /** `add`: stores the ugen first-fit, as `add_gen` does; the group then holds one more live ugen. */
    method Add(ugen: U)
      modifies this`ugenState
      ensures ugenState == Pool.Allocate(old(ugenState), ugen)
      ensures Pool.LiveCount(ugenState) == Pool.LiveCount(old(ugenState)) + 1
    {
      var ns, _ := Pool.AddGen(ugenState, ugen);
      ugenState := ns;
      Pool.AllocateAddsOne(old(ugenState), ugen);
    }

    /**
     * `run`: runs every live ugen once (`step` is its own `run`) and frees
     * exactly those that report done; the group itself always goes on.
     */
    method Run(step: U -> (U, bool)) returns (keep: bool)
      modifies this`ugenState
      ensures keep
      ensures ugenState == Pool.RunSlots(old(ugenState), step)
      ensures Pool.LiveCount(ugenState) <= Pool.LiveCount(old(ugenState))
    {
      ugenState := Pool.RunPass(ugenState, step);
      Pool.RunSlotsNeverAddsLive(old(ugenState), step);
      return true;
    }
  }
}
