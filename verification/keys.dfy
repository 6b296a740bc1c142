/** The per-key table of src/state.rs: which voice, if any, each physical key is sounding. */
module Keys {
  import opened Wrappers
  import opened Consts

  /** A key is up, down on voice `ugenIx`, or up but still sounding because the sustain pedal holds it. */
  datatype KeyState = Off | On(ugenIx: nat) | Held(ugenIx: nat)

  /**
   * `get_key_state_mut`: the table slot of `pitch`, which is `pitch - 21`;
   * `None` when that subtraction underflows or lands past the end of the table
   * (the source panics there).
   */
  function KeySlot(len: nat, pitch: nat): (r: Option<nat>)
    ensures r.Some? <==> BOTTOM_NOTE <= pitch < BOTTOM_NOTE + len
    ensures r.Some? ==> r.value < len && r.value + BOTTOM_NOTE == pitch
  {
    if BOTTOM_NOTE <= pitch && pitch - BOTTOM_NOTE < len then Some(pitch - BOTTOM_NOTE) else None
  }
}
