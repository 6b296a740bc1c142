/**
 * The control blocks that the GUI sends to the ugens (`ControlBlock` of
 * src/state.rs) together with the per-effect payloads they carry.
 */
module ControlBlock {
  /** Payload of the allpass control block (src/allpass.rs). */
  datatype AllpassControlBlock = AllpassControlBlock(gain: real, delay: nat, naive: bool)

  /** Payload of the lowpass control block (src/lowpass.rs); `lowpParam` is meant to lie in (0,1). */
  datatype LowpassControlBlock = LowpassControlBlock(lowpParam: real)

  /** Payload of the gain control block (src/gain.rs). */
  datatype GainControlBlock = GainControlBlock(scale: real)

  /** Payload of the reverb control block (src/reverb.rs). */
  datatype ReverbControlBlock = ReverbControlBlock(roomSize: real, wet: real)

  /** One control block; the drum and reasonable-synth blocks carry no parameters. */
  datatype ControlBlock =
    | Reasonable
    | Drum
    | Low(low: LowpassControlBlock)
    | All(all: AllpassControlBlock)
    | Gain(gain: GainControlBlock)
    | Reverb(reverb: ReverbControlBlock)

  /** Number of control-block slots created at start-up. */
  const NUM_CONTROL_BLOCKS: nat := 16
  /** Slot index the drums are started with. */
  const DEFAULT_DRUM_CONTROL_BLOCK: nat := 10
}
