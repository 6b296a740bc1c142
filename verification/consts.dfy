/** Constants of the synthesizer crate (src/consts.rs, src/synth.rs, src/audio.rs). */
module Consts {
  /** MIDI pitch of the lowest physical key. */
  const BOTTOM_NOTE: nat := 21
  /** Number of physical keys tracked by the key table. */
  const NUM_KEYS: nat := 88
  const SAMPLE_RATE_HZ: real := 44100.0
  /** Number of audio buses. */
  const AUDIO_BUS_LENGTH: nat := 16
  const BUS_OUT: nat := 0
  const BUS_DRY: nat := 1
  /** Wavetable period in entries; tables hold one more entry, a copy of entry 0. */
  const TABLE_SIZE: nat := 4000
  /** Samples per hardware block. */
  const BUF_SIZE: nat := 64
}
