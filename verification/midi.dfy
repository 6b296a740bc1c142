/** The MIDI messages the synthesizer reacts to (the `Message` type of src/midi.rs). */
module Midi {
  /** Pitches and velocities are MIDI data bytes. */
  datatype Message =
    | NoteOn(pitch: nat, channel: nat, velocity: nat)
    | NoteOff(pitch: nat, channel: nat)
    | PedalOn
    | PedalOff
}
