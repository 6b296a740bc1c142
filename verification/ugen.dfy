/**
 * The ugens the shared state can hold (`UgenState`): a MIDI manager, a group
 * of transient ugens, and the individual voices. A drum hit is described by
 * the arguments the sequencer builds it from.
 */
module Ugen {
  import opened MidiManager
  import opened UgenGroup
  import ReasonableSynth

  /** A drum built by the sequencer: start and end frequency of its sweep, and the scale of its envelope. */
  datatype DrumHit = DrumHit(freqHz: real, freq2Hz: real, adsrScale: real)

  datatype UgenState =
    | MidiManagerUgen(manager: MidiManagerState)
    | UgenGroupUgen(group: UgenGroupState<UgenState>)
    | DrumSynthUgen(hit: DrumHit)
    | ReasonableSynthUgen(synth: ReasonableSynth.ReasonableSynthState)
}
