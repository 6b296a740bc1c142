/**
 * The messages the browser GUI exchanges with the synthesizer (gui/protocol.ts)
 * and the small records the GUI state is built from. Numbers are `real`;
 * indices, pitches and positions that are integers in practice are `int`.
 */
module GuiProtocol {
  /** Whether a lowpass tap reads the filter's own output history or its input. */
  datatype TapType = Rec | Input

  /** One tap of the general lowpass filter: source, delay and weight. */
  datatype Tap = Tap(tp: TapType, pos: int, weight: real)

  /** A control block as sent over the wire. */
  datatype ControlBlock =
    | Reasonable
    | Drum(vol: real)
    | Low(taps: seq<Tap>)
    | All(gain: real, delay: real, naive: bool)
    | Gain(scale: real)
    | Reverb(roomSize: real, wet: real)

  /** The ugens a `reconfigure` message asks for. */
  datatype UgenSpec =
    | LowPass(src: int, dst: int)
    | AllPass(src: int, dst: int, ctl: int)
    | MidiManagerSpec(dst: int)
    | UgenGroupSpec(dst: int)
    | MeterSpec(src: int)
    | GainSpec(src: int, dst: int)

  /** A message from the GUI to the synthesizer. */
  datatype WebMessage =
    | Quit
    | DrumHit
    | SetControlBlock(index: int, ctl: ControlBlock)
    | SetSequencer(inst: nat, pat: nat, on: bool)
    | Reconfigure(specs: seq<UgenSpec>)

  /** The level meter reading last reported by the synthesizer. */
  datatype MeterData = MeterData(level: real, peak: real)

  /** A lowpass tap as the user edits it: a delay and a weight in percent (gui/lowpass-widget.tsx). */
  datatype InterfaceTap = InterfaceTap(pos: int, weight: real)

  /** The allpass settings as the user edits them: gain in percent, delay in samples. */
  datatype AllpassState = AllpassState(ifaceAllpassGain: real, ifaceAllpassDelay: real, ifaceAllpassNaive: bool)

  /** The only effect a reducer asks for: send a message to the synthesizer. */
  datatype Effect = Send(msg: WebMessage)
}
