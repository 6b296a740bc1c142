/**
 * The state and actions of the current GUI (gui/state.ts): the first GUI's
 * settings plus the piano-roll editor, and the initial state.
 */
module GuiState {
  import opened Wrappers
  import opened GuiProtocol
  import opened RollReduce

  /** `rollDims` of gui/roll-util.ts: the editor's width and height in pixels. */
  const ROLL_DIMS_W: real := (PIANO_WIDTH + GUTTER_WIDTH + 250 * SCALE) as real
  const ROLL_DIMS_H: real := ((97 - 1) * SCALE * 3 + SCALE) as real

  datatype State = State(
    table: seq<seq<bool>>,
    connected: bool,
    ifaceGain: real,
    ifaceHighpass: real,
    ifaceRoomsize: real,
    ifaceWet: real,
    allpass: AllpassState,
    outbox: seq<WebMessage>,
    meterData: MeterData,
    lowpassState: seq<InterfaceTap>,
    text: string,
    rollEditorState: RollEditorState)

  datatype Action =
    | SetSequencer(inst: nat, pat: nat, on: bool)
    | SetConnected(connected: bool)
    | SetGain(ifaceGain: real)
    | SetHighpass(ifaceHighpass: real)
    | SetAllpassDelay(ifaceAllpassDelay: real)
    | SetAllpassGain(ifaceAllpassGain: real)
    | SetAllpassNaive(ifaceAllpassNaive: bool)
    | SetMeterValues(msg: MeterData)
    | SetLowpassState(lowpassState: seq<InterfaceTap>)
    | SetRoomSize(ifaceRoomsize: real)
    | SetWet(ifaceWet: real)
    | Vscroll(top: real)
    | RollAction(pInCanvas: Point)

  /**
   * `mkState`: the initial state; `pattern` is the score's default pattern,
   * whose contents are not part of this model. The editor's height is set
   * from the layout width and its width from the layout height.
   */
  function MkState(pattern: Pattern): (s: State)
    ensures |s.table| == 16 && forall p :: 0 <= p < 16 ==> s.table[p] == [false, false]
    ensures s.outbox == [] && s.connected
    ensures s.ifaceGain == 10.0 && s.ifaceHighpass == 50.0 && s.ifaceRoomsize == 50.0 && s.ifaceWet == 50.0
    ensures s.allpass == AllpassState(50.0, 50.0, true)
    ensures s.meterData == MeterData(0.0, 0.0)
    ensures s.lowpassState == [InterfaceTap(1, 90.0), InterfaceTap(2620, 10.0)]
    ensures var r := s.rollEditorState;
      && r.mouseState == Hover(None) && r.gridSize == 1.0 && r.noteSize == 1.0 && r.scrollOctave == 3.0
      && r.style == Piano && r.pattern == pattern && r.previewNote.None?
      && r.h == 632.0 && r.w == 578.0
    // `mkState` never sets `next_id`, so the note counter starts absent
    ensures s.rollEditorState.nextId == Undefined
  {
    State(
      seq(16, _ => [false, false]), true, 10.0, 50.0, 50.0, 50.0, AllpassState(50.0, 50.0, true),
      [], MeterData(0.0, 0.0), [InterfaceTap(1, 90.0), InterfaceTap(2620, 10.0)], "",
      RollEditorState(Some(0.0), Some(0.0), 0.0, Hover(None), 1.0, 1.0, 3.0, Piano, pattern, None,
                      ROLL_DIMS_H, ROLL_DIMS_W, Undefined))
  }
}
