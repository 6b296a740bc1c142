/**
 * The shared state of src/state.rs, which the audio thread, the MIDI
 * reducer, the sequencer and the web server all lock: the audio buses, the
 * control blocks, the fixed ugens, the wavetables and the sequencer grid.
 */
module SharedState {
  import opened Wrappers
  import opened Consts
  import opened ControlBlock
  import opened Ugen
  import Wavetables
  import Sequencer

  /** The sending end of the web-socket channel; only its identity matters here. */
  datatype Sender = Sender(id: nat)

  /** `State`: everything the threads share. */
  class State {
    var going: bool
    var audioBus: array2<real>
    var websocket: Option<Sender>
    var fixedUgens: seq<Option<UgenState>>
    var writeToFile: bool
    var controlBlocks: seq<Option<ControlBlock>>
    var wavetables: Wavetables.Wavetables
    var sequencer: Sequencer.Sequencer

    /**
     * `State::new`: running and writing to file, no web socket, no fixed
     * ugens, 16 empty control-block slots, 16 buses of `bufSize` zero
     * samples, fresh wavetables and an all-off sequencer grid.
     */
    constructor (bufSize: nat)
      ensures going && writeToFile && websocket.None? && fixedUgens == []
      ensures |controlBlocks| == NUM_CONTROL_BLOCKS && forall i :: 0 <= i < |controlBlocks| ==> controlBlocks[i].None?
      ensures fresh(audioBus) && audioBus.Length0 == AUDIO_BUS_LENGTH && audioBus.Length1 == bufSize
      ensures forall b, j :: 0 <= b < AUDIO_BUS_LENGTH && 0 <= j < bufSize ==> audioBus[b, j] == 0.0
      ensures Wavetables.WrapsAround(wavetables.saw) && Wavetables.WrapsAround(wavetables.sqr) && Wavetables.WrapsAround(wavetables.noise)
      ensures fresh(sequencer) && sequencer.Valid()
      ensures forall p, i :: 0 <= p < Sequencer.SEQ_PATTERN_LEN && 0 <= i < Sequencer.SEQ_NUM_INSTRS ==> !sequencer.tab[p][i]
    {
      var tables := Wavetables.New();
      going := true;
      sequencer := new Sequencer.Sequencer();
      fixedUgens := [];
      controlBlocks := seq(NUM_CONTROL_BLOCKS, _ => None);
      writeToFile := true;
      wavetables := tables;
      audioBus := new real[AUDIO_BUS_LENGTH, bufSize]((_, _) => 0.0);
      websocket := None;
    }
  }

  /**
   * `GenState`: what a running ugen is handed, the shared audio buses and
   * web socket plus the advice for this run. The buses are shared by
   * reference, so every copy of a `GenState` writes the same buses.
   */
  datatype GenState<A> = GenState(audioBus: array2<real>, websocket: Option<Sender>, advice: A)

  /** `reborrow`: a new handle on the same buses, web socket and advice. */
  function Reborrow<A>(g: GenState<A>): (r: GenState<A>)
    ensures r.audioBus == g.audioBus && r.websocket == g.websocket && r.advice == g.advice
  {
    GenState(g.audioBus, g.websocket, g.advice)
  }

  /** `readvise`: the same buses and web socket with new advice. */
  function Readvise<A>(g: GenState<A>, advice: A): (r: GenState<A>)
    ensures r.audioBus == g.audioBus && r.websocket == g.websocket && r.advice == advice
  {
    Reborrow(g).(advice := advice)
  }

  /** Readvising twice keeps only the last advice, and readvising with the current advice is a plain reborrow. */
  lemma ReadviseOverrides<A>(g: GenState<A>, a: A, b: A)
    ensures Readvise(Readvise(g, a), b) == Readvise(g, b)
    ensures Readvise(g, g.advice) == Reborrow(g) == g
  {
  }
}
