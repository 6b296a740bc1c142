/**
 * The first voice manager, in src/main.rs: notes live in a pool of
 * `Option<NoteState>` slots and are found by pitch; a NoteOn restrikes a
 * sounding note of the same pitch or starts a new one in the first free
 * slot, and a NoteOff releases the note of that pitch.
 */
module LegacyMain {
  import opened Wrappers
  import opened Midi
  import opened Synth
  import Pool
  import Reduce

  /** `find_note`: the first slot holding a note of this pitch. */
  function FindNote(ns: seq<Option<NoteState>>, pitch: nat): (r: Option<nat>)
    ensures r.Some? ==> r.value < |ns| && ns[r.value].Some? && ns[r.value].value.pitch == pitch
    ensures r.Some? ==> forall j :: 0 <= j < r.value ==> !(ns[j].Some? && ns[j].value.pitch == pitch)
    ensures r.None? ==> forall j :: 0 <= j < |ns| ==> !(ns[j].Some? && ns[j].value.pitch == pitch)
  {
    if ns == [] then None
    else if ns[0].Some? && ns[0].value.pitch == pitch then Some(0)
    else
      match FindNote(ns[1..], pitch)
      case None => None
      case Some(k) =>
        assert forall j :: 1 <= j < k + 1 ==> ns[j] == ns[1..][j - 1];
        Some(k + 1)
  }

  /** `restrike_note`: the note starts a new attack at `vel` from the amplitude it has now, so its amplitude does not jump. */
  function RestrikeNote(note: NoteState, vel: real): (r: NoteState)
    ensures r.fsm.On? && r.fsm.t == 0.0 && r.fsm.vel == vel
    ensures r.phase == note.phase && r.freq == note.freq && r.pitch == note.pitch
    ensures NoteFsmAmp(r.fsm) == NoteFsmAmp(note.fsm)
  {
    note.(fsm := On(0.0, NoteFsmAmp(note.fsm), vel))
  }

  /** `release_note`: a note in the slot starts its release from the amplitude it has now; an empty slot stays empty. */
  function ReleaseNote(o: Option<NoteState>): (r: Option<NoteState>)
    ensures o.None? ==> r.None?
    ensures o.Some? ==> r.Some? && r.value.fsm.Release? && r.value.fsm.t == 0.0
    ensures o.Some? ==> r.value.phase == o.value.phase && r.value.freq == o.value.freq && r.value.pitch == o.value.pitch
    ensures o.Some? ==> NoteFsmAmp(r.value.fsm) == NoteFsmAmp(o.value.fsm)
  {
    match o
    case None => None
    case Some(note) => Some(note.(fsm := Release(0.0, NoteFsmAmp(note.fsm))))
  }

  /** The note a NoteOn starts on a silent pitch: phase 0, envelope on at time 0 from silence. */
  function NewNote(pitch: nat, freq: real, vel: real): NoteState
  {
    NoteState(0.0, freq, pitch, On(0.0, 0.0, vel))
  }

  /** The note pool after `midi_reducer` handles `msg`; `freq` is the frequency of the NoteOn's pitch. */
  function LegacyReduce(ns: seq<Option<NoteState>>, msg: Message, freq: real): seq<Option<NoteState>>
  {
    match msg
    case NoteOn(pitch, _, velocity) =>
      var vel := Reduce.NoteVelocity(velocity);
      (match FindNote(ns, pitch)
       case Some(i) => ns[i := Some(RestrikeNote(ns[i].value, vel))]
       case None => Pool.Allocate(ns, NewNote(pitch, freq, vel)))
    case NoteOff(pitch, _) =>
      (match FindNote(ns, pitch)
       case Some(i) => ns[i := ReleaseNote(ns[i])]
       case None => ns)
    case _ => ns
  }

  /**
   * After a NoteOn the pitch is sounding: the first note found for it is
   * on, at time 0, with the message's velocity, and the pool has one more
   * note exactly when none of that pitch was there before.
   */
  lemma NoteOnSoundsPitch(ns: seq<Option<NoteState>>, pitch: nat, ch: nat, velocity: nat, freq: real)
    ensures var r := LegacyReduce(ns, NoteOn(pitch, ch, velocity), freq);
      && FindNote(r, pitch).Some?
      && r[FindNote(r, pitch).value].value.fsm == On(0.0, if FindNote(ns, pitch).Some? then NoteFsmAmp(ns[FindNote(ns, pitch).value].value.fsm) else 0.0, Reduce.NoteVelocity(velocity))
      && Pool.LiveCount(r) == Pool.LiveCount(ns) + (if FindNote(ns, pitch).None? then 1 else 0)
  {
    var r := LegacyReduce(ns, NoteOn(pitch, ch, velocity), freq);
    match FindNote(ns, pitch)
    case Some(i) =>
      assert forall j :: 0 <= j < i ==> r[j] == ns[j];
      assert r[i].Some? && r[i].value.pitch == pitch;
      Pool.LiveCountUpdate(ns, i, Some(RestrikeNote(ns[i].value, Reduce.NoteVelocity(velocity))));
    case None =>
      var k := Pool.FirstFree(ns);
      assert forall j :: 0 <= j < k ==> r[j] == ns[j];
      Pool.AllocateAddsOne(ns, NewNote(pitch, freq, Reduce.NoteVelocity(velocity)));
  }

  /** A NoteOff for a pitch that is not sounding changes nothing; otherwise the pool keeps its size and live count. */
  lemma NoteOffKeepsPool(ns: seq<Option<NoteState>>, pitch: nat, ch: nat, freq: real)
    ensures FindNote(ns, pitch).None? ==> LegacyReduce(ns, NoteOff(pitch, ch), freq) == ns
    ensures |LegacyReduce(ns, NoteOff(pitch, ch), freq)| == |ns|
    ensures Pool.LiveCount(LegacyReduce(ns, NoteOff(pitch, ch), freq)) == Pool.LiveCount(ns)
  {
    match FindNote(ns, pitch)
    case Some(i) =>
      Pool.LiveCountUpdate(ns, i, ReleaseNote(ns[i]));
    case None =>
  }

  /** The part of the old global state that `midi_reducer` touches: the note pool. */
  class LegacyState {
    var noteState: seq<Option<NoteState>>

    constructor ()
      ensures noteState == []
    {
      noteState := [];
    }
  }

  /**
   * `midi_reducer`: NoteOn restrikes the note of that pitch or adds a new
   * one first-fit; NoteOff releases the note of that pitch if there is one;
   * other messages change nothing. The panic for a found note whose slot is
   * empty cannot happen, because `find_note` only returns occupied slots.
   */
  method MidiReducer(msg: Message, s: LegacyState, freq: real)
    modifies s
    ensures s.noteState == LegacyReduce(old(s.noteState), msg, freq)
  {
    match msg {
      case NoteOn(pitch, _, velocity) =>
        var pre := FindNote(s.noteState, pitch);
        var vel := Reduce.NoteVelocity(velocity);
        match pre {
          case Some(i) =>
            var note := s.noteState[i].value;
            s.noteState := s.noteState[i := Some(RestrikeNote(note, vel))];
          case None =>
            var ns', _ := Pool.AddGen(s.noteState, NewNote(pitch, freq, vel));
            s.noteState := ns';
        }
      case NoteOff(pitch, _) =>
        var pre := FindNote(s.noteState, pitch);
        match pre {
          case None =>
          case Some(i) =>
            s.noteState := s.noteState[i := ReleaseNote(s.noteState[i])];
        }
      case _ =>
    }
  }
}
