/**
 * The earliest polyphonic synthesizer of src/synth.rs: one saw table of
 * `TABLE_SIZE + 1` entries, a per-note phase measured in table entries,
 * and a fixed attack/decay/sustain/release amplitude curve.
 */
module Synth {
  import opened Wrappers
  import opened Consts
  import Oscillator
  import Wavetables
  import Envelope

  const ATTACK: real := 0.005
  const DECAY: real := 0.005
  const SUSTAIN: real := 0.3
  const RELEASE: real := 0.05

  /** A note's envelope: on for `t` seconds from onset amplitude `amp` towards `vel`, or released `t` seconds ago from `amp`. */
  datatype NoteFsm = On(t: real, amp: real, vel: real) | Release(t: real, amp: real)

  /** One sounding note: its phase (in table entries), frequency, MIDI pitch and envelope. */
  datatype NoteState = NoteState(phase: real, freq: real, pitch: nat, fsm: NoteFsm)

  /** `note_fsm_amp`: the piecewise-linear amplitude of a note's envelope. */
  function NoteFsmAmp(fsm: NoteFsm): real
  {
    match fsm
    case On(t, amp, vel) =>
      if t < ATTACK then
        var a := t / ATTACK;
        amp * (1.0 - a) + vel * a
      else if t < ATTACK + DECAY then
        var a := (t - ATTACK) / DECAY;
        vel * (1.0 - a) + vel * SUSTAIN * a
      else SUSTAIN * vel
    case Release(t, amp) => amp * (1.0 - t / RELEASE)
  }

  /** The same curve as an `Adsr` of the later envelope module. */
  const SYNTH_ADSR: Envelope.Adsr := Envelope.Adsr(ATTACK, DECAY, SUSTAIN, RELEASE)

  /** The envelope position of the later module that describes the same moment. */
  function AsEnvPos(fsm: NoteFsm): Envelope.EnvPos
  {
    match fsm
    case On(t, amp, vel) => Envelope.On(t, amp, vel, false)
    case Release(t, amp) => Envelope.Release(t, amp)
  }

  /** `note_fsm_amp` is the amplitude curve `EnvState::amp` computes, with this file's constants. */
  lemma NoteFsmAmpIsEnvelopeAmp(fsm: NoteFsm)
    ensures Envelope.AmpDefined(SYNTH_ADSR, AsEnvPos(fsm))
    ensures NoteFsmAmp(fsm) == Envelope.AmpAt(SYNTH_ADSR, AsEnvPos(fsm))
  {
  }

  /** Restriking from amplitude `a` starts the new attack at `a`: the amplitude does not jump. */
  lemma RestrikeIsContinuous(a: real, vel: real)
    ensures NoteFsmAmp(On(0.0, a, vel)) == a
  {
  }

  /** Releasing captures the current amplitude `a` and the release starts there: no jump either. */
  lemma ReleaseIsContinuous(a: real)
    ensures NoteFsmAmp(Release(0.0, a)) == a
    ensures NoteFsmAmp(Release(RELEASE, a)) == 0.0
  {
  }

  /** `wrap_not_mod`: a value at or past `size` starts again from 0; anything smaller is kept. */
  function WrapNotMod(x: real, size: real): (r: real)
    ensures x >= size ==> r == 0.0
    ensures x < size ==> r == x
    ensures size > 0.0 ==> r < size
  {
    if x >= size then 0.0 else x
  }

  /**
   * `advance_note`: one sample of time for the note in a slot. An `On` note
   * only ages; a released note ages and its slot is emptied once its age
   * exceeds `RELEASE`; an empty slot stays empty.
   */
  function AdvanceNote(o: Option<NoteState>): (r: Option<NoteState>)
    ensures o.None? ==> r.None?
    ensures o.Some? && o.value.fsm.On? ==> r == Some(o.value.(fsm := o.value.fsm.(t := o.value.fsm.t + 1.0 / SAMPLE_RATE_HZ)))
    ensures o.Some? && o.value.fsm.Release? ==>
      if o.value.fsm.t + 1.0 / SAMPLE_RATE_HZ > RELEASE then r.None?
      else r == Some(o.value.(fsm := o.value.fsm.(t := o.value.fsm.t + 1.0 / SAMPLE_RATE_HZ)))
  {
    match o
    case None => None
    case Some(note) =>
      var t := note.fsm.t + 1.0 / SAMPLE_RATE_HZ;
      if note.fsm.Release? && t > RELEASE then None
      else Some(note.(fsm := note.fsm.(t := t)))
  }

  /** A phase the table can be read at: strictly below `TABLE_SIZE` (a negative phase saturates to entry 0). */
  predicate PhaseReadable(o: Option<NoteState>)
  {
    o.Some? ==> o.value.phase < TABLE_SIZE as real
  }

  /**
   * The interpolated table value at `phase`, which reads entries `offset`
   * and `offset + 1` with `offset` the saturated floor of the phase; both are
   * in bounds for every phase below `|table| - 1`.
   */
  function ReadAt(table: seq<real>, phase: real): real
    requires |table| >= 2 && phase < (|table| - 1) as real
  {
    var offset := Oscillator.SaturatingIndex(phase);
    Oscillator.FloorBelow(phase, |table| - 1);
    Oscillator.Lerp(phase - offset as real, table[offset], table[offset + 1])
  }

  /** `Synth`: the saw table all notes read from. */
  class Synth {
    const wavetable: array<real>

    ghost predicate Valid()
    {
      wavetable.Length == TABLE_SIZE + 1
    }

    /** `Synth::new`: a saw table whose last entry repeats the first. */
    constructor ()
      ensures Valid() && fresh(wavetable)
      ensures forall i :: 0 <= i < TABLE_SIZE ==> wavetable[i] == Wavetables.Saw(i)
      ensures wavetable[TABLE_SIZE] == wavetable[0]
    {
      var t := new real[TABLE_SIZE + 1](_ => 0.0);
      for i := 0 to TABLE_SIZE
        invariant forall j :: 0 <= j < i ==> t[j] == Wavetables.Saw(j)
      {
        t[i] := Wavetables.Saw(i);
      }
      t[TABLE_SIZE] := t[0];
      wavetable := t;
    }

    /**
     * `exec_note`: for a note in the slot, adds its amplitude times the
     * table value at its phase to `samp`, moves the phase on by
     * `freq * TABLE_SIZE / SAMPLE_RATE_HZ` (restarting from 0 at
     * `TABLE_SIZE`), then advances the note. An empty slot adds nothing.
     * A readable phase stays readable, so every read is in bounds.
     */
    method ExecNote(onote: Option<NoteState>, samp: real) returns (onote': Option<NoteState>, samp': real)
      requires Valid() && PhaseReadable(onote)
      ensures PhaseReadable(onote')
      ensures onote.None? ==> onote' == None && samp' == samp
      ensures onote.Some? ==>
        var note := onote.value;
        && samp' == samp + NoteFsmAmp(note.fsm) * ReadAt(wavetable[..], note.phase)
        && onote' == AdvanceNote(Some(note.(phase := WrapNotMod(note.phase + note.freq * (TABLE_SIZE as real) / SAMPLE_RATE_HZ, TABLE_SIZE as real))))
    {
      match onote {
        case None =>
          onote', samp' := None, samp;
        case Some(note) =>
          var phase := note.phase;
          var offset := Oscillator.SaturatingIndex(phase);
          Oscillator.FloorBelow(phase, TABLE_SIZE);
          var fpart := phase - offset as real;
          var tableVal := Oscillator.Lerp(fpart, wavetable[offset], wavetable[offset + 1]);
          samp' := samp + NoteFsmAmp(note.fsm) * tableVal;
          var base := note.freq * (TABLE_SIZE as real) / SAMPLE_RATE_HZ;
          var phase' := WrapNotMod(note.phase + base, TABLE_SIZE as real);
          onote' := AdvanceNote(Some(note.(phase := phase')));
      }
    }
  }
}
