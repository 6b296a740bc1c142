/**
 * The polyphonic voice manager of src/midi_manager.rs: a sustain-pedal flag,
 * one key state per physical key, and a pool of voices whose slots are reused.
 */
module MidiManager {
  import opened Wrappers
  import opened Consts
  import opened Keys
  import Pool

  /** A pending command for a voice; the voice applies it on its next run. */
  datatype NoteMode = Run | Release | Restrike(vel: real)

  /**
   * A voice (`NotegenState`). The oscillator it wraps is not part of this
   * model: a voice is described by the bus it writes, the key that started it,
   * its velocity, its control-block slot and its pending command.
   */
  datatype Voice = Voice(dst: nat, pitch: nat, vel: real, ci: nat, mode: NoteMode)

  /** `release()` on a voice: only records that a release is pending. */
  function Released(v: Voice): (r: Voice)
    ensures r.mode == Release && r.(mode := v.mode) == v
  {
    v.(mode := Release)
  }

  /** `restrike(vel)` on a voice: only records that a restrike at `vel` is pending. */
  function Restruck(v: Voice, vel: real): (r: Voice)
    ensures r.mode == Restrike(vel) && r.(mode := v.mode) == v
  {
    v.(mode := Restrike(vel))
  }

  /** The manager's state as a value. */
  datatype Manager = Manager(pedal: bool, keys: seq<KeyState>, pool: seq<Option<Voice>>)

  /** Voice slot `i` is still live after the voice in it runs with `step`. */
  ghost predicate StaysAlive(pool: seq<Option<Voice>>, i: nat, step: Voice -> (Voice, bool))
  {
    i < |pool| && pool[i].Some? && step(pool[i].value).1
  }

  /** Every key that is down or held points at an occupied slot of the pool. */
  ghost predicate KeysPointAtLive(keys: seq<KeyState>, pool: seq<Option<Voice>>)
  {
    forall k :: 0 <= k < |keys| && !keys[k].Off? ==> keys[k].ugenIx < |pool| && pool[keys[k].ugenIx].Some?
  }

  /** No two sounding keys share a voice. */
  ghost predicate KeysDistinct(keys: seq<KeyState>)
  {
    forall k, l :: 0 <= k < l < |keys| && !keys[k].Off? && !keys[l].Off? ==> keys[k].ugenIx != keys[l].ugenIx
  }

  /** The manager invariant: one state per physical key, each sounding key on its own live voice. */
  ghost predicate Consistent(m: Manager)
  {
    |m.keys| == NUM_KEYS && KeysPointAtLive(m.keys, m.pool) && KeysDistinct(m.keys)
  }

  /**
   * A run pass keeps the invariant as long as no voice that a key points at
   * reports it is done; the pass never touches the keys.
   */
  lemma RunKeepsConsistent(m: Manager, step: Voice -> (Voice, bool))
    requires Consistent(m)
    requires forall k :: 0 <= k < |m.keys| && !m.keys[k].Off? ==> StaysAlive(m.pool, m.keys[k].ugenIx, step)
    ensures Consistent(m.(pool := Pool.RunSlots(m.pool, step)))
  {
    var pool' := Pool.RunSlots(m.pool, step);
    forall k | 0 <= k < |m.keys| && !m.keys[k].Off?
      ensures m.keys[k].ugenIx < |pool'| && pool'[m.keys[k].ugenIx].Some?
    {
      assert StaysAlive(m.pool, m.keys[k].ugenIx, step);
    }
  }

  /** `MidiManagerState`: the live manager, updated in place by the MIDI reducer and by the render loop. */
  class MidiManagerState {
    const dst: nat
    var pedal: bool
    var keyState: seq<KeyState>
    var notegenState: seq<Option<Voice>>
    /** Control-block slot recorded for new notes. */
    const ci: nat

    ghost function Model(): Manager
      reads this
    {
      Manager(pedal, keyState, notegenState)
    }

    /** A new manager: pedal up, all 88 keys off, no voices. */
    constructor (dst: nat, ci: nat)
      ensures this.dst == dst && this.ci == ci
      ensures !pedal && keyState == seq(NUM_KEYS, _ => Off) && notegenState == []
      ensures Consistent(Model())
    {
      this.dst := dst;
      this.ci := ci;
      pedal := false;
      keyState := seq(NUM_KEYS, _ => Off);
      notegenState := [];
    }

    /**
     * `run`: every live voice runs once (`step` returns its new state and
     * whether it goes on); a slot is emptied exactly when its voice is done.
     * The keys and the pedal are not touched, and the result is always true.
     */
    method Run(step: Voice -> (Voice, bool)) returns (keep: bool)
      modifies this`notegenState
      ensures keep && notegenState == Pool.RunSlots(old(notegenState), step)
    {
      notegenState := Pool.RunPass(notegenState, step);
      return true;
    }
  }
}
