/**
 * The MIDI reducer of src/reduce.rs: the per-key state machine that
 * allocates, restrikes, holds and releases voices in a `MidiManagerState`.
 */
module Reduce {
  import opened Wrappers
  import opened Consts
  import opened Midi
  import opened Keys
  import opened MidiManager
  import Pool
  import opened Ugen

  /** Control-block slot given to every new voice. */
  const DEFAULT_REASONABLE_CONTROL_BLOCK: nat := 0

  const INDEX_PANIC: string := "index out of bounds"
  const LIVE_UGEN_PANIC: string := "Invariant Violation: expected key_state pointed to live ugen"

  /** `ugen_ix_of_key_state`: the voice a key is sounding, if it is down or held. */
  function UgenIxOfKeyState(ks: KeyState): (r: Option<nat>)
    ensures r.None? <==> ks.Off?
    ensures r.Some? ==> r.value == ks.ugenIx
  {
    match ks
    case On(ix) => Some(ix)
    case Held(ix) => Some(ix)
    case Off => None
  }

  /** `release_maybe_notegen`: asks a live voice to release; an empty slot stays empty. */
  function ReleaseMaybeNotegen(o: Option<Voice>): (r: Option<Voice>)
    ensures r.None? <==> o.None?
    ensures o.Some? ==> r.value.mode == Release
  {
    match o
    case None => None
    case Some(v) => Some(Released(v))
  }

  /** Releasing twice is the same as releasing once. */
  lemma ReleaseMaybeIdempotent(o: Option<Voice>)
    ensures ReleaseMaybeNotegen(ReleaseMaybeNotegen(o)) == ReleaseMaybeNotegen(o)
  {
  }

  /** Velocity scaling of a NoteOn: the MIDI velocity divided by 1280. */
  function NoteVelocity(velocity: nat): (vel: real)
    ensures 0.0 <= vel && (velocity < 128 ==> vel < 0.1)
  {
    velocity as real / 1280.0
  }

  /** The voice a NoteOn on a silent key starts (`new_reasonable_of_tables`). */
  function NewVoice(dst: nat, pitch: nat, vel: real): Voice
  {
    Voice(dst, pitch, vel, DEFAULT_REASONABLE_CONTROL_BLOCK, Run)
  }

  /** A key after PedalOff: held keys go off, the others keep their state. */
  function Unheld(ks: KeyState): KeyState
  {
    if ks.Held? then Off else ks
  }

  /** The key table after PedalOff. */
  function UnheldAll(keys: seq<KeyState>): (r: seq<KeyState>)
    ensures |r| == |keys| && forall k :: 0 <= k < |keys| ==> r[k] == Unheld(keys[k])
  {
    seq(|keys|, k requires 0 <= k < |keys| => Unheld(keys[k]))
  }

  /** The voice indices of the held keys, in key order (the `ugen_ixs` list PedalOff collects). */
  function HeldIxs(keys: seq<KeyState>): (r: seq<nat>)
    ensures forall i :: 0 <= i < |r| ==> exists k :: 0 <= k < |keys| && keys[k] == Held(r[i])
    ensures forall k :: 0 <= k < |keys| && keys[k].Held? ==> keys[k].ugenIx in r
  {
    if keys == [] then []
    else
      var r0 := HeldIxs(keys[..|keys| - 1]);
      var last := keys[|keys| - 1];
      assert forall k :: 0 <= k < |keys| - 1 ==> keys[..|keys| - 1][k] == keys[k];
      if last.Held? then r0 + [last.ugenIx] else r0
  }

  /** Collecting one more key appends its voice when it is held. */
  lemma HeldIxsNext(keys: seq<KeyState>, k: nat)
    requires k < |keys|
    ensures HeldIxs(keys[..k + 1]) == HeldIxs(keys[..k]) + (if keys[k].Held? then [keys[k].ugenIx] else [])
  {
    assert keys[..k + 1][..k] == keys[..k];
  }

  /** The pool after releasing the voices at `ixs` in order, or `None` when one of them is out of range. */
  function ReleaseAll(pool: seq<Option<Voice>>, ixs: seq<nat>): (r: Option<seq<Option<Voice>>>)
    ensures r.Some? ==> |r.value| == |pool|
  {
    if ixs == [] then Some(pool)
    else
      match ReleaseAll(pool, ixs[..|ixs| - 1])
      case None => None
      case Some(p) =>
        var ix := ixs[|ixs| - 1];
        if ix < |p| then Some(p[ix := ReleaseMaybeNotegen(p[ix])]) else None
  }

  /**
   * Releasing a list of voices succeeds exactly when every index is in range,
   * and then releases exactly the listed slots (once each, however often listed).
   */
  lemma {:induction false} ReleaseAllExact(pool: seq<Option<Voice>>, ixs: seq<nat>)
    ensures ReleaseAll(pool, ixs).Some? <==> forall i :: 0 <= i < |ixs| ==> ixs[i] < |pool|
    ensures ReleaseAll(pool, ixs).Some? ==> forall j :: 0 <= j < |pool| ==>
      ReleaseAll(pool, ixs).value[j] == if j in ixs then ReleaseMaybeNotegen(pool[j]) else pool[j]
  {
    if ixs != [] {
      var n := |ixs|;
      ReleaseAllExact(pool, ixs[..n - 1]);
      assert forall i :: 0 <= i < n - 1 ==> ixs[..n - 1][i] == ixs[i];
      assert forall j :: j in ixs <==> j in ixs[..n - 1] || j == ixs[n - 1];
    }
  }

  /** The whole effect of one MIDI message on the manager: the new state and how the call ends. */
  ghost function MidiReduce(m: Manager, dst: nat, msg: Message): (Manager, Outcome)
  {
    match msg
    case NoteOn(pitch, _, velocity) =>
      (match KeySlot(|m.keys|, pitch)
       case None => (m, Panicked(INDEX_PANIC))
       case Some(k) =>
         var vel := NoteVelocity(velocity);
         match UgenIxOfKeyState(m.keys[k])
         case None =>
           var ix := Pool.FirstFree(m.pool);
           (Manager(m.pedal, m.keys[k := On(ix)], Pool.Allocate(m.pool, NewVoice(dst, pitch, vel))), Completed)
         case Some(ix) =>
           if ix >= |m.pool| then (m, Panicked(INDEX_PANIC))
           else if m.pool[ix].None? then (m, Panicked(LIVE_UGEN_PANIC))
           else (Manager(m.pedal, m.keys[k := On(ix)], m.pool[ix := Some(Restruck(m.pool[ix].value, vel))]), Completed))
    case NoteOff(pitch, _) =>
      (match KeySlot(|m.keys|, pitch)
       case None => (m, Panicked(INDEX_PANIC))
       case Some(k) =>
         match UgenIxOfKeyState(m.keys[k])
         case None => (m, Completed)
         case Some(ix) =>
           if m.pedal then (m.(keys := m.keys[k := Held(ix)]), Completed)
           else if ix >= |m.pool| then (m, Panicked(INDEX_PANIC))
           else (Manager(m.pedal, m.keys[k := Off], m.pool[ix := ReleaseMaybeNotegen(m.pool[ix])]), Completed))
    case PedalOff =>
      (match ReleaseAll(m.pool, HeldIxs(m.keys))
       case None => (m, Panicked(INDEX_PANIC))
       case Some(pool') => (Manager(false, UnheldAll(m.keys), pool'), Completed))
    case PedalOn =>
      (m.(pedal := true), Completed)
  }

  /** A pitch the 88-key table covers. */
  predicate OnKeyboard(pitch: nat)
  {
    BOTTOM_NOTE <= pitch < BOTTOM_NOTE + NUM_KEYS
  }

  /** The pitch a message is about, for the two key messages. */
  predicate KeyOffKeyboard(msg: Message)
  {
    (msg.NoteOn? || msg.NoteOff?) && !OnKeyboard(msg.pitch)
  }

  /**
   * From a consistent manager, a message panics only when its pitch is off
   * the keyboard (never with the live-voice panic), and every completed
   * message leaves the manager consistent.
   */
  lemma ReduceKeepsConsistent(m: Manager, dst: nat, msg: Message)
    requires Consistent(m)
    ensures MidiReduce(m, dst, msg).1.Panicked? <==> KeyOffKeyboard(msg)
    ensures MidiReduce(m, dst, msg).1.Completed? ==> Consistent(MidiReduce(m, dst, msg).0)
  {
    match msg {
      case NoteOn(pitch, ch, velocity) =>
        NoteOnKeepsConsistent(m, dst, pitch, ch, velocity);
      case NoteOff(pitch, _) =>
      case PedalOff =>
        PedalOffKeepsConsistent(m, dst);
      case PedalOn =>
    }
  }

  /** The NoteOn case: a fresh voice goes to a slot no sounding key uses, a restrike keeps the key's own voice. */
  lemma NoteOnKeepsConsistent(m: Manager, dst: nat, pitch: nat, ch: nat, velocity: nat)
    requires Consistent(m)
    ensures var r := MidiReduce(m, dst, NoteOn(pitch, ch, velocity));
      && (r.1.Panicked? <==> !OnKeyboard(pitch))
      && (r.1.Completed? ==> Consistent(r.0))
  {
    if OnKeyboard(pitch) {
      var k := pitch - BOTTOM_NOTE;
      if m.keys[k].Off? {
        var ix := Pool.FirstFree(m.pool);
        forall l | 0 <= l < |m.keys| && !m.keys[l].Off?
          ensures m.keys[l].ugenIx != ix
        {
          assert m.pool[m.keys[l].ugenIx].Some?;
        }
      }
    }
  }

  /** The PedalOff case: every held key points into the pool, so releasing them never panics. */
  lemma PedalOffKeepsConsistent(m: Manager, dst: nat)
    requires Consistent(m)
    ensures MidiReduce(m, dst, PedalOff).1.Completed? && Consistent(MidiReduce(m, dst, PedalOff).0)
  {
    var ixs := HeldIxs(m.keys);
    ReleaseAllExact(m.pool, ixs);
    forall i | 0 <= i < |ixs|
      ensures ixs[i] < |m.pool|
    {
      var k :| 0 <= k < |m.keys| && m.keys[k] == Held(ixs[i]);
    }
  }

  /**
   * A second NoteOn on a key that is already sounding restrikes the same
   * voice: the key keeps its voice index and no slot is allocated.
   */
  lemma NoteOnTwiceReusesVoice(m: Manager, dst: nat, pitch: nat, ch: nat, v1: nat, v2: nat)
    requires Consistent(m) && OnKeyboard(pitch)
    ensures var m1 := MidiReduce(m, dst, NoteOn(pitch, ch, v1)).0;
      var m2 := MidiReduce(m1, dst, NoteOn(pitch, ch, v2));
      && m2.1.Completed?
      && m2.0.keys == m1.keys
      && |m2.0.pool| == |m1.pool|
      && m2.0.pool[m1.keys[pitch - BOTTOM_NOTE].ugenIx].value.mode == Restrike(NoteVelocity(v2))
  {
    ReduceKeepsConsistent(m, dst, NoteOn(pitch, ch, v1));
  }

  /**
   * PedalOff lifts the pedal, turns exactly the held keys off, leaves down
   * keys as they are, and releases exactly the voices of the held keys.
   */
  lemma PedalOffReleasesExactlyHeld(m: Manager, dst: nat)
    requires Consistent(m)
    ensures var r := MidiReduce(m, dst, PedalOff).0;
      && !r.pedal && |r.keys| == |m.keys| && |r.pool| == |m.pool|
      && (forall k :: 0 <= k < |m.keys| ==> r.keys[k] == if m.keys[k].Held? then Off else m.keys[k])
      && forall j :: 0 <= j < |m.pool| ==>
           r.pool[j] == if (exists k :: 0 <= k < |m.keys| && m.keys[k] == Held(j)) then ReleaseMaybeNotegen(m.pool[j]) else m.pool[j]
  {
    ReduceKeepsConsistent(m, dst, PedalOff);
    var ixs := HeldIxs(m.keys);
    ReleaseAllExact(m.pool, ixs);
    forall j | 0 <= j < |m.pool|
      ensures j in ixs <==> exists k :: 0 <= k < |m.keys| && m.keys[k] == Held(j)
    {
      if exists k :: 0 <= k < |m.keys| && m.keys[k] == Held(j) {
        var k :| 0 <= k < |m.keys| && m.keys[k] == Held(j);
        assert m.keys[k].Held?;
      }
    }
  }

  /**
   * If the render loop frees a voice that a key still points at, the next
   * NoteOn on that key hits the live-voice panic.
   */
  lemma FreedVoiceThenNoteOnPanics(m: Manager, dst: nat, step: Voice -> (Voice, bool), pitch: nat, ch: nat, vel: nat)
    requires Consistent(m) && OnKeyboard(pitch)
    requires !m.keys[pitch - BOTTOM_NOTE].Off?
    requires !step(m.pool[m.keys[pitch - BOTTOM_NOTE].ugenIx].value).1
    ensures MidiReduce(m.(pool := Pool.RunSlots(m.pool, step)), dst, NoteOn(pitch, ch, vel)).1 == Panicked(LIVE_UGEN_PANIC)
  {
  }

  /** `midi_reducer_inner`: applies one MIDI message to the manager in place. */
  method MidiReducerInner(msg: Message, mm: MidiManagerState) returns (out: Outcome)
    modifies mm
    ensures out == MidiReduce(old(mm.Model()), mm.dst, msg).1
    ensures out.Completed? ==> mm.Model() == MidiReduce(old(mm.Model()), mm.dst, msg).0
  {
    match msg {
      case NoteOn(pitch, _, velocity) =>
        var k := KeySlot(|mm.keyState|, pitch);
        if k.None? {
          return Panicked(INDEX_PANIC);
        }
        var pre := UgenIxOfKeyState(mm.keyState[k.value]);
        var vel := NoteVelocity(velocity);
        var ugenIx: nat;
        if pre.None? {
          mm.notegenState, ugenIx := Pool.AddGen(mm.notegenState, NewVoice(mm.dst, pitch, vel));
        } else {
          ugenIx := pre.value;
          if ugenIx >= |mm.notegenState| {
            return Panicked(INDEX_PANIC);
          }
          match mm.notegenState[ugenIx] {
            case None =>
              return Panicked(LIVE_UGEN_PANIC);
            case Some(ugen) =>
              mm.notegenState := mm.notegenState[ugenIx := Some(Restruck(ugen, vel))];
          }
        }
        mm.keyState := mm.keyState[k.value := On(ugenIx)];
        return Completed;
      case NoteOff(pitch, _) =>
        var k := KeySlot(|mm.keyState|, pitch);
        if k.None? {
          return Panicked(INDEX_PANIC);
        }
        var pre := UgenIxOfKeyState(mm.keyState[k.value]);
        if pre.Some? {
          var ugenIx := pre.value;
          if mm.pedal {
            mm.keyState := mm.keyState[k.value := Held(ugenIx)];
          } else {
            if ugenIx >= |mm.notegenState| {
              return Panicked(INDEX_PANIC);
            }
            mm.notegenState := mm.notegenState[ugenIx := ReleaseMaybeNotegen(mm.notegenState[ugenIx])];
            mm.keyState := mm.keyState[k.value := Off];
          }
        }
        return Completed;
      case PedalOff =>
        out := PedalOffInPlace(mm);
      case PedalOn =>
        mm.pedal := true;
        return Completed;
    }
  }

  /** The PedalOff case: collects and clears the held keys in one pass, then releases the collected voices in a second. */
  method PedalOffInPlace(mm: MidiManagerState) returns (out: Outcome)
    modifies mm
    ensures out == MidiReduce(old(mm.Model()), mm.dst, PedalOff).1
    ensures out.Completed? ==> mm.Model() == MidiReduce(old(mm.Model()), mm.dst, PedalOff).0
  {
    mm.pedal := false;
    var ugenIxs := CollectHeld(mm);
    out := ReleaseListed(mm, ugenIxs);
  }

  /** First pass of PedalOff: every held key goes off, and the list of their voices is returned in key order. */
  method CollectHeld(mm: MidiManagerState) returns (ugenIxs: seq<nat>)
    modifies mm`keyState
    ensures ugenIxs == HeldIxs(old(mm.keyState)) && mm.keyState == UnheldAll(old(mm.keyState))
  {
    var keys := mm.keyState;
    ghost var keys0 := keys;
    ugenIxs := [];
    var k := 0;
    while k < |keys|
      invariant k <= |keys| == |keys0|
      invariant ugenIxs == HeldIxs(keys0[..k])
      invariant forall j :: 0 <= j < k ==> keys[j] == Unheld(keys0[j])
      invariant forall j :: k <= j < |keys| ==> keys[j] == keys0[j]
    {
      HeldIxsNext(keys0, k);
      if keys[k].Held? {
        ugenIxs := ugenIxs + [keys[k].ugenIx];
        keys := keys[k := Off];
      }
      k := k + 1;
    }
    assert keys0[..k] == keys0;
    assert keys == UnheldAll(keys0);
    mm.keyState := keys;
  }

  /** Second pass of PedalOff: releases the listed voices in order, panicking at the first index past the pool. */
  method ReleaseListed(mm: MidiManagerState, ugenIxs: seq<nat>) returns (out: Outcome)
    modifies mm`notegenState
    ensures out.Completed? <==> ReleaseAll(old(mm.notegenState), ugenIxs).Some?
    ensures out.Panicked? ==> out == Panicked(INDEX_PANIC)
    ensures out.Completed? ==> mm.notegenState == ReleaseAll(old(mm.notegenState), ugenIxs).value
  {
    ghost var pool0 := mm.notegenState;
    var i := 0;
    while i < |ugenIxs|
      invariant i <= |ugenIxs|
      invariant ReleaseAll(pool0, ugenIxs[..i]) == Some(mm.notegenState)
    {
      assert ugenIxs[..i + 1][..i] == ugenIxs[..i];
      var ix := ugenIxs[i];
      if ix >= |mm.notegenState| {
        ReleaseAllExact(pool0, ugenIxs);
        return Panicked(INDEX_PANIC);
      }
      mm.notegenState := mm.notegenState[ix := ReleaseMaybeNotegen(mm.notegenState[ix])];
      i := i + 1;
    }
    assert ugenIxs[..i] == ugenIxs;
    return Completed;
  }

  const MANAGER_MISSING: string := "couldn't find midi manager"

  /** The manager in the first fixed ugen that is one, if any. */
  function FindMidiManager(ugens: seq<UgenState>): (r: Option<MidiManagerState>)
    ensures r.None? <==> forall i :: 0 <= i < |ugens| ==> !ugens[i].MidiManagerUgen?
    ensures r.Some? ==> exists i :: 0 <= i < |ugens| && ugens[i] == MidiManagerUgen(r.value)
                                    && forall j :: 0 <= j < i ==> !ugens[j].MidiManagerUgen?
  {
    if ugens == [] then None
    else if ugens[0].MidiManagerUgen? then Some(ugens[0].manager)
    else
      var r := FindMidiManager(ugens[1..]);
      assert forall i :: 1 <= i < |ugens| ==> ugens[i] == ugens[1..][i - 1];
      if r.Some? then
        var k :| 0 <= k < |ugens[1..]| && ugens[1..][k] == MidiManagerUgen(r.value)
                 && forall j :: 0 <= j < k ==> !ugens[1..][j].MidiManagerUgen?;
        assert ugens[k + 1] == MidiManagerUgen(r.value);
        r
      else r
  }

  /** The objects `midi_reducer` may change: the manager it finds, if any. */
  function FoundManager(ugens: seq<UgenState>): set<object>
  {
    if FindMidiManager(ugens).Some? then {FindMidiManager(ugens).value} else {}
  }

  /**
   * `midi_reducer`: hands the message to the first MIDI manager among the
   * fixed ugens, or fails when there is none.
   */
  method MidiReducer(msg: Message, fixedUgens: seq<UgenState>) returns (r: Result<Outcome>)
    modifies FoundManager(fixedUgens)
    ensures r.Err? <==> FindMidiManager(fixedUgens).None?
    ensures r.Err? ==> r == Err(MANAGER_MISSING)
    ensures r.Ok? ==>
      var mm := FindMidiManager(fixedUgens).value;
      && r.value == MidiReduce(old(mm.Model()), mm.dst, msg).1
      && (r.value.Completed? ==> mm.Model() == MidiReduce(old(mm.Model()), mm.dst, msg).0)
  {
    match FindMidiManager(fixedUgens) {
      case None =>
        return Err(MANAGER_MISSING);
      case Some(mm) =>
        var out := MidiReducerInner(msg, mm);
        return Ok(out);
    }
  }
}
