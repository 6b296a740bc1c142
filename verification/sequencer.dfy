/**
 * The drum sequencer of src/sequencer.rs: a 16-step by 3-instrument grid of
 * booleans; at each step the column under the cursor spawns one drum hit
 * per set instrument into the first ugen group of the fixed ugens.
 */
module Sequencer {
  import opened Wrappers
  import opened Ugen
  import opened UgenGroup
  import Pool

  const SEQ_NUM_INSTRS: nat := 3
  const SEQ_PATTERN_LEN: nat := 16

  const GROUP_MISSING: string := "didn't find midi manager where we expected it"

  /** The three instruments, in column order: frequency sweep and envelope scale. */
  const INSTRUMENTS: seq<DrumHit> := [DrumHit(660.0, 1.0, 1.0), DrumHit(1760.0, 1000.0, 0.5), DrumHit(6760.0, 5760.0, 0.05)]

  /** The drum hits a column spawns: one per set entry among the first three, in instrument order. */
  function Spawns(col: seq<bool>): (r: seq<UgenState>)
    requires |col| >= SEQ_NUM_INSTRS
    ensures |r| <= SEQ_NUM_INSTRS
    ensures |r| == (if col[0] then 1 else 0) + (if col[1] then 1 else 0) + (if col[2] then 1 else 0)
    ensures !col[0] && !col[1] && !col[2] <==> r == []
    ensures forall h :: h in r ==> h.DrumSynthUgen? && h.hit in INSTRUMENTS
  {
    (if col[0] then [DrumSynthUgen(INSTRUMENTS[0])] else [])
    + (if col[1] then [DrumSynthUgen(INSTRUMENTS[1])] else [])
    + (if col[2] then [DrumSynthUgen(INSTRUMENTS[2])] else [])
  }

  /** The pool after adding `gens` one after another, each first-fit. */
  function AllocateAll<T>(ns: seq<Option<T>>, gens: seq<T>): seq<Option<T>>
    decreases |gens|
  {
    if gens == [] then ns else AllocateAll(Pool.Allocate(ns, gens[0]), gens[1..])
  }

  /** Adding `k` ugens one by one adds exactly `k` live ugens. */
  lemma {:induction false} AllocateAllAddsAll<T>(ns: seq<Option<T>>, gens: seq<T>)
    ensures Pool.LiveCount(AllocateAll(ns, gens)) == Pool.LiveCount(ns) + |gens|
    decreases |gens|
  {
    if gens != [] {
      Pool.AllocateAddsOne(ns, gens[0]);
      AllocateAllAddsAll(Pool.Allocate(ns, gens[0]), gens[1..]);
    }
  }

  /** `sequencer_loop_inner`: adds to the group the drum hits of one column, in instrument order. */
  method SequencerLoopInner(col: seq<bool>, group: UgenGroupState<UgenState>)
    requires |col| >= SEQ_NUM_INSTRS
    modifies group`ugenState
    ensures group.ugenState == AllocateAll(old(group.ugenState), Spawns(col))
    ensures Pool.LiveCount(group.ugenState) == Pool.LiveCount(old(group.ugenState)) + |Spawns(col)|
  {
    var ns, ix := group.ugenState, 0;
    ghost var start := ns;
    ghost var hits: seq<UgenState> := [];
    if col[0] {
      AllocateAllSnoc(start, hits, DrumSynthUgen(INSTRUMENTS[0]));
      ns, ix := Pool.AddGen(ns, DrumSynthUgen(INSTRUMENTS[0]));
      hits := hits + [DrumSynthUgen(INSTRUMENTS[0])];
    }
    assert ns == AllocateAll(start, hits);
    if col[1] {
      AllocateAllSnoc(start, hits, DrumSynthUgen(INSTRUMENTS[1]));
      ns, ix := Pool.AddGen(ns, DrumSynthUgen(INSTRUMENTS[1]));
      hits := hits + [DrumSynthUgen(INSTRUMENTS[1])];
    }
    if col[2] {
      AllocateAllSnoc(start, hits, DrumSynthUgen(INSTRUMENTS[2]));
      ns, ix := Pool.AddGen(ns, DrumSynthUgen(INSTRUMENTS[2]));
      hits := hits + [DrumSynthUgen(INSTRUMENTS[2])];
    }
    group.ugenState := ns;
    assert hits == Spawns(col);
    AllocateAllAddsAll(start, hits);
  }

  /** Adding one more ugen after a sequence of them is allocating it in the resulting pool. */
  lemma {:induction false} AllocateAllSnoc<T>(ns: seq<Option<T>>, gens: seq<T>, g: T)
    ensures AllocateAll(ns, gens + [g]) == Pool.Allocate(AllocateAll(ns, gens), g)
    decreases |gens|
  {
    if gens == [] {
      assert AllocateAll(Pool.Allocate(ns, g), []) == Pool.Allocate(ns, g);
    } else {
      assert (gens + [g])[1..] == gens[1..] + [g];
      AllocateAllSnoc(Pool.Allocate(ns, gens[0]), gens[1..], g);
    }
  }

  /** A slot holding a ugen group. */
  predicate HoldsGroup(o: Option<UgenState>)
  {
    o.Some? && o.value.UgenGroupUgen?
  }

  /** `find_ugen_group`: the group in the first slot that holds one, if any. */
  function FindUgenGroup(ugens: seq<Option<UgenState>>): (r: Option<UgenGroupState<UgenState>>)
    ensures r.None? <==> forall i :: 0 <= i < |ugens| ==> !HoldsGroup(ugens[i])
    ensures r.Some? ==> exists i :: 0 <= i < |ugens| && ugens[i] == Some(UgenGroupUgen(r.value))
                                    && forall j :: 0 <= j < i ==> !HoldsGroup(ugens[j])
  {
    if ugens == [] then None
    else if HoldsGroup(ugens[0]) then Some(ugens[0].value.group)
    else
      var r := FindUgenGroup(ugens[1..]);
      assert forall i :: 1 <= i < |ugens| ==> ugens[i] == ugens[1..][i - 1];
      if r.Some? then
        var k :| 0 <= k < |ugens[1..]| && ugens[1..][k] == Some(UgenGroupUgen(r.value))
                 && forall j :: 0 <= j < k ==> !HoldsGroup(ugens[1..][j]);
        assert ugens[k + 1] == Some(UgenGroupUgen(r.value));
        r
      else r
  }

  /** The objects a sequencer step may change: the group it finds, if any. */
  function FoundGroup(ugens: seq<Option<UgenState>>): set<object>
  {
    if FindUgenGroup(ugens).Some? then {FindUgenGroup(ugens).value} else {}
  }

  /** The sequencer's grid, one row per step and one column per instrument. */
  class Sequencer {
    var tab: seq<seq<bool>>

    ghost predicate Valid()
      reads this
    {
      |tab| == SEQ_PATTERN_LEN && forall p :: 0 <= p < |tab| ==> |tab[p]| == SEQ_NUM_INSTRS
    }

    /** `Sequencer::new`: every cell off. */
    constructor ()
      ensures Valid()
      ensures forall p, i :: 0 <= p < SEQ_PATTERN_LEN && 0 <= i < SEQ_NUM_INSTRS ==> !tab[p][i]
    {
      tab := seq(SEQ_PATTERN_LEN, _ => seq(SEQ_NUM_INSTRS, _ => false));
    }

    /** `set`: cell `[pat][inst]` becomes `on` and every other cell keeps its value. */
    method Set(inst: nat, pat: nat, on: bool)
      requires pat < |tab| && inst < |tab[pat]|
      modifies this`tab
      ensures |tab| == old(|tab|) && forall p :: 0 <= p < |tab| ==> |tab[p]| == old(|tab[p]|)
      ensures tab[pat][inst] == on
      ensures forall p, i :: 0 <= p < |tab| && 0 <= i < |tab[p]| && (p, i) != (pat, inst) ==> tab[p][i] == old(tab[p][i])
    {
      tab := tab[pat := tab[pat][inst := on]];
    }
  }

  /**
   * One step of `sequencer_loop` with the cursor at `pos`: spawns the
   * column under the cursor into the first ugen group and moves the cursor
   * to `(pos + 1) % 16`; without a group it fails and changes nothing.
   */
  method SequencerStep(pos: nat, sequencer: Sequencer, fixedUgens: seq<Option<UgenState>>) returns (r: Result<nat>)
    requires sequencer.Valid() && pos < SEQ_PATTERN_LEN
    modifies FoundGroup(fixedUgens)
    ensures r.Err? <==> FindUgenGroup(fixedUgens).None?
    ensures r.Err? ==> r == Err(GROUP_MISSING)
    ensures r.Ok? ==> r.value == (pos + 1) % SEQ_PATTERN_LEN && r.value < SEQ_PATTERN_LEN
    ensures r.Ok? ==> var g := FindUgenGroup(fixedUgens).value;
      g.ugenState == AllocateAll(old(g.ugenState), Spawns(sequencer.tab[pos]))
  {
    match FindUgenGroup(fixedUgens) {
      case Some(group) =>
        SequencerLoopInner(sequencer.tab[pos], group);
      case None =>
        return Err(GROUP_MISSING);
    }
    return Ok((pos + 1) % SEQ_PATTERN_LEN);
  }

  /** The cursor after `n` steps from 0. */
  function CursorAfter(n: nat): nat
  {
    if n == 0 then 0 else (CursorAfter(n - 1) + 1) % SEQ_PATTERN_LEN
  }

  /** Starting from 0, the cursor after `n` steps is `n % 16`: it cycles through the pattern and stays within it. */
  lemma {:induction false} CursorCycles(n: nat)
    ensures CursorAfter(n) == n % SEQ_PATTERN_LEN && CursorAfter(n) < SEQ_PATTERN_LEN
  {
    if n > 0 {
      CursorCycles(n - 1);
      var q, k := (n - 1) / SEQ_PATTERN_LEN, (n - 1) % SEQ_PATTERN_LEN;
      assert n - 1 == SEQ_PATTERN_LEN * q + k;
      if k + 1 == SEQ_PATTERN_LEN {
        assert n == SEQ_PATTERN_LEN * (q + 1);
      } else {
        assert n == SEQ_PATTERN_LEN * q + (k + 1);
      }
    }
  }
}
