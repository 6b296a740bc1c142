/**
 * Arena of reusable slots (`Vec<Option<T>>`) used for voices and transient
 * ugens: first-fit allocation (`add_gen` of src/reduce.rs) and the pass that
 * frees the slots whose occupant reports it is done.
 */
module Pool {
  import opened Wrappers

  /** `i` is the first free slot of `ns`, or `|ns|` when every slot is taken. */
  ghost predicate IsFirstFree<T>(ns: seq<Option<T>>, i: nat)
  {
    && i <= |ns|
    && (i < |ns| ==> ns[i].None?)
    && forall j :: 0 <= j < i ==> ns[j].Some?
  }

  /** Number of occupied slots. */
  function LiveCount<T>(ns: seq<Option<T>>): nat
  {
    if ns == [] then 0 else LiveCount(ns[..|ns| - 1]) + (if ns[|ns| - 1].Some? then 1 else 0)
  }

  /** Two first-free answers for the same pool agree. */
  lemma FirstFreeUnique<T>(ns: seq<Option<T>>, i: nat, j: nat)
    requires IsFirstFree(ns, i) && IsFirstFree(ns, j)
    ensures i == j
  {
  }

  /** The index `add_gen` uses: the first free slot, or the current length. */
  function FirstFree<T>(ns: seq<Option<T>>): (i: nat)
    ensures IsFirstFree(ns, i)
  {
    if ns == [] then 0
    else if ns[0].None? then 0
    else
      var k := FirstFree(ns[1..]);
      assert forall j :: 1 <= j < k + 1 ==> ns[j] == ns[1..][j - 1];
      k + 1
  }

  /** The pool after `add_gen(ns, gen)`. */
  function Allocate<T>(ns: seq<Option<T>>, gen: T): (r: seq<Option<T>>)
    ensures |r| == if FirstFree(ns) == |ns| then |ns| + 1 else |ns|
    ensures r[FirstFree(ns)] == Some(gen)
    ensures forall j :: 0 <= j < |ns| && j != FirstFree(ns) ==> r[j] == ns[j]
  {
    var i := FirstFree(ns);
    if i == |ns| then ns + [Some(gen)] else ns[i := Some(gen)]
  }

  /**
   * `add_gen`: stores `Some(gen)` in the first free slot, or appends it when
   * there is none, and returns the index used. Every other slot is unchanged.
   */
  method AddGen<T>(ns: seq<Option<T>>, gen: T) returns (ns': seq<Option<T>>, ix: nat)
    ensures IsFirstFree(ns, ix)
    ensures ix == FirstFree(ns) && ns' == Allocate(ns, gen)
  {
    var i := 0;
    while i < |ns| && ns[i].Some?
      invariant i <= |ns|
      invariant forall j :: 0 <= j < i ==> ns[j].Some?
    {
      i := i + 1;
    }
    FirstFreeUnique(ns, i, FirstFree(ns));
    if i == |ns| {
      ns' := ns + [Some(gen)];
    } else {
      ns' := ns[i := Some(gen)];
    }
    ix := i;
  }

  /** Allocation adds exactly one occupant, whether it reuses a slot or grows the pool. */
  lemma AllocateAddsOne<T>(ns: seq<Option<T>>, gen: T)
    ensures LiveCount(Allocate(ns, gen)) == LiveCount(ns) + 1
  {
    var i := FirstFree(ns);
    if i == |ns| {
      assert Allocate(ns, gen)[..|ns|] == ns;
    } else {
      LiveCountUpdate(ns, i, Some(gen));
    }
  }

  /** Overwriting one slot changes the count by the difference of the two occupancies. */
  lemma {:induction false} LiveCountUpdate<T>(ns: seq<Option<T>>, i: nat, v: Option<T>)
    requires i < |ns|
    ensures LiveCount(ns[i := v]) + (if ns[i].Some? then 1 else 0) == LiveCount(ns) + (if v.Some? then 1 else 0)
  {
    var n := |ns|;
    if i < n - 1 {
      LiveCountUpdate(ns[..n - 1], i, v);
      assert ns[i := v][..n - 1] == ns[..n - 1][i := v];
    } else {
      assert ns[i := v][..n - 1] == ns[..n - 1];
    }
  }

  /** The occupant of a slot after one run pass: the advanced occupant if it stays alive, else nothing. */
  function RunSlot<V>(o: Option<V>, step: V -> (V, bool)): Option<V>
  {
    match o
    case None => None
    case Some(v) => if step(v).1 then Some(step(v).0) else None
  }

  /**
   * The pool after one run pass (`MidiManagerState::run`, `UgenGroupState::run`):
   * `step` is the occupant's own `run`, returning its new state and whether it stays alive.
   */
  function RunSlots<V>(ns: seq<Option<V>>, step: V -> (V, bool)): (r: seq<Option<V>>)
    ensures |r| == |ns|
    ensures forall i :: 0 <= i < |ns| ==> r[i] == RunSlot(ns[i], step)
  {
    seq(|ns|, i requires 0 <= i < |ns| => RunSlot(ns[i], step))
  }

  /** A run pass frees slots and never fills one: the number of live occupants cannot grow. */
  lemma {:induction false} RunSlotsNeverAddsLive<V>(ns: seq<Option<V>>, step: V -> (V, bool))
    ensures LiveCount(RunSlots(ns, step)) <= LiveCount(ns)
  {
    if ns != [] {
      var n := |ns|;
      RunSlotsNeverAddsLive(ns[..n - 1], step);
      assert RunSlots(ns, step)[..n - 1] == RunSlots(ns[..n - 1], step);
    }
  }

  /** The run loop of a pool: each live occupant is advanced in place, and its slot is emptied when it reports it is done. */
  method RunPass<V>(ns: seq<Option<V>>, step: V -> (V, bool)) returns (ns': seq<Option<V>>)
    ensures ns' == RunSlots(ns, step)
  {
    ns' := ns;
    var i := 0;
    while i < |ns'|
      invariant |ns'| == |ns| && i <= |ns|
      invariant forall j :: 0 <= j < i ==> ns'[j] == RunSlot(ns[j], step)
      invariant forall j :: i <= j < |ns| ==> ns'[j] == ns[j]
    {
      match ns'[i] {
        case Some(v) =>
          var (v', alive) := step(v);
          if !alive {
            ns' := ns'[i := None];
          } else {
            ns' := ns'[i := Some(v')];
          }
        case None =>
      }
      i := i + 1;
    }
  }

  /** A run pass keeps the pool length, leaves free slots free, and frees an occupied slot exactly when its occupant reports it is done. */
  lemma RunSlotsFreesExactlyDone<V>(ns: seq<Option<V>>, step: V -> (V, bool), i: nat)
    requires i < |ns|
    ensures |RunSlots(ns, step)| == |ns|
    ensures ns[i].None? ==> RunSlots(ns, step)[i].None?
    ensures ns[i].Some? ==> (RunSlots(ns, step)[i].None? <==> !step(ns[i].value).1)
  {
  }
}
