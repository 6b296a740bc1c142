/**
 * The current GUI reducer (gui/reduce.ts): the action-to-state function
 * whose queued messages the outer `reduce` drains into send effects.
 */
module GuiReduce {
  import opened Wrappers
  import opened GuiProtocol
  import opened GuiState
  import GuiApp
  import RollReduce

  /** `reduce_inner`: the new state, with the messages this action sends appended to the outbox. */
  function ReduceInner(s: State, a: Action): Result<State>
  {
    match a
    case SetSequencer(inst, pat, on) =>
      (match GuiApp.SetCell(s.table, pat, inst, on)
       case Err(e) => Err(e)
       case Ok(t) => Ok(s.(table := t, outbox := s.outbox + [WebMessage.SetSequencer(inst, pat, on)])))
    case SetConnected(c) => Ok(s.(connected := c))
    case SetGain(g) => Ok(s.(ifaceGain := g, outbox := s.outbox + [GuiApp.GainMsg(g)]))
    case SetHighpass(hp) => Ok(s.(ifaceHighpass := hp, outbox := s.outbox + [GuiApp.HighpassMsg(hp)]))
    case SetAllpassDelay(d) =>
      var allpass := s.allpass.(ifaceAllpassDelay := d);
      Ok(s.(allpass := allpass, outbox := s.outbox + [GuiApp.AllpassMsg(allpass)]))
    case SetAllpassGain(g) =>
      var allpass := s.allpass.(ifaceAllpassGain := g);
      Ok(s.(allpass := allpass, outbox := s.outbox + [GuiApp.AllpassMsg(allpass)]))
    case SetAllpassNaive(n) =>
      var allpass := s.allpass.(ifaceAllpassNaive := n);
      Ok(s.(allpass := allpass, outbox := s.outbox + [GuiApp.AllpassMsg(allpass)]))
    case SetMeterValues(m) => Ok(s.(meterData := m))
    case SetLowpassState(ls) =>
      (match GuiApp.LowpassMsg(ls)
       case Err(e) => Err(e)
       case Ok(msg) => Ok(s.(lowpassState := ls, outbox := s.outbox + [msg])))
    case SetRoomSize(r) =>
      var s' := s.(ifaceRoomsize := r);
      Ok(s'.(outbox := s'.outbox + [GuiApp.ReverbMsg(s'.ifaceRoomsize, s'.ifaceWet)]))
    case SetWet(w) =>
      var s' := s.(ifaceWet := w);
      Ok(s'.(outbox := s'.outbox + [GuiApp.ReverbMsg(s'.ifaceRoomsize, s'.ifaceWet)]))
    case Vscroll(top) => Ok(s.(rollEditorState := s.rollEditorState.(scrollOctave := top)))
    // no case handles it: the inner reducer yields nothing and draining its outbox throws
    case RollAction(_) => Err(GuiApp.TYPE_ERROR)
  }

  /**
   * `reduce`: runs the inner reducer, turns every outbox message into a send
   * effect, in order, and empties the outbox.
   */
  function Reduce(s: State, a: Action): (r: Result<(State, seq<Effect>)>)
    ensures r.Err? <==> ReduceInner(s, a).Err?
    ensures r.Ok? ==> r.value.0.outbox == [] && r.value.0 == ReduceInner(s, a).value.(outbox := [])
    ensures r.Ok? ==> r.value.1 == GuiApp.SendAll(ReduceInner(s, a).value.outbox)
  {
    match ReduceInner(s, a)
    case Err(e) => Err(e)
    case Ok(s') => Ok((s'.(outbox := []), GuiApp.SendAll(s'.outbox)))
  }

  /** Only the piano-roll action, an empty tap list and a missing sequencer row fail. */
  lemma ReduceFailures(s: State, a: Action)
    ensures Reduce(s, a).Err? <==>
      || a.RollAction?
      || (a.SetLowpassState? && a.lowpassState == [])
      || (a.SetSequencer? && a.pat >= |s.table|)
  {
  }

  /**
   * The outbox is a queue: whatever was already in it stays first, in order,
   * and each action adds at most one message.
   */
  lemma ReduceInnerQueues(s: State, a: Action)
    requires ReduceInner(s, a).Ok?
    ensures var o := ReduceInner(s, a).value.outbox;
      && |s.outbox| <= |o| <= |s.outbox| + 1
      && o[..|s.outbox|] == s.outbox
  {
  }

  /**
   * `setSequencer` turns exactly cell `(pat, inst)` to the requested value,
   * keeps every other cell, and sends the action itself.
   */
  lemma SetSequencerEffect(s: State, inst: nat, pat: nat, on: bool)
    requires s.outbox == [] && pat < |s.table|
    ensures var r := Reduce(s, Action.SetSequencer(inst, pat, on));
      && r.Ok?
      && r.value.1 == [Send(WebMessage.SetSequencer(inst, pat, on))]
      && r.value.0.table[pat][inst] == on
      && (forall p :: 0 <= p < |s.table| && p != pat ==> r.value.0.table[p] == s.table[p])
      && (forall i :: 0 <= i < |s.table[pat]| && i != inst ==> r.value.0.table[pat][i] == s.table[pat][i])
      && r.value.0.(table := s.table) == s
  {
  }

  /** `setConnected`, `setMeterValues` and `Vscroll` change only their own field and send nothing. */
  lemma SilentActions(s: State, a: Action)
    requires s.outbox == []
    ensures a.SetConnected? ==> Reduce(s, a) == Ok((s.(connected := a.connected), []))
    ensures a.SetMeterValues? ==> Reduce(s, a) == Ok((s.(meterData := a.msg), []))
    ensures a.Vscroll? ==> Reduce(s, a) == Ok((s.(rollEditorState := s.rollEditorState.(scrollOctave := a.top)), []))
  {
  }

  /**
   * Each setting action records the new setting and sends the one control
   * block built from it: the gain, the three-tap highpass, the allpass built
   * from the updated allpass settings, and the reverb built from both
   * current reverb settings.
   */
  lemma SettingActions(s: State, a: Action)
    requires s.outbox == []
    ensures a.SetGain? ==> Reduce(s, a) == Ok((s.(ifaceGain := a.ifaceGain), [Send(GuiApp.GainMsg(a.ifaceGain))]))
    ensures a.SetHighpass? ==> Reduce(s, a) == Ok((s.(ifaceHighpass := a.ifaceHighpass), [Send(GuiApp.HighpassMsg(a.ifaceHighpass))]))
    ensures a.SetAllpassDelay? || a.SetAllpassGain? || a.SetAllpassNaive? ==>
      var r := Reduce(s, a);
      && r.Ok? && r.value.1 == [Send(GuiApp.AllpassMsg(r.value.0.allpass))]
      && r.value.0 == s.(allpass := r.value.0.allpass)
      && (a.SetAllpassDelay? ==> r.value.0.allpass == s.allpass.(ifaceAllpassDelay := a.ifaceAllpassDelay))
      && (a.SetAllpassGain? ==> r.value.0.allpass == s.allpass.(ifaceAllpassGain := a.ifaceAllpassGain))
      && (a.SetAllpassNaive? ==> r.value.0.allpass == s.allpass.(ifaceAllpassNaive := a.ifaceAllpassNaive))
    ensures a.SetRoomSize? || a.SetWet? ==>
      var r := Reduce(s, a);
      && r.Ok? && r.value.1 == [Send(GuiApp.ReverbMsg(r.value.0.ifaceRoomsize, r.value.0.ifaceWet))]
      && (a.SetRoomSize? ==> r.value.0 == s.(ifaceRoomsize := a.ifaceRoomsize))
      && (a.SetWet? ==> r.value.0 == s.(ifaceWet := a.ifaceWet))
  {
    if a.SetGain? {
      var m := GuiApp.GainMsg(a.ifaceGain);
      assert ReduceInner(s, a).value.outbox == [m];
      assert GuiApp.SendAll([m]) == [Send(m)];
    } else if a.SetHighpass? {
      var m := GuiApp.HighpassMsg(a.ifaceHighpass);
      assert ReduceInner(s, a).value.outbox == [m];
      assert GuiApp.SendAll([m]) == [Send(m)];
    }
  }

  /**
   * `setLowpassState` on a non-empty list records it and sends one lowpass
   * block whose tap weights add up to 1 and leave at least 0.05 on the input.
   */
  lemma SetLowpassNormalises(s: State, ls: seq<InterfaceTap>)
    requires s.outbox == [] && ls != []
    ensures var r := Reduce(s, SetLowpassState(ls));
      && r.Ok? && r.value.0 == s.(lowpassState := ls) && |r.value.1| == 1
      && r.value.1[0].msg.SetControlBlock?
      && r.value.1[0].msg.index == GuiApp.DEFAULT_LOW_PASS_CONTROL_BLOCK
      && r.value.1[0].msg.ctl.Low?
      && GuiApp.Sum(GuiApp.Weights(r.value.1[0].msg.ctl.taps)) == 1.0
      && r.value.1[0].msg.ctl.taps[|ls|] == Tap(Input, 0, r.value.1[0].msg.ctl.taps[|ls|].weight)
      && r.value.1[0].msg.ctl.taps[|ls|].weight >= GuiApp.MIN_SELF_WEIGHT
  {
    GuiApp.LowpassWeightsSumToOne(ls);
  }
}
