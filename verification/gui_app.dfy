/**
 * The first GUI reducer, in gui/app.tsx: the control messages each user
 * action produces, the action-to-state reducer with its outbox of pending
 * messages, the initial state and the drum envelope shape. The message
 * builders here are shared with the later reducer of gui/reduce.ts.
 */
module GuiApp {
  import opened Wrappers
  import opened GuiProtocol
  import Envelope

  const MAX_GAIN: real := 40.0

  const DEFAULT_REASONABLE_CONTROL_BLOCK: int := 0
  const DEFAULT_DRUM_CONTROL_BLOCK: int := 10
  const DEFAULT_LOW_PASS_CONTROL_BLOCK: int := 1
  const DEFAULT_GAIN_CONTROL_BLOCK: int := 2
  const DEFAULT_ALLPASS_CONTROL_BLOCK: int := 3
  const DEFAULT_REVERB_CONTROL_BLOCK: int := 4

  /** Smallest weight the lowpass keeps for the current input. */
  const MIN_SELF_WEIGHT: real := 0.05
  const MAX_SUM: real := 1.0 - MIN_SELF_WEIGHT

  /** What a JavaScript array index assignment on a missing row, or a `reduce` of an empty array, throws. */
  const TYPE_ERROR: string := "TypeError"

  /**
   * `s.table[pat][inst] = on`: fails when row `pat` does not exist; a column
   * past the end of its row grows the row, and the cells in between read as
   * absent, which every reader of the table treats as off.
   */
  function SetCell(table: seq<seq<bool>>, pat: nat, inst: nat, on: bool): (r: Result<seq<seq<bool>>>)
    ensures r.Err? <==> pat >= |table|
    ensures r.Ok? ==> |r.value| == |table| && |r.value[pat]| == if inst < |table[pat]| then |table[pat]| else inst + 1
    ensures r.Ok? ==> r.value[pat][inst] == on
    ensures r.Ok? ==> forall i :: 0 <= i < |table[pat]| && i != inst ==> r.value[pat][i] == table[pat][i]
    ensures r.Ok? ==> forall i :: |table[pat]| <= i < |r.value[pat]| && i != inst ==> !r.value[pat][i]
    ensures r.Ok? ==> forall p :: 0 <= p < |table| && p != pat ==> r.value[p] == table[p]
  {
    if pat >= |table| then Err(TYPE_ERROR)
    else
      var row := table[pat];
      var grown := if inst < |row| then row else row + seq(inst + 1 - |row|, _ => false);
      Ok(table[pat := grown[inst := on]])
  }

  /** `setGain`: the gain control block, scaling the interface percentage to at most `MAX_GAIN`. */
  function GainMsg(ifaceGain: real): (m: WebMessage)
    ensures m.SetControlBlock? && m.index == DEFAULT_GAIN_CONTROL_BLOCK && m.ctl.Gain?
    ensures 0.0 <= ifaceGain <= 100.0 ==> 0.0 <= m.ctl.scale <= MAX_GAIN
    ensures m.ctl.scale * 100.0 == MAX_GAIN * ifaceGain
  {
    SetControlBlock(DEFAULT_GAIN_CONTROL_BLOCK, Gain(MAX_GAIN * ifaceGain / 100.0))
  }

  /**
   * `setHighpass`: a three-tap lowpass block `y[k] = α y[k-1] + α x[k] - α x[k-1]`
   * with `α` the interface percentage over 100. The input weights cancel, so
   * a constant input is removed.
   */
  function HighpassMsg(ifaceHighpass: real): (m: WebMessage)
    ensures m.SetControlBlock? && m.index == DEFAULT_LOW_PASS_CONTROL_BLOCK && m.ctl.Low? && |m.ctl.taps| == 3
    ensures m.ctl.taps[0] == Tap(Rec, 1, ifaceHighpass / 100.0)
    ensures m.ctl.taps[1].tp == Input && m.ctl.taps[1].pos == 0 && m.ctl.taps[2].tp == Input && m.ctl.taps[2].pos == 1
    ensures m.ctl.taps[1].weight == ifaceHighpass / 100.0 && m.ctl.taps[2].weight == -(ifaceHighpass / 100.0)
    ensures m.ctl.taps[1].weight + m.ctl.taps[2].weight == 0.0
  {
    var alpha := ifaceHighpass / 100.0;
    SetControlBlock(DEFAULT_LOW_PASS_CONTROL_BLOCK, Low([Tap(Rec, 1, alpha), Tap(Input, 0, alpha), Tap(Input, 1, -alpha)]))
  }

  /**
   * The highpass block removes a constant input: with `α != 1`, the only
   * output the recurrence can hold steady on a constant input `c` is 0.
   */
  lemma HighpassBlocksConstant(ifaceHighpass: real, c: real, y: real)
    requires ifaceHighpass != 100.0
    ensures var t := HighpassMsg(ifaceHighpass).ctl.taps;
      y == t[0].weight * y + t[1].weight * c + t[2].weight * c <==> y == 0.0
  {
    var t := HighpassMsg(ifaceHighpass).ctl.taps;
    var alpha := ifaceHighpass / 100.0;
    assert alpha != 1.0 by {
      if alpha == 1.0 {
        assert ifaceHighpass == alpha * 100.0;
      }
    }
    assert t[0].weight == alpha && t[1].weight * c + t[2].weight * c == 0.0;
    assert t[0].weight * y + t[1].weight * c + t[2].weight * c == alpha * y;
    if y != 0.0 {
      var d := 1.0 - alpha;
      assert d != 0.0;
      assert d * y != 0.0;
      assert y - alpha * y == d * y;
    }
  }

  /** `allpassMsg`: the allpass block at slot 3, with the gain percentage as a fraction. */
  function AllpassMsg(a: AllpassState): (m: WebMessage)
    ensures m.SetControlBlock? && m.index == DEFAULT_ALLPASS_CONTROL_BLOCK && m.ctl.All?
    ensures m.ctl.gain * 100.0 == a.ifaceAllpassGain && m.ctl.delay == a.ifaceAllpassDelay && m.ctl.naive == a.ifaceAllpassNaive
  {
    SetControlBlock(DEFAULT_ALLPASS_CONTROL_BLOCK, All(a.ifaceAllpassGain / 100.0, a.ifaceAllpassDelay, a.ifaceAllpassNaive))
  }

  /** `setRoomSize` / `setWet`: the reverb block built from both current percentages. */
  function ReverbMsg(ifaceRoomsize: real, ifaceWet: real): (m: WebMessage)
    ensures m.SetControlBlock? && m.index == DEFAULT_REVERB_CONTROL_BLOCK && m.ctl.Reverb?
    ensures m.ctl.roomSize * 100.0 == ifaceRoomsize && m.ctl.wet * 100.0 == ifaceWet
  {
    SetControlBlock(DEFAULT_REVERB_CONTROL_BLOCK, Reverb(ifaceRoomsize / 100.0, ifaceWet / 100.0))
  }

  /** Sum of a sequence of numbers, added left to right. */
  function Sum(ws: seq<real>): real
  {
    if ws == [] then 0.0 else Sum(ws[..|ws| - 1]) + ws[|ws| - 1]
  }

  function Weights(taps: seq<Tap>): (ws: seq<real>)
    ensures |ws| == |taps| && forall i :: 0 <= i < |taps| ==> ws[i] == taps[i].weight
  {
    seq(|taps|, i requires 0 <= i < |taps| => taps[i].weight)
  }

  /** The user's taps as feedback (`Rec`) taps, weights converted from percent. */
  function RecTaps(lowpassState: seq<InterfaceTap>): (taps: seq<Tap>)
    ensures |taps| == |lowpassState|
    ensures forall i :: 0 <= i < |taps| ==> taps[i] == Tap(Rec, lowpassState[i].pos, lowpassState[i].weight / 100.0)
  {
    seq(|lowpassState|, i requires 0 <= i < |lowpassState| => Tap(Rec, lowpassState[i].pos, lowpassState[i].weight / 100.0))
  }

  /** The same taps with every weight multiplied by `s`. */
  function ScaledTaps(taps: seq<Tap>, s: real): (r: seq<Tap>)
    ensures |r| == |taps| && forall i :: 0 <= i < |taps| ==> r[i] == taps[i].(weight := taps[i].weight * s)
  {
    seq(|taps|, i requires 0 <= i < |taps| => taps[i].(weight := taps[i].weight * s))
  }

  /** Every number multiplied by `s`. */
  function ScaleAll(ws: seq<real>, s: real): (r: seq<real>)
    ensures |r| == |ws| && forall i :: 0 <= i < |ws| ==> r[i] == ws[i] * s
  {
    seq(|ws|, i requires 0 <= i < |ws| => ws[i] * s)
  }

  /** Scaling every number scales the sum. */
  lemma {:induction false} SumScaleAll(ws: seq<real>, s: real)
    ensures Sum(ScaleAll(ws, s)) == Sum(ws) * s
  {
    if ws != [] {
      var n := |ws|;
      var pre, last, sc := ws[..n - 1], ws[n - 1], ScaleAll(ws, s);
      SumScaleAll(pre, s);
      assert sc[..n - 1] == ScaleAll(pre, s) by {
        forall i | 0 <= i < n - 1
          ensures sc[i] == ScaleAll(pre, s)[i]
        {
          assert pre[i] == ws[i];
        }
      }
      assert Sum(sc) == Sum(ScaleAll(pre, s)) + last * s;
      assert Sum(ws) == Sum(pre) + last;
      assert (Sum(pre) + last) * s == Sum(pre) * s + last * s;
    }
  }

  /** Scaling every tap weight scales the sum of the weights. */
  lemma SumScaled(taps: seq<Tap>, s: real)
    ensures Sum(Weights(ScaledTaps(taps, s))) == Sum(Weights(taps)) * s
  {
    assert Weights(ScaledTaps(taps, s)) == ScaleAll(Weights(taps), s) by {
      forall i | 0 <= i < |taps|
        ensures Weights(ScaledTaps(taps, s))[i] == ScaleAll(Weights(taps), s)[i]
      {
        assert ScaledTaps(taps, s)[i].weight == taps[i].weight * s;
      }
    }
    SumScaleAll(Weights(taps), s);
  }

  /** The sum of a sequence with one more element at the end. */
  lemma SumSnoc(ws: seq<real>, w: real)
    ensures Sum(ws + [w]) == Sum(ws) + w
  {
    assert (ws + [w])[..|ws|] == ws;
  }

  /**
   * `setLowpassState`: the user's taps as feedback taps, scaled down when
   * their weights add up to more than `MAX_SUM`, followed by the current
   * input with the remaining weight. Fails on an empty tap list, where the
   * weight sum throws.
   */
  function LowpassTaps(lowpassState: seq<InterfaceTap>): (r: Result<seq<Tap>>)
    ensures r.Err? <==> lowpassState == []
    ensures r.Ok? ==> |r.value| == |lowpassState| + 1 && r.value[|lowpassState|].tp == Input && r.value[|lowpassState|].pos == 0
    ensures r.Ok? ==> forall i :: 0 <= i < |lowpassState| ==> r.value[i].tp == Rec && r.value[i].pos == lowpassState[i].pos
  {
    if lowpassState == [] then Err(TYPE_ERROR)
    else
      var taps := RecTaps(lowpassState);
      var sum := Sum(Weights(taps));
      if sum > MAX_SUM then
        var s := MAX_SUM / sum;
        Ok(ScaledTaps(taps, s) + [Tap(Input, 0, 1.0 - sum * s)])
      else
        Ok(taps + [Tap(Input, 0, 1.0 - sum)])
  }

  /**
   * The normalisation works: all the weights sent add up to exactly 1, the
   * input keeps at least `MIN_SELF_WEIGHT`, and the user's weights are sent
   * unscaled whenever they leave that much room.
   */
  lemma LowpassWeightsSumToOne(lowpassState: seq<InterfaceTap>)
    requires lowpassState != []
    ensures Sum(Weights(LowpassTaps(lowpassState).value)) == 1.0
    ensures LowpassTaps(lowpassState).value[|lowpassState|].weight >= MIN_SELF_WEIGHT
    ensures Sum(Weights(RecTaps(lowpassState))) <= MAX_SUM ==> LowpassTaps(lowpassState).value[..|lowpassState|] == RecTaps(lowpassState)
  {
    var taps := RecTaps(lowpassState);
    var sum := Sum(Weights(taps));
    var r := LowpassTaps(lowpassState).value;
    var n := |lowpassState|;
    if sum > MAX_SUM {
      var s := MAX_SUM / sum;
      SumScaled(taps, s);
      assert sum * s == MAX_SUM;
      assert Weights(r) == Weights(ScaledTaps(taps, s)) + [1.0 - sum * s];
      SumSnoc(Weights(ScaledTaps(taps, s)), 1.0 - sum * s);
    } else {
      assert Weights(r) == Weights(taps) + [1.0 - sum];
      SumSnoc(Weights(taps), 1.0 - sum);
      assert r[..n] == taps;
    }
  }

  /** The lowpass control block message, or the failure of an empty tap list. */
  function LowpassMsg(lowpassState: seq<InterfaceTap>): (r: Result<WebMessage>)
    ensures r.Err? <==> lowpassState == []
    ensures r.Ok? ==> r.value == SetControlBlock(DEFAULT_LOW_PASS_CONTROL_BLOCK, Low(LowpassTaps(lowpassState).value))
  {
    match LowpassTaps(lowpassState)
    case Err(e) => Err(e)
    case Ok(taps) => Ok(SetControlBlock(DEFAULT_LOW_PASS_CONTROL_BLOCK, Low(taps)))
  }

  /** `drum_adsr`: the drum envelope for a duration scale; sustain is fixed, the three durations scale with it. */
  function DrumAdsr(durScale: real): (a: Envelope.Adsr)
    ensures a.sustain == 0.2
    ensures a == Envelope.Adsr(0.01 * durScale, 0.05 * durScale, 0.2, 0.2 * durScale)
  {
    Envelope.Adsr(0.01 * durScale, 0.05 * durScale, 0.2, 0.2 * durScale)
  }

  /** Scaling the duration scale by `k` scales attack, decay and release by `k`. */
  lemma DrumAdsrScales(d: real, k: real)
    ensures DrumAdsr(k * d).attackS == k * DrumAdsr(d).attackS
    ensures DrumAdsr(k * d).decayS == k * DrumAdsr(d).decayS
    ensures DrumAdsr(k * d).releaseS == k * DrumAdsr(d).releaseS
  {
  }

  /** The state of the first GUI. */
  datatype AppState = AppState(
    table: seq<seq<bool>>,
    connected: bool,
    ifaceGain: real,
    ifaceHighpass: real,
    ifaceRoomsize: real,
    ifaceWet: real,
    allpass: AllpassState,
    outbox: seq<WebMessage>,
    meterData: MeterData,
    lowpassState: seq<InterfaceTap>,
    text: string)

  /** The actions of the first GUI. */
  datatype AppAction =
    | SetSequencer(inst: nat, pat: nat, on: bool)
    | SetConnected(connected: bool)
    | SetGain(ifaceGain: real)
    | SetHighpass(ifaceHighpass: real)
    | SetAllpassDelay(ifaceAllpassDelay: real)
    | SetAllpassGain(ifaceAllpassGain: real)
    | SetAllpassNaive(ifaceAllpassNaive: bool)
    | SetMeterValues(msg: MeterData)
    | SetLowpassState(lowpassState: seq<InterfaceTap>)
    | SetText(text: string)
    | SetRoomSize(ifaceRoomsize: real)
    | SetWet(ifaceWet: real)

  /** `mkState` of gui/app.tsx: a 16-step, 2-instrument grid all off, nothing to send, default settings. */
  function MkAppState(): (s: AppState)
    ensures |s.table| == 16 && forall p :: 0 <= p < 16 ==> s.table[p] == [false, false]
    ensures s.outbox == [] && s.connected && s.text == ""
    ensures s.ifaceGain == 10.0 && s.ifaceHighpass == 50.0 && s.ifaceRoomsize == 50.0 && s.ifaceWet == 50.0
    ensures s.meterData == MeterData(0.0, 0.0)
    ensures s.allpass == AllpassState(50.0, 50.0, true)
    ensures s.lowpassState == [InterfaceTap(1, 90.0), InterfaceTap(2620, 10.0)]
  {
    AppState(seq(16, _ => [false, false]), true, 10.0, 50.0, 50.0, 50.0, AllpassState(50.0, 50.0, true),
             [], MeterData(0.0, 0.0), [InterfaceTap(1, 90.0), InterfaceTap(2620, 10.0)], "")
  }

  /** `reduce_inner` of gui/app.tsx: the new state, with the messages this action sends appended to the outbox. */
  function AppReduceInner(s: AppState, a: AppAction): Result<AppState>
  {
    match a
    case SetSequencer(inst, pat, on) =>
      (match SetCell(s.table, pat, inst, on)
       case Err(e) => Err(e)
       case Ok(t) => Ok(s.(table := t, outbox := s.outbox + [WebMessage.SetSequencer(inst, pat, on)])))
    case SetConnected(c) => Ok(s.(connected := c))
    case SetGain(g) => Ok(s.(ifaceGain := g, outbox := s.outbox + [GainMsg(g)]))
    case SetHighpass(h) => Ok(s.(ifaceHighpass := h, outbox := s.outbox + [HighpassMsg(h)]))
    case SetAllpassDelay(d) =>
      var allpass := s.allpass.(ifaceAllpassDelay := d);
      Ok(s.(allpass := allpass, outbox := s.outbox + [AllpassMsg(allpass)]))
    case SetAllpassGain(g) =>
      var allpass := s.allpass.(ifaceAllpassGain := g);
      Ok(s.(allpass := allpass, outbox := s.outbox + [AllpassMsg(allpass)]))
    case SetAllpassNaive(n) =>
      var allpass := s.allpass.(ifaceAllpassNaive := n);
      Ok(s.(allpass := allpass, outbox := s.outbox + [AllpassMsg(allpass)]))
    case SetMeterValues(m) => Ok(s.(meterData := m))
    case SetLowpassState(ls) =>
      (match LowpassMsg(ls)
       case Err(e) => Err(e)
       case Ok(msg) => Ok(s.(lowpassState := ls, outbox := s.outbox + [msg])))
    case SetText(t) => Ok(s.(text := t))
    case SetRoomSize(r) =>
      var s' := s.(ifaceRoomsize := r);
      Ok(s'.(outbox := s'.outbox + [ReverbMsg(s'.ifaceRoomsize, s'.ifaceWet)]))
    case SetWet(w) =>
      var s' := s.(ifaceWet := w);
      Ok(s'.(outbox := s'.outbox + [ReverbMsg(s'.ifaceRoomsize, s'.ifaceWet)]))
  }

  /** The effects that send the messages of an outbox, in order. */
  function SendAll(outbox: seq<WebMessage>): (es: seq<Effect>)
    ensures |es| == |outbox| && forall i :: 0 <= i < |outbox| ==> es[i] == Send(outbox[i])
  {
    seq(|outbox|, i requires 0 <= i < |outbox| => Send(outbox[i]))
  }

  /**
   * `reduce` of gui/app.tsx: runs the inner reducer, turns every outbox
   * message into a send effect, in order, and empties the outbox.
   */
  function AppReduce(s: AppState, a: AppAction): (r: Result<(AppState, seq<Effect>)>)
    ensures r.Err? <==> AppReduceInner(s, a).Err?
    ensures r.Ok? ==> r.value.0.outbox == [] && r.value.0 == AppReduceInner(s, a).value.(outbox := [])
    ensures r.Ok? ==> r.value.1 == SendAll(AppReduceInner(s, a).value.outbox)
  {
    match AppReduceInner(s, a)
    case Err(e) => Err(e)
    case Ok(s') => Ok((s'.(outbox := []), SendAll(s'.outbox)))
  }

  /**
   * From a drained state, each action sends what it should: `setText`,
   * `setConnected` and `setMeterValues` send nothing and change only their
   * own field; every other action that succeeds sends exactly one message.
   */
  lemma AppActionEffects(s: AppState, a: AppAction)
    requires s.outbox == []
    ensures a.SetText? ==> AppReduce(s, a) == Ok((s.(text := a.text), []))
    ensures a.SetConnected? ==> AppReduce(s, a) == Ok((s.(connected := a.connected), []))
    ensures a.SetMeterValues? ==> AppReduce(s, a) == Ok((s.(meterData := a.msg), []))
    ensures !(a.SetText? || a.SetConnected? || a.SetMeterValues?) && AppReduce(s, a).Ok? ==> |AppReduce(s, a).value.1| == 1
  {
  }
}
