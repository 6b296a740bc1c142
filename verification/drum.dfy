/**
 * The drum voice of src/drum.rs: a wavetable oscillator whose frequency
 * sweeps during the attack, shaped by an ADSR envelope and mixed into its bus.
 */
module Drum {
  import opened Wrappers
  import opened Consts
  import opened ControlBlock
  import opened Envelope
  import opened Oscillator
  import Buses

  /** The drum's fixed envelope. */
  const DRUM_ADSR: Adsr := Adsr(0.025, 0.05, 0.1, 0.25)

  /** The oscillator's phase increment for one sample: the swept frequency over table size and sample rate. */
  function PhaseIncrement(freqHz: real, freq2Hz: real, pos: EnvPos): real
  {
    var a := pos.tS / DRUM_ADSR.attackS;
    var effFreqHz := a * freq2Hz + (1.0 - a) * freqHz;
    effFreqHz / (TABLE_SIZE as real) / SAMPLE_RATE_HZ
  }

  /** A sample with the drum's contribution added: `0.15 * table value * amplitude * vol`. */
  function Mixed(x: real, tableVal: real, amp: real, vol: real): real
  {
    x + 0.15 * tableVal * amp * vol
  }

  /** How a block ends: still sounding, stopped by the envelope, or panicked. */
  datatype Status = Going | Stopped | OutOfBounds

  /** The oscillator part of a drum: its phase and its envelope position. */
  datatype Osc = Osc(phase: real, pos: EnvPos)

  /** The drum's state after processing a prefix of its bus, the prefix's new samples, and how it ended. */
  datatype Rendering = Rendering(osc: Osc, outs: seq<real>, status: Status)

  /**
   * One sample of `ctl_run` on input `x` from oscillator `o`: the table read
   * (which may fail), the output sample, the swept phase step and the
   * envelope step, whose keep-alive answer decides whether rendering goes on.
   */
  function Step(table: seq<real>, o: Osc, x: real, freqHz: real, freq2Hz: real, vol: real, tickS: real): (r: (Status, Osc, real))
    ensures Interpolate(table, o.phase).Err? <==> r.0 == OutOfBounds
    ensures r.0 == OutOfBounds ==> r.1 == o && r.2 == x
    ensures r.0 != OutOfBounds ==> r.1.pos == Advanced(DRUM_ADSR, o.pos, tickS).0 && (r.0 == Going <==> Advanced(DRUM_ADSR, o.pos, tickS).1)
  {
    match Interpolate(table, o.phase)
    case Err(_) => (OutOfBounds, o, x)
    case Ok(tableVal) =>
      var out := Mixed(x, tableVal, AmpAt(DRUM_ADSR, o.pos), vol);
      var phase := NextPhase(o.phase, PhaseIncrement(freqHz, freq2Hz, o.pos));
      var (pos, keep) := Advanced(DRUM_ADSR, o.pos, tickS);
      (if keep then Going else Stopped, Osc(phase, pos), out)
  }

  /**
   * The effect of `ctl_run` on the samples `row` of its bus: while going,
   * each sample is rendered by `Step`; samples after a stop or a failed
   * read are left as they are.
   */
  ghost function Rendered(table: seq<real>, o0: Osc, row: seq<real>, freqHz: real, freq2Hz: real, vol: real, tickS: real): (r: Rendering)
    ensures |r.outs| == |row|
    decreases |row|
  {
    if row == [] then Rendering(o0, [], Going)
    else
      var p := Rendered(table, o0, row[..|row| - 1], freqHz, freq2Hz, vol, tickS);
      var x := row[|row| - 1];
      if !p.status.Going? then p.(outs := p.outs + [x])
      else
        var (status, o, out) := Step(table, p.osc, x, freqHz, freq2Hz, vol, tickS);
        Rendering(o, p.outs + [out], status)
  }

  /**
   * A drum at phase `p` in `[0, 1)` whose next increment is exactly `1 - p`
   * renders its first sample and panics on the second, as long as its
   * envelope keeps it going after the first.
   */
  lemma RenderPanicsAtPhaseOne(table: seq<real>, p: real, pos: EnvPos, x0: real, x1: real, freqHz: real, freq2Hz: real, vol: real, tickS: real)
    requires |table| >= 2 && 0.0 <= p < 1.0
    requires p + PhaseIncrement(freqHz, freq2Hz, pos) == 1.0
    requires Advanced(DRUM_ADSR, pos, tickS).1
    ensures Rendered(table, Osc(p, pos), [x0], freqHz, freq2Hz, vol, tickS).status == Going
    ensures Rendered(table, Osc(p, pos), [x0, x1], freqHz, freq2Hz, vol, tickS).status == OutOfBounds
  {
    assert [x0, x1][..1] == [x0];
    assert [x0][..0] == [];
  }

  /** `DrumSynthState`: a drum voice writing into the dry bus. */
  class DrumSynthState {
    const dst: nat
    const tS: real
    const freqHz: real
    const freq2Hz: real
    var phase: real
    const vol: real
    const envState: EnvState
    const wavetable: seq<real>
    const ci: nat

    ghost predicate Valid()
      reads this, envState
    {
      envState.adsr == DRUM_ADSR
    }

    /** A new drum: dry bus, phase 0, control slot 0, envelope at onset with full velocity and no hold. */
    constructor (freqHz: real, freq2Hz: real, vol: real, wavetable: seq<real>)
      ensures Valid() && fresh(envState)
      ensures dst == BUS_DRY && tS == 0.0 && phase == 0.0 && ci == 0
      ensures this.freqHz == freqHz && this.freq2Hz == freq2Hz && this.vol == vol && this.wavetable == wavetable
      ensures envState.pos == On(0.0, 0.0, 1.0, false)
    {
      dst := BUS_DRY;
      tS := 0.0;
      phase := 0.0;
      this.vol := vol;
      this.freqHz := freqHz;
      this.freq2Hz := freq2Hz;
      envState := new EnvState(DRUM_ADSR, On(0.0, 0.0, 1.0, false));
      this.wavetable := wavetable;
      ci := 0;
    }

    /**
     * `ctl_run`: renders into bus `dst` until the block ends, the envelope
     * stops the voice (the result is then false), or a table read is out of
     * bounds (`Err`). No other bus changes.
     */
    method CtlRun(bus: array2<real>, tickS: real) returns (r: Result<bool>)
      requires Valid() && dst < bus.Length0
      modifies this`phase, envState`pos, bus
      ensures Valid()
      ensures var rd := Rendered(wavetable, Osc(old(phase), old(envState.pos)), old(Buses.Row(bus, dst)), freqHz, freq2Hz, vol, tickS);
        && (r.Err? <==> rd.status == OutOfBounds)
        && (r.Ok? ==>
              && r.value == (rd.status == Going) && phase == rd.osc.phase && envState.pos == rd.osc.pos
              && forall j :: 0 <= j < bus.Length1 ==> bus[dst, j] == rd.outs[j])
      ensures forall b, j :: 0 <= b < bus.Length0 && b != dst && 0 <= j < bus.Length1 ==> bus[b, j] == old(bus[b, j])
    {
      ghost var row := Buses.Row(bus, dst);
      ghost var o0 := Osc(phase, envState.pos);
      ghost var rd := Rendered(wavetable, o0, row[..0], freqHz, freq2Hz, vol, tickS);
      var i := 0;
      var status := Going;
      while i < bus.Length1 && status == Going
        invariant i <= bus.Length1 && Valid()
        invariant rd == Rendered(wavetable, o0, row[..i], freqHz, freq2Hz, vol, tickS)
        invariant rd.status == status && Osc(phase, envState.pos) == rd.osc && |rd.outs| == i
        invariant forall j :: 0 <= j < i ==> bus[dst, j] == rd.outs[j]
        invariant forall b, j :: 0 <= b < bus.Length0 && 0 <= j < bus.Length1 && (b != dst || i <= j) ==> bus[b, j] == old(bus[b, j])
      {
        RenderedNext(wavetable, o0, row, i, freqHz, freq2Hz, vol, tickS);
        ghost var st := Step(wavetable, rd.osc, row[i], freqHz, freq2Hz, vol, tickS);
        ghost var outs := rd.outs;
        status := Sample(bus, i, tickS, rd.osc, row[i]);
        rd := Rendering(st.1, outs + [st.2], st.0);
        i := i + 1;
      }
      if status != Going {
        StopFinishes(wavetable, o0, row, Buses.Row(bus, dst), i, freqHz, freq2Hz, vol, tickS);
        return if status == OutOfBounds then Err(INDEX_PANIC) else Ok(false);
      }
      assert row[..i] == row;
      return Ok(true);
    }

    /** The body of `ctl_run`'s loop on sample `i`: one `Step`, writing its output into the bus unless the read failed. */
    method Sample(bus: array2<real>, i: nat, tickS: real, ghost o: Osc, ghost x: real) returns (status: Status)
      requires Valid() && dst < bus.Length0 && i < bus.Length1
      requires o == Osc(phase, envState.pos) && x == bus[dst, i]
      modifies this`phase, envState`pos, bus
      ensures Valid()
      ensures var st := Step(wavetable, o, x, freqHz, freq2Hz, vol, tickS);
        && status == st.0
        && Osc(phase, envState.pos) == st.1 && bus[dst, i] == st.2
      ensures forall b, j :: 0 <= b < bus.Length0 && 0 <= j < bus.Length1 && (b != dst || j != i) ==> bus[b, j] == old(bus[b, j])
    {
      var tableVal := Interpolate(wavetable, phase);
      if tableVal.Err? {
        return OutOfBounds;
      }
      bus[dst, i] := Mixed(bus[dst, i], tableVal.value, envState.Amp(), vol);
      phase := NextPhase(phase, PhaseIncrement(freqHz, freq2Hz, envState.pos));
      var keep := envState.Advance(tickS);
      status := if keep then Going else Stopped;
    }

    /** `run`: renders only when slot `ci` holds a drum block; otherwise reports finished with nothing changed. */
    method Run(bus: array2<real>, tickS: real, ctls: seq<ControlBlock>) returns (r: Result<bool>)
      requires Valid() && dst < bus.Length0 && ci < |ctls|
      modifies this`phase, envState`pos, bus
      ensures Valid()
      ensures !ctls[ci].Drum? ==> r == Ok(false) && phase == old(phase) && envState.pos == old(envState.pos)
      ensures ctls[ci].Drum? ==>
        var rd := Rendered(wavetable, Osc(old(phase), old(envState.pos)), old(Buses.Row(bus, dst)), freqHz, freq2Hz, vol, tickS);
        && (r.Err? <==> rd.status == OutOfBounds)
        && (r.Ok? ==> r.value == (rd.status == Going) && forall j :: 0 <= j < bus.Length1 ==> bus[dst, j] == rd.outs[j])
      ensures forall b, j :: 0 <= b < bus.Length0 && 0 <= j < bus.Length1 && (b != dst || !ctls[ci].Drum?) ==> bus[b, j] == old(bus[b, j])
    {
      if ctls[ci].Drum? {
        r := CtlRun(bus, tickS);
      } else {
        r := Ok(false);
      }
    }
  }

  /** One more sample of a rendering that is still going: the step `ctl_run` takes on sample `i`. */
  lemma RenderedNext(table: seq<real>, o0: Osc, row: seq<real>, i: nat, freqHz: real, freq2Hz: real, vol: real, tickS: real)
    requires i < |row| && Rendered(table, o0, row[..i], freqHz, freq2Hz, vol, tickS).status.Going?
    ensures var p := Rendered(table, o0, row[..i], freqHz, freq2Hz, vol, tickS);
      var st := Step(table, p.osc, row[i], freqHz, freq2Hz, vol, tickS);
      Rendered(table, o0, row[..i + 1], freqHz, freq2Hz, vol, tickS) == Rendering(st.1, p.outs + [st.2], st.0)
  {
    assert row[..i + 1][..i] == row[..i];
  }

  /** Once a rendering has stopped or panicked after `m` samples, the remaining samples pass through unchanged. */
  lemma {:induction false} RestAfterStop(table: seq<real>, o0: Osc, row: seq<real>, freqHz: real, freq2Hz: real, vol: real, tickS: real, m: nat)
    requires m <= |row| && !Rendered(table, o0, row[..m], freqHz, freq2Hz, vol, tickS).status.Going?
    ensures var rd := Rendered(table, o0, row, freqHz, freq2Hz, vol, tickS);
      && rd.status == Rendered(table, o0, row[..m], freqHz, freq2Hz, vol, tickS).status
      && rd.osc == Rendered(table, o0, row[..m], freqHz, freq2Hz, vol, tickS).osc
      && rd.outs[..m] == Rendered(table, o0, row[..m], freqHz, freq2Hz, vol, tickS).outs
      && forall j :: m <= j < |row| ==> rd.outs[j] == row[j]
    decreases |row| - m
  {
    if m < |row| {
      assert row[..m + 1][..m] == row[..m];
      RestAfterStop(table, o0, row, freqHz, freq2Hz, vol, tickS, m + 1);
    } else {
      assert row[..m] == row;
    }
  }

  /**
   * A block whose rendering stopped after `m` samples: a bus row holding the
   * first `m` outputs followed by the untouched input is the whole rendering.
   */
  lemma StopFinishes(table: seq<real>, o0: Osc, row: seq<real>, cur: seq<real>, m: nat, freqHz: real, freq2Hz: real, vol: real, tickS: real)
    requires m <= |row| == |cur| && !Rendered(table, o0, row[..m], freqHz, freq2Hz, vol, tickS).status.Going?
    requires forall j :: 0 <= j < m ==> cur[j] == Rendered(table, o0, row[..m], freqHz, freq2Hz, vol, tickS).outs[j]
    requires forall j :: m <= j < |row| ==> cur[j] == row[j]
    ensures var rd := Rendered(table, o0, row, freqHz, freq2Hz, vol, tickS);
      && rd.status == Rendered(table, o0, row[..m], freqHz, freq2Hz, vol, tickS).status
      && rd.osc == Rendered(table, o0, row[..m], freqHz, freq2Hz, vol, tickS).osc
      && forall j :: 0 <= j < |row| ==> cur[j] == rd.outs[j]
  {
    RestAfterStop(table, o0, row, freqHz, freq2Hz, vol, tickS, m);
    var rd := Rendered(table, o0, row, freqHz, freq2Hz, vol, tickS);
    forall j | 0 <= j < m
      ensures cur[j] == rd.outs[j]
    {
      assert rd.outs[j] == rd.outs[..m][j];
    }
  }
}
