/**
 * The ADSR envelope of src/envelope.rs: a two-state machine (On / Release)
 * with an in-place `advance` step and a piecewise-linear amplitude.
 */
module Envelope {

  /** Attack, decay and release in seconds; sustain is a dimensionless level. */
  datatype Adsr = Adsr(attackS: real, decayS: real, sustain: real, releaseS: real)

  /**
   * Where a note is in its envelope. In `On`, `amp` is the amplitude the note
   * had at onset, `vel` the peak reached at the end of the attack, and `hold`
   * keeps the note from auto-releasing. In `Release`, `amp` is the amplitude
   * captured at release time.
   */
  datatype EnvPos =
    | On(tS: real, amp: real, vel: real, hold: bool)
    | Release(tS: real, amp: real)

  /** The position `advance` moves to and its keep-alive answer, as a value. */
  function Advanced(adsr: Adsr, pos: EnvPos, tickS: real): (EnvPos, bool)
  {
    match pos
    case On(t, amp, vel, hold) =>
      if !hold && t + tickS > adsr.attackS + adsr.decayS then
        (Release(0.0, adsr.sustain), adsr.releaseS > 0.0)
      else
        (On(t + tickS, amp, vel, hold), true)
    case Release(t, amp) =>
      (Release(t + tickS, amp), t + tickS <= adsr.releaseS)
  }

  /** The position after `n` calls of `advance`, ignoring the keep-alive answers. */
  function AdvancedTimes(adsr: Adsr, pos: EnvPos, tickS: real, n: nat): EnvPos
  {
    if n == 0 then pos else Advanced(adsr, AdvancedTimes(adsr, pos, tickS, n - 1), tickS).0
  }

  /** The amplitude divides by the segment length only in the segment it is in. */
  predicate AmpDefined(adsr: Adsr, pos: EnvPos)
  {
    && (pos.On? && pos.tS < adsr.attackS ==> adsr.attackS != 0.0)
    && (pos.Release? ==> adsr.releaseS != 0.0)
  }

  /** Linear ramp of the attack segment, from `amp` at time 0 to `vel` at `attackS`. */
  function AttackRamp(adsr: Adsr, t: real, amp: real, vel: real): real
    requires adsr.attackS != 0.0
  {
    var a := t / adsr.attackS;
    amp * (1.0 - a) + vel * a
  }

  /** Linear ramp of the decay segment, from `vel` at `attackS` to `sustain * vel` at `attackS + decayS`. */
  function DecayRamp(adsr: Adsr, t: real, vel: real): real
    requires adsr.decayS != 0.0
  {
    var a := (t - adsr.attackS) / adsr.decayS;
    vel * (1.0 - a) + vel * adsr.sustain * a
  }

  /** `EnvState::amp`: the current amplitude. */
  function AmpAt(adsr: Adsr, pos: EnvPos): real
    requires AmpDefined(adsr, pos)
  {
    match pos
    case On(t, amp, vel, _) =>
      if t < adsr.attackS then AttackRamp(adsr, t, amp, vel)
      else if t < adsr.attackS + adsr.decayS then DecayRamp(adsr, t, vel)
      else adsr.sustain * vel
    case Release(t, amp) => amp * (1.0 - t / adsr.releaseS)
  }

  /** An envelope: fixed ADSR parameters and a position that `Advance` updates in place. */
  class EnvState {
    var adsr: Adsr
    var pos: EnvPos

    constructor (adsr: Adsr, pos: EnvPos)
      ensures this.adsr == adsr && this.pos == pos
    {
      this.adsr := adsr;
      this.pos := pos;
    }

    /** Moves time forward by one tick; `keep` is false when the voice should be freed. */
    method Advance(tickS: real) returns (keep: bool)
      modifies this`pos
      ensures (pos, keep) == Advanced(adsr, old(pos), tickS)
      // a held note stays On, only its time moves
      ensures old(pos).On? && old(pos).hold ==> pos == old(pos).(tS := old(pos).tS + tickS) && keep
      // an unheld note auto-releases once attack and decay are over
      ensures old(pos).On? && !old(pos).hold ==>
        if old(pos).tS + tickS > adsr.attackS + adsr.decayS
        then pos == Release(0.0, adsr.sustain) && keep == (adsr.releaseS > 0.0)
        else pos == old(pos).(tS := old(pos).tS + tickS) && keep
      // a released note lives while its release time is not exceeded
      ensures old(pos).Release? ==>
        pos == old(pos).(tS := old(pos).tS + tickS) && keep == (pos.tS <= adsr.releaseS)
    {
      match pos {
        case On(t, amp, vel, hold) =>
          pos := On(t + tickS, amp, vel, hold);
          if !hold && t + tickS > adsr.attackS + adsr.decayS {
            pos := Release(0.0, adsr.sustain);
            return adsr.releaseS > 0.0;
          }
          keep := true;
        case Release(t, amp) =>
          pos := Release(t + tickS, amp);
          keep := t + tickS <= adsr.releaseS;
      }
    }

    /** `EnvState::amp` on the current position. */
    function Amp(): (r: real)
      reads this
      requires AmpDefined(adsr, pos)
      ensures pos.On? && pos.tS >= adsr.attackS && pos.tS >= adsr.attackS + adsr.decayS ==> r == adsr.sustain * pos.vel
      ensures pos.Release? && pos.tS == 0.0 ==> r == pos.amp
    {
      AmpAt(adsr, pos)
    }
  }

  /** The attack starts from the pre-existing amplitude. */
  lemma AttackStartsAtOnsetAmp(adsr: Adsr, amp: real, vel: real, hold: bool)
    requires adsr.attackS > 0.0
    ensures AmpAt(adsr, On(0.0, amp, vel, hold)) == amp
  {
  }

  /** The attack ramp ends at `vel`, which is where the decay segment starts: no jump at `attackS`. */
  lemma AttackMeetsDecay(adsr: Adsr, amp: real, vel: real, hold: bool)
    requires adsr.attackS > 0.0 && adsr.decayS > 0.0
    ensures AttackRamp(adsr, adsr.attackS, amp, vel) == vel
    ensures AmpAt(adsr, On(adsr.attackS, amp, vel, hold)) == vel
  {
  }

  /** The decay ramp ends at `sustain * vel`, the flat sustain level: no jump at `attackS + decayS`. */
  lemma DecayMeetsSustain(adsr: Adsr, amp: real, vel: real, hold: bool)
    requires adsr.attackS >= 0.0 && adsr.decayS > 0.0
    ensures DecayRamp(adsr, adsr.attackS + adsr.decayS, vel) == adsr.sustain * vel
    ensures AmpAt(adsr, On(adsr.attackS + adsr.decayS, amp, vel, hold)) == adsr.sustain * vel
  {
  }

  /** The release ramp goes from the captured amplitude down to 0 at `releaseS`. */
  lemma ReleaseRampEnds(adsr: Adsr, amp: real)
    requires adsr.releaseS != 0.0
    ensures AmpAt(adsr, Release(0.0, amp)) == amp
    ensures AmpAt(adsr, Release(adsr.releaseS, amp)) == 0.0
  {
  }

  /**
   * The automatic release stores `sustain`, not the sounding `sustain * vel`:
   * the amplitude jumps by `sustain * (1 - vel)`, so the auto-release is
   * continuous exactly when `vel == 1` or `sustain == 0`.
   */
  lemma AutoReleaseJump(adsr: Adsr, t: real, amp: real, vel: real, tickS: real)
    requires adsr.attackS >= 0.0 && adsr.decayS >= 0.0 && adsr.releaseS != 0.0
    requires adsr.attackS + adsr.decayS <= t && tickS > 0.0
    ensures Advanced(adsr, On(t, amp, vel, false), tickS).0 == Release(0.0, adsr.sustain)
    ensures AmpAt(adsr, Advanced(adsr, On(t, amp, vel, false), tickS).0)
            - AmpAt(adsr, On(t, amp, vel, false)) == adsr.sustain * (1.0 - vel)
    ensures AmpAt(adsr, Advanced(adsr, On(t, amp, vel, false), tickS).0) == AmpAt(adsr, On(t, amp, vel, false))
            <==> vel == 1.0 || adsr.sustain == 0.0
  {
    var d := adsr.sustain * (1.0 - vel);
    assert d == 0.0 <==> vel == 1.0 || adsr.sustain == 0.0 by {
      if d == 0.0 && adsr.sustain != 0.0 {
        assert 1.0 - vel == d / adsr.sustain;
      }
    }
  }

  /** A held note never auto-releases: after `n` ticks it is On with time advanced by `n` ticks. */
  lemma {:induction false} HeldStaysOn(adsr: Adsr, t0: real, amp: real, vel: real, tickS: real, n: nat)
    ensures AdvancedTimes(adsr, On(t0, amp, vel, true), tickS, n) == On(t0 + (n as real) * tickS, amp, vel, true)
    ensures Advanced(adsr, AdvancedTimes(adsr, On(t0, amp, vel, true), tickS, n), tickS).1
  {
    if n > 0 {
      HeldStaysOn(adsr, t0, amp, vel, tickS, n - 1);
      assert t0 + ((n - 1) as real) * tickS + tickS == t0 + (n as real) * tickS;
    }
  }

  /**
   * End to end: a held note started at time 0 sits at `sustain * vel` once
   * `attackS + decayS` seconds of ticks have gone by.
   */
  lemma HeldReachesSustain(adsr: Adsr, amp: real, vel: real, tickS: real, n: nat)
    requires (n as real) * tickS >= adsr.attackS + adsr.decayS
    requires adsr.attackS >= 0.0 && adsr.decayS >= 0.0
    ensures AmpDefined(adsr, AdvancedTimes(adsr, On(0.0, amp, vel, true), tickS, n))
    ensures AmpAt(adsr, AdvancedTimes(adsr, On(0.0, amp, vel, true), tickS, n)) == adsr.sustain * vel
  {
    HeldStaysOn(adsr, 0.0, amp, vel, tickS, n);
  }
}
