/**
 * The older sine voice of src/reasonable_synth.rs: an envelope with only a
 * release deadline, a phase in `[0, 1]` and one interpolated table read per
 * sample.
 */
module ReasonableSynth {
  import opened Wrappers
  import opened Consts
  import opened Oscillator

  /** The envelope this voice uses: on since `tS` with onset amplitude `amp`, or released `tS` seconds ago from `amp`. */
  datatype LegacyEnv = On(amp: real, tS: real, vel: real) | Release(tS: real, amp: real)

  /**
   * `advance_envelope`: moves time forward by `tickS` in either state; the
   * answer is true ("terminate") only for a released envelope past `releaseS`.
   */
  function AdvanceEnvelope(env: LegacyEnv, tickS: real, releaseS: real): (r: (LegacyEnv, bool))
    ensures r.0 == env.(tS := env.tS + tickS)
    ensures r.1 <==> env.Release? && r.0.tS > releaseS
  {
    match env
    case On(amp, t, vel) => (On(amp, t + tickS, vel), false)
    case Release(t, amp) => (Release(t + tickS, amp), t + tickS > releaseS)
  }

  /** `ReasonableSynthState`: a voice at frequency `freqHz`. */
  class ReasonableSynthState {
    const freqHz: real
    var phase: real
    var envState: LegacyEnv

    /** A new voice: phase 0, envelope on at time 0 from silence towards `vel`. */
    constructor (freqHz: real, vel: real)
      ensures this.freqHz == freqHz && phase == 0.0 && envState == On(0.0, 0.0, vel)
    {
      this.phase := 0.0;
      this.freqHz := freqHz;
      this.envState := On(0.0, 0.0, vel);
    }

    /**
     * `exec`: the interpolated table value at the current phase, times the
     * envelope amplitude `scale`. Every phase in `[0, 1)` reads in bounds.
     */
    function Exec(wavetable: seq<real>, scale: real): (r: Result<real>)
      reads this
      ensures |wavetable| >= 2 && 0.0 <= phase < 1.0 ==> r.Ok?
      ensures r.Err? <==> Interpolate(wavetable, phase).Err?
      ensures r.Ok? ==> r.value == scale * Interpolate(wavetable, phase).value
    {
      match Interpolate(wavetable, phase)
      case Err(e) => Err(e)
      case Ok(tableVal) => Ok(scale * tableVal)
    }

    /**
     * `advance`: steps the envelope; when it says terminate, the voice stops
     * (false) with its phase untouched, otherwise the phase moves on by
     * `freqHz / SAMPLE_RATE_HZ` and wraps once past 1.
     */
    method Advance(tickS: real, releaseS: real) returns (keep: bool)
      modifies this`phase, this`envState
      ensures envState == old(envState).(tS := old(envState).tS + tickS)
      ensures !keep <==> old(envState).Release? && envState.tS > releaseS
      ensures !keep ==> phase == old(phase)
      ensures keep ==> phase == NextPhase(old(phase), freqHz / SAMPLE_RATE_HZ)
      ensures keep && 0.0 <= old(phase) <= 1.0 && 0.0 <= freqHz / SAMPLE_RATE_HZ <= 1.0 ==> 0.0 <= phase <= 1.0
    {
      var terminate;
      envState, terminate := AdvanceEnvelope(envState, tickS, releaseS).0, AdvanceEnvelope(envState, tickS, releaseS).1;
      if terminate {
        return false;
      }
      phase := phase + freqHz / SAMPLE_RATE_HZ;
      if phase > 1.0 {
        phase := phase - 1.0;
      }
      return true;
    }
  }
}
