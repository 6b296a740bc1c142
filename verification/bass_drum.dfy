/**
 * The older bass drum of src/bass_drum.rs: a fixed-frequency table read,
 * scaled by 0.05 and silenced after a fixed time.
 */
module BassDrum {
  import opened Wrappers
  import opened Consts
  import opened Oscillator

  /** The bass drum stops once it has sounded this long, in seconds. */
  const BASS_DRUM_DEBUG_RELEASE_S: real := 0.2

  /** `BassDrumSynthState`: elapsed time, frequency and phase. */
  class BassDrumSynthState {
    var tS: real
    const freqHz: real
    var phase: real

    /** A new bass drum at time 0 and phase 0. */
    constructor (freqHz: real)
      ensures tS == 0.0 && phase == 0.0 && this.freqHz == freqHz
    {
      tS := 0.0;
      phase := 0.0;
      this.freqHz := freqHz;
    }

    /**
     * `exec`: 0.05 times the interpolated table value at the current phase.
     * Every phase in `[0, 1)` reads in bounds, and a table of values in
     * `[-1, 1]` gives an output within `[-0.05, 0.05]`.
     */
    function Exec(wavetable: seq<real>): (r: Result<real>)
      reads this
      ensures |wavetable| >= 2 && 0.0 <= phase < 1.0 ==> r.Ok?
      ensures r.Err? <==> Interpolate(wavetable, phase).Err?
      ensures r.Ok? ==> r.value == 0.05 * Interpolate(wavetable, phase).value
      ensures r.Ok? && 0.0 <= phase && (forall i :: 0 <= i < |wavetable| ==> -1.0 <= wavetable[i] <= 1.0)
        ==> -0.05 <= r.value <= 0.05
    {
      InterpolateBounded(wavetable, phase, -1.0, 1.0);
      match Interpolate(wavetable, phase)
      case Err(e) => Err(e)
      case Ok(tableVal) => Ok(0.05 * tableVal)
    }

    /**
     * `advance`: time always moves on by `tickS`; past the release time the
     * drum stops (false) with its phase untouched, otherwise the phase moves
     * on by `freqHz / TABLE_SIZE / SAMPLE_RATE_HZ` and wraps once past 1.
     */
    method Advance(tickS: real) returns (keep: bool)
      modifies this`tS, this`phase
      ensures tS == old(tS) + tickS
      ensures keep <==> tS <= BASS_DRUM_DEBUG_RELEASE_S
      ensures !keep ==> phase == old(phase)
      ensures keep ==> phase == NextPhase(old(phase), freqHz / (TABLE_SIZE as real) / SAMPLE_RATE_HZ)
    {
      tS := tS + tickS;
      if tS > BASS_DRUM_DEBUG_RELEASE_S {
        return false;
      }
      var bassDrumFreqHz := freqHz / (TABLE_SIZE as real);
      phase := phase + bassDrumFreqHz / SAMPLE_RATE_HZ;
      if phase > 1.0 {
        phase := phase - 1.0;
      }
      return true;
    }
  }
}
