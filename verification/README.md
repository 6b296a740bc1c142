# rust-synth, modelled in Dafny

rust-synth is a small software synthesizer. A Rust engine renders audio in
blocks of samples through a list of unit generators ("ugens"): voices driven by
MIDI, drums spawned by a step sequencer, and effects (allpass, lowpass, gain,
meter) that read one audio bus and write another. A browser GUI written in
TypeScript sends control blocks and sequencer edits over a web socket. It keeps
its own state with pure reducers and has a piano-roll note editor.

This project models the engine's state machines and buffers and the GUI
reducers, and proves what they promise:

- the ADSR envelope (`Envelope`) and its older variants (`Synth`,
  `ReasonableSynth`, `BassDrum`);
- the first-fit slot pools (`Pool`) under the MIDI voice manager (`Reduce`,
  `MidiManager`, `Keys`), the ugen group (`UgenGroup`), the older note manager
  (`LegacyMain`) and the sequencer (`Sequencer`);
- the ring-buffer effects (`Ring`, `Allpass`, `Lowpass`, `Meter`) and the gain
  stage (`Gain`), as classes over `array`/`array2` whose per-sample loops are
  proved against trace functions;
- wavetable oscillators and their table reads (`Oscillator`, `Drum`,
  `Wavetables`);
- the shared state (`SharedState`);
- the GUI reducers (`GuiApp` for gui/app.tsx, `GuiReduce` and `GuiState` for
  gui/reduce.ts and gui/state.ts);
- the piano-roll editor (`RollReduce`).

`f32` arithmetic is modelled with `real`. The panics of the MIDI reducer
(src/reduce.rs), of the drum's table read (src/drum.rs) and of the older note
manager (src/main.rs) are modelled: a panic is an `Outcome` (`Completed` or
`Panicked(message)`), or an `Err` where the operation also returns a value.
Out-of-range bus, control-slot and sequencer-cell indices, which every caller
keeps in range, are excluded by preconditions instead (see "## Left out"). A
JavaScript throw is an `Err` of the reducer's `Result`.

## Where the code departs from its evident intent (the model follows the code)

- The envelope's automatic release stores `amp: sustain`, not the sounding
  `sustain * vel`, so the amplitude jumps by `sustain * (1 - vel)`
  (`Envelope.AutoReleaseJump`).
- In src/drum.rs the phase wraps only when it is strictly above 1. A phase of
  exactly 1.0 survives, and the next table read is one past the end
  (`Drum.RenderPanicsAtPhaseOne`, `Oscillator.PhaseOneReadsPastEnd`). The model
  returns `Err` there instead of rendering.
- src/lowpass.rs and src/meter.rs advance the cursor before storing, so a tap 1
  slot behind reads the value stored two samples earlier
  (`Ring.TapReadsOneFurther`, `Lowpass.MixesOutputTwoBack`). src/allpass.rs
  reads before storing, so a delay of 0 reads the value stored a whole history
  earlier (`Allpass.TapReadsHistory`).
- src/lowpass.rs and src/drum.rs match on `ctl[i]` directly, not on an
  `Option`. Their `Run` takes a sequence of `ControlBlock`. src/allpass.rs and
  src/gain.rs take `Option<ControlBlock>` slots.
- src/sequencer.rs builds drums with `drum_adsr(d)` and a `DrumSynthState::new`
  signature that differ from src/drum.rs. The sequencer model records each drum
  as the `DrumHit` it is built from. Its missing-group error says "didn't find
  midi manager where we expected it", as in the code.
- `midi_reducer` searches a `Vec<UgenState>`; the sequencer searches a
  `Vec<Option<UgenState>>`. Each is modelled with its own type.
- In src/main.rs the panic on a found but empty slot cannot happen, because
  `find_note` only returns occupied slots.
- gui/reduce.ts has no case for the `rollAction` action, so `reduce` throws on
  it. gui/state.ts sets the editor's `h` from the layout width and its `w` from
  the layout height.
- gui/protocol.ts declares neither a `Reverb` control block nor the allpass
  `naive` flag, yet both reducers send them. The model's `ControlBlock` has
  both.
- gui/state.ts never sets the editor's `next_id`, so it starts `undefined`.
  The first note the editor creates gets the id `"nundefined"`, the counter
  becomes `NaN`, and every later note gets `"nNaN"`. Releasing a press on one
  of those notes then deletes all of them (`RollReduce.AbsentCounterRepeatsIds`,
  `RollReduce.ReleaseOnNoteDeletes`). Identifiers stay fresh only from a
  numeric counter (`RollReduce.RollReduceKeepsIdsFresh`).
- `RollMouseAction` is not declared in any of the GUI files. Its four cases
  (`Mousemove`, `Mousedown`, `Mouseup`, `Mouseleave`) follow how
  gui/roll-reduce.ts uses them.

## Model

| member | source | states |
|---|---|---|
| Envelope.EnvState.constructor | src/envelope.rs:33-37 | An envelope holds its ADSR parameters and its position as given |
| Envelope.EnvState.Advance | src/envelope.rs:42-62 | `On` adds the tick first. A held note stays `On` and keeps running. An unheld note past attack+decay moves to `Release{0, sustain}` and keeps running iff `release_s > 0`. `Release` adds the tick and keeps running iff `t_s <= release_s`. Only `pos` changes. |
| Envelope.EnvState.Amp | src/envelope.rs:64-85 | At or after attack+decay the amplitude is `sustain * vel`; at release time 0 it is the captured amplitude |
| Envelope.Advanced | src/envelope.rs:42-62 | The next position and keep-alive answer of `advance`; `EnvState.Advance` is proved equal to it, and `HeldStaysOn` and `AutoReleaseJump` state its behaviour |
| Envelope.AmpAt | src/envelope.rs:64-85 | The piecewise amplitude; `AttackMeetsDecay`, `DecayMeetsSustain` and `ReleaseRampEnds` prove it continuous at each segment boundary |
| Envelope.AttackStartsAtOnsetAmp | src/envelope.rs:73-75 | The attack ramp starts at the onset amplitude |
| Envelope.AttackMeetsDecay | src/envelope.rs:73-78 | The attack ends at `vel`, where the decay starts: no jump at `attack_s` |
| Envelope.DecayMeetsSustain | src/envelope.rs:76-81 | The decay ends at `sustain * vel`, the sustain level: no jump at attack+decay |
| Envelope.ReleaseRampEnds | src/envelope.rs:83 | The release goes from the captured amplitude at 0 to 0 at `release_s` |
| Envelope.AutoReleaseJump | src/envelope.rs:48-53 | The auto-release stores `sustain`; the amplitude jumps by `sustain*(1-vel)`, which is continuous iff `vel == 1` or `sustain == 0` |
| Envelope.HeldStaysOn | src/envelope.rs:44-55 | A held note is still `On` after any number of ticks, its time advanced by n ticks, and it keeps running |
| Envelope.HeldReachesSustain | src/envelope.rs:44-81 | A held note reaches `sustain * vel` once attack+decay seconds of ticks have passed |
| Pool.FirstFree | src/reduce.rs:16-19 | The index is the first free slot, or the length when none is free |
| Pool.FirstFreeUnique | src/reduce.rs:16-19 | Any two answers to "first free slot" coincide |
| Pool.Allocate | src/reduce.rs:20-30 | `Some(new)` goes to the first free slot (same length) or is appended; every other slot is unchanged |
| Pool.AddGen | src/reduce.rs:15-31 | The loop returns the first free index and the pool `Allocate` describes (`add_note` of src/main.rs:33-41 uses the same rule) |
| Pool.AllocateAddsOne | src/reduce.rs:15-31 | Allocation adds exactly one live slot, whether it reuses a slot or appends |
| Pool.LiveCountUpdate | src/reduce.rs:26-29 | Overwriting one slot changes the live count by the difference in occupancy |
| Pool.RunSlots | src/midi_manager.rs:31-37 | A run pass keeps the length and maps each slot through its voice's `run` |
| Pool.RunPass | src/ugen_group.rs:26-32 | The run loop empties a slot when its ugen returns false and keeps the advanced ugen otherwise |
| Pool.RunSlotsNeverAddsLive | src/midi_manager.rs:31-37 | A run pass never increases the number of live voices |
| Pool.RunSlotsFreesExactlyDone | src/midi_manager.rs:31-37 | A slot is emptied exactly when its voice reports done; free slots stay free |
| Keys.KeySlot | src/state.rs:170-172 | `get_key_state_mut` addresses `pitch - 21`, defined iff `21 <= pitch < 21 + len` (otherwise the source panics) |
| Reduce.UgenIxOfKeyState | src/reduce.rs:40-46 | A key sounds a voice iff it is not `Off`, and then it is that key's index |
| Reduce.ReleaseMaybeNotegen | src/reduce.rs:33-38 | A live voice gets a pending release; an empty slot stays empty |
| Reduce.ReleaseMaybeIdempotent | src/reduce.rs:33-38 | Releasing twice equals releasing once |
| Reduce.NoteVelocity | src/reduce.rs:71 | Velocity is `velocity / 1280`; it is non-negative and below 0.1 for a MIDI byte |
| Reduce.NewVoice | src/reduce.rs:74-82 | The voice a NoteOn on a silent key starts: on bus `dst`, at the key's pitch and velocity, with the default control block, running |
| Reduce.MidiReduce | src/reduce.rs:61-131 | The reducer on one message; `ReduceKeepsConsistent`, `NoteOnTwiceReusesVoice` and `PedalOffReleasesExactlyHeld` state its properties, and `MidiReducerInner` is proved equal to it |
| Reduce.HeldIxs | src/reduce.rs:114-124 | The collected list holds exactly the voice indices of the held keys |
| Reduce.ReleaseAllExact | src/reduce.rs:125-127 | Releasing the collected list succeeds iff every index is in the pool, and then releases exactly the listed slots |
| Reduce.ReduceKeepsConsistent | src/reduce.rs:61-131 | From a consistent manager (each sounding key on its own live voice), a message panics only for a pitch off the keyboard, never with the live-voice panic of line 85, and every completed message leaves it consistent |
| Reduce.PedalOffKeepsConsistent | src/reduce.rs:110-128 | From a consistent manager PedalOff always completes and stays consistent |
| Reduce.NoteOnTwiceReusesVoice | src/reduce.rs:84-92 | A second NoteOn on a sounding key restrikes the same voice, allocates nothing and keeps the keys |
| Reduce.PedalOffReleasesExactlyHeld | src/reduce.rs:110-128 | PedalOff lifts the pedal, turns exactly the held keys off, leaves down keys alone and releases exactly the held keys' voices |
| Reduce.FreedVoiceThenNoteOnPanics | src/reduce.rs:84-85 | If the render pass frees a voice that a key still points at, the next NoteOn on that key hits the live-voice panic |
| Reduce.MidiReducerInner | src/reduce.rs:48-135 | The in-place reducer ends as the message's specification says and, when it completes, leaves the manager in the specified state |
| Reduce.PedalOffInPlace | src/reduce.rs:110-128 | The PedalOff case in place: pedal lifted, held keys off, collected voices released |
| Reduce.CollectHeld | src/reduce.rs:114-124 | The first loop collects the held keys' voices in key order and turns those keys off |
| Reduce.ReleaseListed | src/reduce.rs:125-127 | The second loop releases the listed voices, panicking at the first index past the pool |
| Reduce.FindMidiManager | src/reduce.rs:152-158 | Returns the first fixed ugen that is a MIDI manager, or none iff none is |
| Reduce.MidiReducer | src/reduce.rs:140-161 | Without a manager the result is `Err("couldn't find midi manager")`; otherwise the message is applied to the first manager |
| MidiManager.Released | src/reduce.rs:36 | `release()` only records a pending release |
| MidiManager.Restruck | src/reduce.rs:87 | `restrike(vel)` only records a pending restrike at `vel` |
| MidiManager.RunKeepsConsistent | src/midi_manager.rs:30-39 | A run pass keeps the key-to-live-voice invariant while no voice a key points at finishes; keys are untouched |
| MidiManager.MidiManagerState.constructor | src/midi_manager.rs:18-26 | Pedal up, 88 keys `Off`, no voices, `dst` and `ci` stored; the result is consistent |
| MidiManager.MidiManagerState.Run | src/midi_manager.rs:30-39 | Each live voice runs once and its slot is emptied iff it is done; keys and pedal unchanged; result true |
| UgenGroup.UgenGroupState.constructor | src/ugen_group.rs:12-17 | An empty pool writing to `dst` |
| UgenGroup.UgenGroupState.Add | src/ugen_group.rs:19-21 | First-fit allocation as in `add_gen`; one more live ugen |
| UgenGroup.UgenGroupState.Run | src/ugen_group.rs:25-34 | Frees exactly the ugens that return false, keeps the length, never adds live ugens, result true |
| Sequencer.Spawns | src/sequencer.rs:31-50 | One drum per set entry among the first three, in instrument order (so at most 3); none for an all-false column |
| Sequencer.AllocateAllAddsAll | src/sequencer.rs:31-50 | Adding k drums one by one adds exactly k live ugens |
| Sequencer.AllocateAllSnoc | src/sequencer.rs:31-50 | Adding one more drum is one more first-fit allocation |
| Sequencer.SequencerLoopInner | src/sequencer.rs:31-50 | The group ends up with the column's drums added first-fit in order; the live count grows by their number |
| Sequencer.FindUgenGroup | src/sequencer.rs:52-57 | Returns the group in the first slot holding one, or none iff no slot does |
| Sequencer.Sequencer.constructor | src/sequencer.rs:88-93 | 16 rows by 3 columns, all false |
| Sequencer.Sequencer.Set | src/sequencer.rs:95-97 | Only cell `[pat][inst]` changes, to `on`; it requires `pat` and `inst` in range (the source panics otherwise) |
| Sequencer.SequencerStep | src/sequencer.rs:59-85 | Without a group: an error and nothing changes. Otherwise the column under the cursor is spawned into the first group and the cursor becomes `(pos+1) % 16` |
| Sequencer.CursorCycles | src/sequencer.rs:59-85 | From 0, the cursor after n steps is `n % 16`, always in `[0,16)` |
| SharedState.State.constructor | src/state.rs:126-143 | Running and writing to file; no web socket; no fixed ugens; 16 control-block slots all empty; 16 buses of `buf_size` zeros; wrapping wavetables; an all-off sequencer |
| SharedState.Reborrow | src/state.rs:63-69 | Same buses, web socket and advice |
| SharedState.Readvise | src/state.rs:71-76 | Same buses and web socket, new advice |
| SharedState.ReadviseOverrides | src/state.rs:63-76 | Readvising twice keeps only the last advice; readvising with the current advice is a plain reborrow |
| Ring.TapIndex | src/allpass.rs:37-39 | `(ix - d).rem_euclid(len)` is always a valid slot; it equals `ix - d` without wrap and `ix - d + len` with one wrap |
| Ring.WrittenRecent | src/lowpass.rs:48-49 | After n writes, the slot d behind the next write holds the value written d writes ago |
| Ring.WrittenUntouched | src/allpass.rs:57-58 | A slot that no write reaches keeps its value |
| Ring.WrittenBounded | src/meter.rs:39-40 | A lower bound met by the old memory and by every written value holds afterwards |
| Ring.AdvanceThenStoreShape | src/lowpass.rs:48-49 | After n samples the cursor has moved n slots and the memory holds the stored values one per slot from `ix0 + 1` |
| Ring.AdvanceThenStoreSamples | src/meter.rs:33-40 | Every stored value is the recurrence applied to its input and its tap |
| Ring.AdvanceThenStore | src/lowpass.rs:40-49 | The advance-then-store trace shared by the lowpass and the meter; `AdvanceThenStoreShape`, `AdvanceThenStoreSamples`, `WrittenRecent` and `TapReadsOneFurther` state it |
| Ring.AdvanceThenStorePrefix | src/lowpass.rs:44-49 | The trace of a block extends the trace of each prefix |
| Ring.AdvanceThenStoreTap | src/lowpass.rs:40-42 | Sample k's tap is read `offset` slots behind position `ix0 + k`, in the memory the first k samples left |
| Ring.TapReadsOneFurther | src/lowpass.rs:40-49 | Because the cursor moves before the store, a tap `offset` back reads the value stored `offset + 1` samples earlier |
| Allpass.FilteredCursor | src/allpass.rs:41-69 | After n samples the cursor is `(ix0 + n) mod 35000` |
| Allpass.FilteredMemory | src/allpass.rs:57-58 | The history holds the stored values written one per slot from the starting cursor |
| Allpass.FilteredSamples | src/allpass.rs:55-65 | Each sample stores `dry + g*tap` whatever `naive` is, and outputs `dry + g*tap` (naive) or `-g*dry + (1-g²)*tap` |
| Allpass.Output | src/allpass.rs:61-65 | The output of a sample: `dry + g*tap` when naive, otherwise `-g*dry + (1-g²)*tap` |
| Allpass.Stored | src/allpass.rs:57-58 | The value stored in the history: `dry + g*tap` |
| Allpass.Filtered | src/allpass.rs:42-69 | The trace of a block; `FilteredSamples`, `FilteredMemory`, `TapReadsHistory` state it, and `AllpassState.CtlRun` is proved equal to it |
| Allpass.FilteredPrefix | src/allpass.rs:42-69 | The trace of a block extends the trace of each prefix |
| Allpass.FilteredNext | src/allpass.rs:55-68 | One more sample extends the trace by the tap read before the store, the stored value and the output |
| Allpass.TapOfSample | src/allpass.rs:55-56 | Sample k's tap is read `delay` slots behind cursor `ix0 + k` in the history the first k samples left |
| Allpass.TapReadsHistory | src/allpass.rs:55-58 | With `1 <= delay <= k` the tap reads the value stored `delay` samples earlier; delay 0 reads the value stored 35000 samples earlier |
| Allpass.AllpassState.constructor | src/allpass.rs:27-35 | Cursor 0 and 35000 zeros of history |
| Allpass.AllpassState.DoTap | src/allpass.rs:37-39 | Reads `delay` behind the cursor, wrapping around the start of the buffer |
| Allpass.AllpassState.CtlRun | src/allpass.rs:41-71 | Bus `dst`, history and cursor become what the trace says; every other bus is unchanged; result true |
| Allpass.AllpassState.Tick | src/allpass.rs:55-68 | One sample: the history slot under the cursor gets `dry + g*tap`, bus `dst` gets the output, the cursor moves one slot; nothing else changes |
| Allpass.AllpassState.Run | src/allpass.rs:75-80 | Filters iff slot `ctl` is `Some(All)`; otherwise returns false with buses, history and cursor unchanged |
| Lowpass.MixesOutputTwoBack | src/lowpass.rs:44-49 | From the third sample on, `y[k] = (1-p)*x[k] + p*y[k-2]` |
| Lowpass.Mix | src/lowpass.rs:44-45 | The lowpass sample: `(1-p)` of the input plus `p` of the memory one slot behind the cursor; `MixesOutputTwoBack` states what that gives |
| Lowpass.LowpassState.constructor | src/lowpass.rs:25-33 | Cursor 0, 35000 zeros of memory, `BUF_SIZE` zeros of buffer |
| Lowpass.LowpassState.Tap | src/lowpass.rs:40-42 | `scale` times the memory `offset` behind the cursor, wrapping |
| Lowpass.LowpassState.CtlRun | src/lowpass.rs:35-52 | Bus `dst`, memory and cursor follow the advance-then-store recurrence; other buses unchanged; result true |
| Lowpass.LowpassState.Tick | src/lowpass.rs:40-49 | One sample: the output `(1-p)*x + p*tap` goes to bus `dst`, the cursor moves one slot and the output is stored there; nothing else changes |
| Lowpass.LowpassState.Run | src/lowpass.rs:56-62 | Filters iff the hard-coded slot 1 is `Low`; otherwise false and nothing changes |
| Meter.StaysNonNegative | src/meter.rs:33-40 | Non-negative memory stays non-negative through any block |
| Meter.Leak | src/meter.rs:33-37 | The meter sample: `(1-0.99)` of the squared input plus `0.99` of the memory one slot behind the cursor; `StaysNonNegative` states what that keeps |
| Meter.MeterState.constructor | src/meter.rs:14-20 | Cursor 0 and 14700 zeros |
| Meter.MeterState.Run | src/meter.rs:24-43 | Memory and cursor follow the leaky mean-square recurrence; no bus is written; result true |
| Gain.GainState.constructor | src/gain.rs:29-31 | Stores `src` and `dst` |
| Gain.GainState.CtlRun | src/gain.rs:33-38 | `dst[i] = src[i] * scale` for every sample; no other bus changes; result true |
| Gain.GainState.Run | src/gain.rs:42-54 | Scales iff the hard-coded slot 2 is `Some(Gain)`; otherwise false with buses unchanged |
| Oscillator.SaturatingIndex | src/drum.rs:58 | `f32 as usize` on a floor: the floor when non-negative, 0 when negative |
| Oscillator.Scaled | src/drum.rs:57 | A phase in `[0,1)` scales into `[0,n)`; a phase of 1 scales to exactly n |
| Oscillator.FloorBelow | src/drum.rs:57-58 | The floor of a value in `[0,n)` is below n |
| Oscillator.Interpolate | src/reasonable_synth.rs:40-52 | Every phase in `[0,1)` reads in bounds; a phase of exactly 1 reads past the end |
| Oscillator.NextPhase | src/drum.rs:71-74 | The phase stays in `[0,1]`; it lands on exactly 1 when `phase + inc == 1` |
| Oscillator.PhaseOneReadsPastEnd | src/drum.rs:56-74 | From `p + inc == 1` the wrap does not fire and the next read is one past the end |
| Oscillator.LerpBetween | src/drum.rs:63 | Interpolating with a fraction in `[0,1]` stays within the bounds of both values |
| Oscillator.InterpolateBounded | src/bass_drum.rs:21-32 | A read from a table bounded by `[lo,hi]` stays in `[lo,hi]` |
| Drum.Step | src/drum.rs:56-78 | A read fails exactly when the table read is out of bounds, changing nothing; otherwise the envelope advances and its answer decides whether rendering goes on |
| Drum.PhaseIncrement | src/drum.rs:68-71 | The phase step: the frequency glides from `freq_hz` to `freq2_hz` over the attack, divided by the table size and the sample rate |
| Drum.Mixed | src/drum.rs:65 | The bus value after a sample: the old value plus `0.15 * table * amp * vol` |
| Drum.Rendered | src/drum.rs:56-79 | The trace of a block; `RenderedNext`, `RestAfterStop` and `RenderPanicsAtPhaseOne` state it, and `DrumSynthState.CtlRun` is proved equal to it |
| Drum.RenderPanicsAtPhaseOne | src/drum.rs:56-74 | A drum whose phase steps to exactly 1.0 renders one sample and fails on the next |
| Drum.RenderedNext | src/drum.rs:56-78 | Rendering one more sample is one `Step` |
| Drum.RestAfterStop | src/drum.rs:75-77 | After the envelope stops the voice, the remaining samples of the block are untouched |
| Drum.DrumSynthState.constructor | src/drum.rs:33-53 | Dry bus, phase 0, slot 0, envelope `On{0,0,vel 1,no hold}` with the drum envelope |
| Drum.DrumSynthState.CtlRun | src/drum.rs:55-80 | Bus `dst`, phase and envelope follow the rendering trace (each sample adds `0.15*table*amp*vol`); `Err` iff a read was out of bounds; otherwise the result is whether it is still going; other buses unchanged |
| Drum.DrumSynthState.Sample | src/drum.rs:56-77 | One loop iteration: one `Step` writes only sample i of `dst` |
| Drum.DrumSynthState.Run | src/drum.rs:84-89 | Renders iff slot `ci` is `Drum`; otherwise false with nothing changed |
| Wavetables.Saw | src/wavetables.rs:35-37 | `2i/TABLE_SIZE - 1`, in `[-1,1)` over a cycle |
| Wavetables.Square | src/wavetables.rs:40-42 | 1 for the first half of the cycle, -1 for the second |
| Wavetables.New | src/wavetables.rs:15-55 | Three tables of `TABLE_SIZE+1` entries whose last entry repeats the first; saw and square entries as above; noise in `[-1,1)` |
| ReasonableSynth.AdvanceEnvelope | src/reasonable_synth.rs:7-18 | Time moves on in both states; the answer ("terminate") is true only for a released envelope past the release time |
| ReasonableSynth.ReasonableSynthState.constructor | src/reasonable_synth.rs:28-38 | Phase 0 and envelope `On{0,0,vel}` |
| ReasonableSynth.ReasonableSynthState.Exec | src/reasonable_synth.rs:40-52 | `scale` times the interpolated read; in bounds for every phase in `[0,1)` |
| ReasonableSynth.ReasonableSynthState.Advance | src/reasonable_synth.rs:54-69 | Stops with the phase unchanged iff the envelope says terminate; otherwise the phase moves by `freq/SAMPLE_RATE` and wraps once past 1, staying in `[0,1]` |
| BassDrum.BassDrumSynthState.constructor | src/bass_drum.rs:11-17 | Time 0 and phase 0 |
| BassDrum.BassDrumSynthState.Exec | src/bass_drum.rs:21-32 | `0.05` times the interpolated read; in bounds for a phase in `[0,1)`; within `±0.05` for a table in `[-1,1]` |
| BassDrum.BassDrumSynthState.Advance | src/bass_drum.rs:34-54 | Time always advances; stops with the phase unchanged once past 0.2 s; otherwise the phase moves by `freq/TABLE_SIZE/SAMPLE_RATE` and wraps |
| Synth.NoteFsmAmpIsEnvelopeAmp | src/synth.rs:60-75 | `note_fsm_amp` is the envelope module's amplitude curve with this file's constants |
| Synth.NoteFsmAmp | src/synth.rs:60-75 | The amplitude of a note state; `NoteFsmAmpIsEnvelopeAmp` proves it is the envelope curve |
| Synth.RestrikeIsContinuous | src/synth.rs:60-66 | A new attack from amplitude a starts at a |
| Synth.ReleaseIsContinuous | src/synth.rs:73 | A release starts at the captured amplitude and ends at 0 after `RELEASE` |
| Synth.WrapNotMod | src/synth.rs:98-105 | A value at or past `size` becomes 0; smaller values are kept; the result is below `size` |
| Synth.AdvanceNote | src/synth.rs:77-96 | An empty slot stays empty; `On` only ages; `Release` ages and is emptied once past `RELEASE` |
| Synth.Synth.constructor | src/synth.rs:11-31 | A saw table of 4001 entries whose last repeats the first |
| Synth.Synth.ExecNote | src/synth.rs:33-52 | An empty slot adds nothing; a note adds `amp * table value` and moves its phase with `wrap_not_mod`; a readable phase stays readable, so every read is in bounds |
| LegacyMain.FindNote | src/main.rs:26-31 | The first occupied slot with that pitch, or none iff there is none |
| LegacyMain.RestrikeNote | src/main.rs:43-49 | `On{t:0, amp: current amplitude, vel}`: the amplitude does not jump |
| LegacyMain.ReleaseNote | src/main.rs:51-61 | A note gets `Release{t:0, amp: current amplitude}`; an empty slot stays empty |
| LegacyMain.NoteOnSoundsPitch | src/main.rs:65-94 | After NoteOn the pitch's first note is `On` at time 0 with `velocity/1280`; the pool gains a note iff the pitch was silent |
| LegacyMain.LegacyReduce | src/main.rs:63-107 | The older reducer on one message; `NoteOnSoundsPitch` and `NoteOffKeepsPool` state what it does, and `LegacyMain.MidiReducer` is proved equal to it |
| LegacyMain.NoteOffKeepsPool | src/main.rs:95-104 | NoteOff on a silent pitch changes nothing; otherwise size and live count are kept |
| LegacyMain.LegacyState.constructor | src/main.rs:115 | The note pool starts empty |
| LegacyMain.MidiReducer | src/main.rs:63-107 | The in-place reducer leaves the pool its specification describes; the empty-slot panic is unreachable |
| GuiApp.SetCell | gui/reduce.ts:19 | `table[pat][inst] = on` fails iff row `pat` is missing; it changes only that cell, and a column past the row's end grows the row with off cells |
| GuiApp.GainMsg | gui/reduce.ts:26-34 | Gain block at slot 2 with `scale * 100 == 40 * iface`, so in `[0,40]` for a percentage |
| GuiApp.HighpassMsg | gui/reduce.ts:35-49 | Exactly three taps `Rec@1:α`, `Input@0:α`, `Input@1:-α` at slot 1, with `α` the percentage over 100; the input weights cancel |
| GuiApp.HighpassBlocksConstant | gui/reduce.ts:35-49 | With `α != 1`, the only output the highpass recurrence holds steady on a constant input is 0, and 0 is steady: a constant input is removed |
| GuiApp.AllpassMsg | gui/app.tsx:80-88 | `All{delay, gain: iface/100, naive}` at slot 3 |
| GuiApp.ReverbMsg | gui/reduce.ts:117-122 | Reverb block at slot 4 with both percentages divided by 100 |
| GuiApp.SumScaleAll | gui/reduce.ts:97-98 | Scaling every weight by s scales the sum by s |
| GuiApp.LowpassTaps | gui/reduce.ts:91-104 | Fails iff the tap list is empty; otherwise the user's taps as `Rec` taps at their positions, then `Input@0` |
| GuiApp.LowpassWeightsSumToOne | gui/reduce.ts:91-104 | All the weights sent sum to exactly 1, the input keeps at least 0.05, and unscaled taps are sent as given |
| GuiApp.LowpassMsg | gui/reduce.ts:88-112 | The lowpass block at slot 1, or the failure of an empty list |
| GuiApp.DrumAdsr | gui/app.tsx:279-286 | Attack `0.01d`, decay `0.05d`, sustain `0.2`, release `0.2d` |
| GuiApp.DrumAdsrScales | gui/app.tsx:279-286 | The three durations scale linearly with the duration scale |
| GuiApp.MkAppState | gui/app.tsx:224-247 | A 16×2 all-false table, empty outbox, connected, the default settings and lowpass taps |
| GuiApp.SendAll | gui/app.tsx:73 | One send effect per outbox message, in order |
| GuiApp.AppReduce | gui/app.tsx:71-78 | Fails iff the inner reducer fails; otherwise the outbox is drained into send effects in order and emptied |
| GuiApp.AppReduceInner | gui/app.tsx:90-222 | The state change of each action of the first GUI; `AppActionEffects` states it |
| GuiApp.AppActionEffects | gui/app.tsx:90-222 | `setText`, `setConnected` and `setMeterValues` change only their field and send nothing; every other successful action sends exactly one message |
| GuiState.MkState | gui/state.ts:60-98 | The initial state: 16 rows of `[false,false]`, empty outbox, connected, allpass 50/50/true, the two default lowpass taps, the editor hovering with no point, grid and note size 1, octave 3, with `h` and `w` swapped, and the note counter absent (`undefined`) |
| GuiReduce.Reduce | gui/reduce.ts:6-13 | Fails iff the inner reducer fails; otherwise one send effect per outbox message, in order, and an empty outbox |
| GuiReduce.ReduceFailures | gui/reduce.ts:15-147 | Only `rollAction`, an empty lowpass list and a missing sequencer row fail |
| GuiReduce.ReduceInner | gui/reduce.ts:15-147 | The state change of each action; `ReduceFailures`, `ReduceInnerQueues`, `SetSequencerEffect`, `SilentActions`, `SettingActions` and `SetLowpassNormalises` state it |
| GuiReduce.ReduceInnerQueues | gui/reduce.ts:15-147 | The outbox keeps what it held, in order, and gains at most one message |
| GuiReduce.SetSequencerEffect | gui/reduce.ts:17-22 | Only cell `[pat][inst]` changes, and the action itself is sent |
| GuiReduce.SilentActions | gui/reduce.ts:23-145 | `setConnected`, `setMeterValues` and `Vscroll` change only their own field and send nothing |
| GuiReduce.SettingActions | gui/reduce.ts:26-140 | Gain, highpass, each allpass field and the reverb settings are recorded, and the one matching block is sent |
| GuiReduce.SetLowpassNormalises | gui/reduce.ts:88-112 | A non-empty list is recorded and one lowpass block is sent whose weights sum to 1, with at least 0.05 on the input |
| RollReduce.WithNotes | gui/roll-reduce.ts:27-46 | Replacing the pattern's notes makes them the current notes |
| RollReduce.FindNoteAtMpoint | gui/roll-reduce.ts:9-15 | A note of the list covering the point (same pitch, time within its span), or none iff no note covers it |
| RollReduce.FindNoteIndexAtMpoint | gui/roll-reduce.ts:87-93 | The index of the last covering note, or -1 when none covers it |
| RollReduce.FindersAgree | gui/roll-reduce.ts:9-93 | The two searches agree: the note found is the one at the index found |
| RollReduce.MpointFromCanvas | gui/roll-reduce.ts:95-101 | Keeps x and y; the tick converts back to x (12 pixels per tick after a 134-pixel margin); the top row has the view's top pitch |
| RollReduce.PitchRows | gui/roll-reduce.ts:98 | 16 pixels lower is one pitch lower |
| RollReduce.NoteIdInjective | gui/roll-reduce.ts:42-43 | Distinct counters give distinct `"n"+id` identifiers |
| RollReduce.Incremented | gui/roll-reduce.ts:44 | `next_id + 1` in JavaScript: a number goes up by one, and `undefined` or `NaN` gives `NaN` |
| RollReduce.CounterId | gui/roll-reduce.ts:42-43 | `"n" + next_id`: `"n"` and the decimal digits of a number, `"nundefined"` or `"nNaN"` |
| RollReduce.AbsentCounterRepeatsIds | gui/roll-reduce.ts:42-44 | From an absent counter the first created id is `"nundefined"` and every later one is `"nNaN"` |
| RollReduce.XdOfTicksd | gui/roll-reduce.ts:83-85 | Converts a tick distance to pixels; `MpointFromCanvas` proves it inverts the tick conversion |
| RollReduce.RollReduceMouse | gui/roll-reduce.ts:17-81 | The note edit of a mouse action; `ReleaseOnNoteDeletes`, `ReleaseOnEmptyCreates` and `ResizeClamps` state what it does |
| RollReduce.RollNewMouseState | gui/roll-reduce.ts:103-144 | The mouse-state transition; `DownMoveStartsResize`, `PressFromHover`, `MouseUpAndLeave` and `RollReduceKeepsConsistent` state what it does |
| RollReduce.WithoutId | gui/roll-reduce.ts:29-30 | Keeps exactly the notes whose id differs |
| RollReduce.SetEnd | gui/roll-reduce.ts:64 | Sets note ix's end and nothing else; fails iff ix is not an index |
| RollReduce.SetBegin | gui/roll-reduce.ts:71 | Sets note ix's start and nothing else; fails iff ix is not an index |
| RollReduce.RollReduce | gui/roll-reduce.ts:146-153 | Succeeds iff both halves do; the note edit is applied and the mouse state is the transition computed from the old state |
| RollReduce.DownMoveStartsResize | gui/roll-reduce.ts:117-130 | A move while pressed becomes a resize iff the drag exceeds 5 px and a note lies under the press point. The note is the last such one; `fromRight` iff the press is past its midpoint. Otherwise the state stays `down` |
| RollReduce.PressFromHover | gui/roll-reduce.ts:107-110 | A press while hovering gives `down` with `orig == now` at the pressed point, and the notes are unchanged |
| RollReduce.RollReduceKeepsConsistent | gui/roll-reduce.ts:103-144 | From a consistent state (a resize refers to an existing note), the reducer fails exactly on a press while down or resizing, and stays consistent |
| RollReduce.MouseUpAndLeave | gui/roll-reduce.ts:103-144 | Mouseup always ends hovering; Mouseleave always forgets the mouse position |
| RollReduce.ReleaseOnNoteDeletes | gui/roll-reduce.ts:27-35 | Releasing on a note removes every note with its id, keeps every other note, and sets `noteSize` to its length |
| RollReduce.ReleaseOnEmptyCreates | gui/roll-reduce.ts:37-46 | Releasing on empty space appends one note with id `"n"+next_id` (in JavaScript's string conversion) and sets `next_id` to `next_id + 1` |
| RollReduce.RollReduceKeepsIdsFresh | gui/roll-reduce.ts:17-81 | From a numeric counter, no note ever uses an id the editor will hand out later, so a created note's id is new |
| RollReduce.ResizeClamps | gui/roll-reduce.ts:52-73 | A right resize gives a length of at least 1 and an end at most `pat.length`. A left resize gives a length of at least 1, a start of at least 0 and an unchanged end. No other note moves |

## Left out

- I/O and threads: the audio callback, the MIDI input thread, the web servers (src/webserver*.rs), the WebSocket transport (`try_send` in `midi_reducer`), writing to file, and the React components and canvas drawing of the GUI.
- The reverb ugen (src/reverb.rs, the Freeverb engine) and `State::new_drum` / `new_reasonable_of_tables`: they are not part of this model beyond the control blocks and the voice record they produce.
- Voices in the MIDI manager are abstract: a `Voice` records its bus, pitch, velocity, control slot and any pending release or restrike. Its oscillator and its own `run` are a function parameter `step`.
- `util::freq_of_pitch` (`powf`) is not part of this model: the legacy reducer takes the frequency as a parameter.
- IEEE `f32` rounding, infinities and NaN: arithmetic is exact on `real`. Division by a zero segment length is excluded by `AmpDefined` instead of producing infinities.
- Drum.PhaseIncrement: `time_s()` and `attack_len_s()` of the envelope are not in the source files; the model uses the envelope position's time and the drum envelope's attack length.
- ReasonableSynth.ReasonableSynthState.Exec: `ugen_env_amp` is not in the source files, so the amplitude is the parameter `scale`; `RELEASE_s` is the parameter `releaseS` of `Advance`.
- Release and restrike of lowpass and drum are no-ops in the source and are not modelled as members.
- Sequencer.SequencerStep: the sleep between steps and the state lock are left out; one call is one step of the loop.
- Wavetables.New: the noise values come from a random generator and are an arbitrary choice in `[-1, 1)`.
- RollReduce: `snapToGrid`, `restrictAtState`, `augment_and_snap`, `getCurrentPat` and `y0pitch_of_scrollOctave` are not in the source files and are fields of the `Helpers` parameter. `updateCurrentNotes` is not in the source files either; the model replaces the notes of `state.pattern`, the pattern `getCurrentNotes` reads.
- RollReduce: numbers that the editor treats as integers (pitches, note indices) are `int`; a fractional index is not modelled.
- GuiState.MkState: the score's default pattern is not in the source files and is a parameter.
- Sequencer.Sequencer.Set, Allpass.AllpassState.Run, Lowpass.LowpassState.Run, Gain.GainState.Run, Drum.DrumSynthState.Run and the `CtlRun`/`Run` methods of Allpass, Lowpass, Gain, Meter and Drum: an out-of-range sequencer cell (src/sequencer.rs:96), control slot or audio bus index would panic in Rust; the model excludes it by a precondition instead of modelling the panic. Every caller keeps these in range (16 control slots, 16 buses, GUI-bounded sequencer indices).
- GuiApp.SetCell: the sequencer indices are naturals; negative or fractional indices from the GUI are not modelled.
