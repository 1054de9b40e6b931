# driftone core in Dafny

A model of the sequencing and mixing core of the driftone ESP32 drum machine.
The model covers:

- the 6 x 16 step sequencer;
- the four-voice pool with its chunked, saturating mixer and polled output tick;
- the transport inside the firmware's `loop`: the step due-check, the advance and the trigger loop, the touch dispatch that recomputes the step interval, and one whole loop iteration;
- the six-slot sample table of the SD-card loader;
- the touch hit tests of the UI and the touch handler.

Everything is integer arithmetic over immutable values:

- fixed arrays are fixed-length sequences (`Sequencer.Grid`, `AudioEngine.Pool`, `AudioEngine.Buffer`, `SampleLoader.Slots`);
- C pointers that may be null are `Units.Option`;
- `unsigned long` clock readings are `Units.u32`, compared through a wrapping subtraction (`Units.Elapsed`).

Clock readings, the SD card contents and the touch panel reading are parameters.

Modules, one per file:

| file | module | models |
|---|---|---|
| units.dfy | Units | bytes, 32-bit unsigned time, wrapping elapsed time, `Option` |
| sequencer.dfy | Sequencer | `sequencer.cpp` |
| audio_engine.dfy | AudioEngine | `audioengine.cpp` |
| sample_loader.dfy | SampleLoader | `sdloader.cpp` |
| layout.dfy | Layout | the hit tests and cell geometry of `ui.cpp` |
| touch_input.dfy | TouchInput | `touchscreen.cpp` |
| timing.dfy | Timing | the step clock of `loop` under repeated polling |
| triggering.dfy | Triggering | the trigger loop of `loop` against the voice pool |
| transport.dfy | Transport | one iteration of `loop` and the touch dispatch |

The step interval `60000 / (bpm * 4)` is defined as a quotient by repeated subtraction (`Transport.Quotient`). `Transport.QuotientIsDivision` proves it equal to integer division. This keeps non-linear arithmetic out of the validity predicate of the firmware state.

Behaviours that look like bugs are modelled as written, and properties state them:

- **Double mid level.** The mixer adds the 128 mid level twice, so a cell becomes the saturating sum of the two raw bytes. Mixing silence (128) into a cleared cell gives 255 (`AudioEngine.SilenceSaturates`).
- **Tempo overshoot.** `increaseBPM` and `decreaseBPM` test only the old tempo, so 198 goes to 203 (`Sequencer.BpmOvershoot`). The range [60, 200] is kept only on multiples of five.
- **Mix on every tick.** Every due output tick runs a whole mix pass. A voice therefore advances a chunk per emitted sample (`AudioEngine.VoiceAdvancesPerTick`).
- **Paused re-trigger.** A paused transport does not move the play head. It still re-triggers the current step every interval (`Transport.PausedRetriggers`).
- **Late deactivation.** A voice that runs out exactly at the end of a chunk stays active until the next pass (`AudioEngine.AfterPass`).
Other consequences of the code that the properties pin down:

- **Four steps per half second.** At 120 BPM, when `loop` polls every millisecond, the code advances four steps, one beat, in 500 ms (`Timing.StepsPerInterval`, `Transport.HalfSecondIsOneBeat`). With the kick row as `setup` leaves it, {0, 4, 8, 12}, the play head lands on a kick step exactly once in those four advances (`Timing.KickAdvancesFollowPattern`, `Timing.OneKickPerBeat`). So the play head lands on an active kick step once per half second. Whether that step starts a voice also depends on the kick sample being loaded and a slot being free.
- **`playSample` has no result.** It returns nothing. A dropped request is visible only as an unchanged pool (`AudioEngine.PlaySampleSpec`, `AudioEngine.PlaySampleCount`).
- **Tempo extremes.** From 200 `increaseBPM` stays at 200, but from 199 it reaches 204, and `decreaseBPM` from 61 reaches 56 (`Sequencer.BpmOvershoot`). Every tempo a valid sequencer holds lies in [56, 204], so the step interval lies in [73, 267] ms (`Transport.IntervalRange`).

## Model

| member | source | states |
|---|---|---|
| Units.Elapsed | driftone_main.cpp:94 | the time since `last` is the 32-bit distance forward to `now`: `last` plus it is `now`, or `now + 2^32` when the clock wrapped in between |
| Units.ElapsedIsWrappingSubtraction | audioengine.cpp:47 | the elapsed time is unsigned 32-bit subtraction: it is `(now - last) mod 2^32`, adding it to `last` gives back `now`, and it is the only such value |
| Sequencer.NewSequencer | sequencer.cpp:7-18 | a new sequencer is at step 0, 120 BPM, running, every step off |
| Sequencer.Init | sequencer.cpp:20-38 | after `init` a step is on iff it was on before or belongs to the demo pattern (kick on 0/4/8/12, snare on 4/12, hi-hat on odd steps); step, tempo and running flag unchanged |
| Sequencer.InitIdempotent | sequencer.cpp:20-38 | calling `init` twice leaves the same sequencer as calling it once |
| Sequencer.InitOfNewIsDemo | sequencer.cpp:7-38 | on a fresh sequencer `init` leaves exactly the demo pattern on, at step 0, 120 BPM, running |
| Sequencer.NextStep | sequencer.cpp:40-47 | running: the step becomes (step + 1) mod 16; paused: nothing changes; grid, tempo, flag untouched; validity kept |
| Sequencer.NextStepNPosition | sequencer.cpp:40-47 | k advances of a running sequencer put the step at (step + k) mod 16 |
| Sequencer.NextStepNKeepsGrid | sequencer.cpp:40-47 | advancing any number of times changes neither the grid, the tempo nor the running flag |
| Sequencer.SixteenStepsReturn | sequencer.cpp:43-46 | sixteen advances return the play head to where it started |
| Sequencer.PausedNeverMoves | sequencer.cpp:41 | any number of advances of a paused sequencer leave it unchanged |
| Sequencer.Reset | sequencer.cpp:49-51 | `reset` sets the step to 0 and changes nothing else |
| Sequencer.IsStepActive | sequencer.cpp:53-58 | out-of-range coordinates read false; in range the cell's value |
| Sequencer.ToggleStep | sequencer.cpp:60-72 | out of range: no change; in range: exactly that cell flips, every other cell, step, tempo and flag unchanged |
| Sequencer.SetStep | sequencer.cpp:74-79 | out of range: no change; in range: exactly that cell takes the value, nothing else changes |
| Sequencer.ToggleTwiceRestores | sequencer.cpp:60-72 | toggling the same coordinates twice restores the sequencer exactly |
| Sequencer.ToggleIsSetOpposite | sequencer.cpp:60-79 | toggling is setting the cell to the opposite of what `isStepActive` reads |
| Sequencer.ClearTrack | sequencer.cpp:81-90 | an in-range track becomes all off and every other track is unchanged; an out-of-range track changes nothing |
| Sequencer.ClearTracksFrom | sequencer.cpp:92-95 | clearing tracks from `start` on keeps exactly the steps of the tracks before `start` |
| Sequencer.ClearAll | sequencer.cpp:92-97 | after `clearAll` no coordinates read as active; step, tempo and flag unchanged |
| Sequencer.TogglePlayback | sequencer.cpp:99-103 | the running flag flips and nothing else changes |
| Sequencer.Play | sequencer.cpp:105-108 | running afterwards, nothing else changes |
| Sequencer.Pause | sequencer.cpp:110-113 | paused afterwards, nothing else changes |
| Sequencer.TogglePlaybackTwice | sequencer.cpp:99-103 | two toggles restore the sequencer |
| Sequencer.SetBPM | sequencer.cpp:119-125 | the tempo becomes the request iff it lies in [60, 200]; otherwise the sequencer is unchanged |
| Sequencer.IncreaseBPM | sequencer.cpp:127-133 | at 200 or above nothing changes, otherwise the tempo rises by exactly 5; validity kept |
| Sequencer.DecreaseBPM | sequencer.cpp:135-141 | at 60 or below nothing changes, otherwise the tempo falls by exactly 5; validity kept |
| Sequencer.BpmBoundsKeptOnFiveGrid | sequencer.cpp:127-141 | on multiples of five within [60, 200] both buttons keep the tempo a multiple of five within [60, 200] |
| Sequencer.BpmOvershoot | sequencer.cpp:119-141 | `setBPM(198)` then `increaseBPM` gives 203 and `setBPM(62)` then `decreaseBPM` gives 57; the extremes 204 (from 199) and 56 (from 61) are reached |
| AudioEngine.NewEngine | audioengine.cpp:7-21 | a new engine has every voice idle at position 0, cursor 0, not initialised |
| AudioEngine.Init | audioengine.cpp:23-39 | `init` marks the engine initialised and leaves voices, ring and cursor alone |
| AudioEngine.Clip | audioengine.cpp:121-125 | identity on [0, 255], 0 below, 255 above |
| AudioEngine.ClipIsNearest | audioengine.cpp:121-125 | the clipped value is the byte nearest to the input |
| AudioEngine.ClipMonotone | audioengine.cpp:121-125 | clipping preserves order |
| AudioEngine.MixCell | audioengine.cpp:109-114 | at unity gain a cell becomes min(255, cell + sample): the mid level counted twice |
| AudioEngine.SilenceSaturates | audioengine.cpp:110-114 | a silent sample on a cleared cell gives 255; any sample of 127 or more saturates; a smaller one gives 128 + sample |
| AudioEngine.ChunkLength | audioengine.cpp:88 | a pass covers exactly min(32, 512 - bp) cells: 32, or the cells left before the end of the ring when fewer; with the cursor inside the ring at least one |
| AudioEngine.ClearFromCells | audioengine.cpp:88-90 | the clearing loop from position i silences exactly the chunk cells from bp + i on |
| AudioEngine.ClearChunk | audioengine.cpp:87-90 | after clearing, the chunk cells hold 128 and every other cell is unchanged |
| AudioEngine.ClearLoop | audioengine.cpp:87-90 | the imperative clearing loop computes the same ring |
| AudioEngine.AfterPass | audioengine.cpp:99-106 | a voice after a pass still has its position within its size |
| AudioEngine.MixVoiceClosedForm | audioengine.cpp:99-117 | one voice's inner loop in closed form: the cells it covers get its bytes mixed in, in order; every other cell is unchanged; the voice advances by the bytes consumed and is switched off only when the chunk asks for more than it has |
| AudioEngine.VoiceLoop | audioengine.cpp:99-117 | the imperative inner loop produces the closed form above |
| AudioEngine.MixVoice | audioengine.cpp:99-117 | the inner loop of `mixSamples` for one voice; contract in `AudioEngine.MixVoiceClosedForm` |
| AudioEngine.MixSlots | audioengine.cpp:93-118 | the slot loop of `mixSamples`; contract in `AudioEngine.MixSlotsEffect` and `AudioEngine.SkipInactive` |
| AudioEngine.Mix | audioengine.cpp:86-119 | `mixSamples`: clear the chunk, then the slot loop; contract in `AudioEngine.MixEffect`, `AudioEngine.SingleVoiceChunk` and `AudioEngine.MixChunkIsFresh` |
| AudioEngine.MixSlotsEffect | audioengine.cpp:93-118 | the slot loop writes only chunk cells, advances each active voice from the starting slot as a pass dictates, leaves the others alone |
| AudioEngine.MixEffect | audioengine.cpp:86-119 | a pass writes only `outputBuffer[bp .. bp + min(32, 512 - bp))`; active voices advance, inactive ones are untouched, all stay well formed; at bp = 512 it changes nothing |
| AudioEngine.OnlyVoiceMix | audioengine.cpp:93-118 | with one active voice the pass is that voice's mix over the cleared chunk |
| AudioEngine.SingleVoiceChunk | audioengine.cpp:86-119 | with one active voice that has bytes for the whole chunk, cell bp + i is the mid level mixed with the voice's i-th next byte |
| AudioEngine.SkipInactive | audioengine.cpp:94 | inactive slots are skipped by the slot loop |
| AudioEngine.MixVoiceChunkAgree | audioengine.cpp:113-114 | what one voice writes depends only on the chunk cells and the voice |
| AudioEngine.MixSlotsChunkAgree | audioengine.cpp:93-118 | the slot loop's chunk result depends only on the chunk cells and the pool |
| AudioEngine.MixChunkIsFresh | audioengine.cpp:86-119 | because the chunk is cleared first, the pass's chunk and voices do not depend on what the ring held |
| AudioEngine.MixSamples | audioengine.cpp:86-119 | the imperative `mixSamples` (clear loop, slot loop, inner loop) computes the pass; it writes only the chunk and advances voices as a pass dictates |
| AudioEngine.Update | audioengine.cpp:41-61 | not initialised or under 45 µs since the last sample: no change; due: the time is recorded, the ring and voices become those of one mix pass (`Mix`) at the cursor, and the sample under the cursor is emitted from that ring with the cursor advanced, or at 512 the cursor goes to 0 with nothing emitted; the engine stays valid |
| AudioEngine.EmissionIsFresh | audioengine.cpp:47-56 | the emitted sample and the voices do not depend on the ring's previous contents |
| AudioEngine.VoiceAdvancesPerTick | audioengine.cpp:47-51 | a due tick advances an active voice with bytes to spare by a whole chunk |
| AudioEngine.FirstFree | audioengine.cpp:67-68 | the result is the lowest inactive slot at or after `start`, or none when every such slot is busy |
| AudioEngine.PlaySample | audioengine.cpp:63-84 | `playSample`; contract in `AudioEngine.PlaySampleSpec`, `AudioEngine.PlaySampleCount` and `AudioEngine.PlaySampleKeepsWf` |
| AudioEngine.PlaySampleSpec | audioengine.cpp:63-84 | null data or size 0: no-op; all four busy: no-op; otherwise the lowest inactive slot gets the sample at position 0, active, with the volume, and no other slot changes |
| AudioEngine.PlaySampleCount | audioengine.cpp:63-84 | a valid trigger takes one more slot up to four |
| AudioEngine.FifthTriggerDropped | audioengine.cpp:67-83 | five triggers into an idle pool leave exactly four voices; the fifth changes nothing |
| AudioEngine.PlaySampleKeepsWf | audioengine.cpp:63-73 | a trigger whose size fits its data keeps every voice's position within its size |
| AudioEngine.StopAllSamples | audioengine.cpp:127-137 | every slot inactive with position 0, bindings kept; none busy |
| AudioEngine.SetMasterVolume | audioengine.cpp:139-146 | the volume changes on active slots only |
| AudioEngine.SetMasterVolumeKeeps | audioengine.cpp:139-146 | only volumes change: every slot keeps sample, cursor and flag, so well-formedness, the busy count and `isPlaying` are unchanged |
| AudioEngine.AnyActiveFrom | audioengine.cpp:148-155 | the scan is true iff some slot from `start` on is active |
| AudioEngine.IsPlaying | audioengine.cpp:148-155 | `isPlaying` iff the number of busy slots is positive |
| SampleLoader.NewLoader | sdloader.cpp:7-13 | every slot empty and consistent |
| SampleLoader.CappedSize | sdloader.cpp:77-83 | a size above 32768 becomes 32768, any other is kept |
| SampleLoader.FreeSample | sdloader.cpp:118-130 | an in-range slot becomes unloaded with size 0 and no buffer; out of range nothing changes; other slots unchanged; slot invariant kept |
| SampleLoader.LoadSample | sdloader.cpp:47-116 | success iff the slot is in range and the file exists, opens, is non-empty, is allocated and fully read; out of range nothing changes; any other failure leaves the slot empty even if it was loaded; success stores the first min(size, 32768) bytes; other slots unchanged; slot invariant kept |
| SampleLoader.LongFileTruncated | sdloader.cpp:77-83 | an over-long file loads as its first 32768 bytes |
| SampleLoader.LoadCustomSample | sdloader.cpp:180-186 | `loadCustomSample` behaves exactly like `loadSample` |
| SampleLoader.Attempted | sdloader.cpp:47-116 | the slot one load attempt leaves is consistent |
| SampleLoader.LoadAllFrom | sdloader.cpp:28-36 | the loop from `start` attempts every later slot and reports true iff all those loads succeed |
| SampleLoader.LoadAllSamples | sdloader.cpp:23-45 | each slot ends as its own file's attempt left it; the result is true iff all six loads succeed, in which case all six are loaded |
| SampleLoader.UnloadFrom | sdloader.cpp:133-135 | every slot from `start` on is emptied, earlier ones are kept |
| SampleLoader.UnloadAllSamples | sdloader.cpp:132-137 | every slot empty |
| SampleLoader.GetSampleData | sdloader.cpp:139-144 | `getSampleData`; contract in `SampleLoader.GettersFailClosed` and `SampleLoader.GettersAgree` |
| SampleLoader.GetSampleSize | sdloader.cpp:146-151 | `getSampleSize`; contract in `SampleLoader.GettersFailClosed` and `SampleLoader.GettersAgree` |
| SampleLoader.IsSampleLoaded | sdloader.cpp:153-158 | `isSampleLoaded`; contract in `SampleLoader.GettersFailClosed` |
| SampleLoader.GettersFailClosed | sdloader.cpp:139-158 | out of range or unloaded: null and 0; loaded: the slot's buffer and size; `isSampleLoaded` iff in range and loaded |
| SampleLoader.GettersAgree | sdloader.cpp:139-151 | under the slot invariant a non-null buffer, a non-zero size and the loaded flag coincide, and the size is the buffer's length, at most 32768 |
| Layout.IsInGridArea | ui.cpp:175-193 | false left of or above the grid with the out-parameters untouched; otherwise the out-parameters are written with column and row even when the result is false; true only inside the 16 x 6 grid |
| Layout.GridHitArithmetic | ui.cpp:185-192 | true iff x >= 20, y >= 40, column < 16, row < 6, (x - 20) mod 18 < 16 and (y - 40) mod 15 < 12 |
| Layout.GridHitMatchesCells | ui.cpp:129-142 | a hit names the cell whose drawn rectangle holds the point, and every point of a drawn cell is a hit on that cell |
| Layout.HitAreasDisjoint | ui.cpp:195-208 | no point is in two buttons, and no button point is a grid hit |
| Layout.IsInBPMUpArea | ui.cpp:195-198 | `isInBPMUpArea`; contract in `Layout.ButtonEdgesInclusive` and `Layout.HitAreasDisjoint` |
| Layout.IsInBPMDownArea | ui.cpp:200-203 | `isInBPMDownArea`; contract in `Layout.ButtonEdgesInclusive` and `Layout.HitAreasDisjoint` |
| Layout.IsInPlayArea | ui.cpp:205-208 | `isInPlayArea`; contract in `Layout.ButtonEdgesInclusive` and `Layout.HitAreasDisjoint` |
| Layout.ButtonEdgesInclusive | ui.cpp:195-208 | for every point: a button's hit area is exactly its drawn `width x 25` box (ui.cpp:59-62) plus the column right of it and the row below it, and those edges are outside the drawn box |
| TouchInput.Classify | touchscreen.cpp:59-106 | grid result iff the UI grid test hits, with its cell; otherwise track and step -1; up, down and play/pause iff their button areas; never a clear action |
| TouchInput.ProcessTouchInput | touchscreen.cpp:36-107 | the action carries the mapped coordinates; it is a grid action on (track, step) iff the point lies in that cell's drawn rectangle, with track and step -1 otherwise; it is BPM up, BPM down or play/pause iff the point is in that button's area; never a clear action |
| TouchInput.GridClassification | touchscreen.cpp:61-78 | a grid result has step (x - 20) / 18 in [0, 16) and track (y - 40) / 15 in [0, 6); every point of a drawn cell classifies as that cell |
| TouchInput.GapsAreNotGrid | touchscreen.cpp:71-75 | points in the column or row gaps are never grid touches |
| TouchInput.TouchAgreesWithUi | touchscreen.cpp:61-87 | the handler reports a grid touch at (t, s) iff the UI's `isInGridArea` returns true with out-parameters (t, s), whatever they held before |
| TouchInput.IsValidTouch | touchscreen.cpp:141-146 | valid iff 10 <= z <= 1000, 150 <= x <= 920, 120 <= y <= 940 |
| Timing.Tick | driftone_main.cpp:94-98 | not due: the clock is unchanged; due: the sequencer advances once and the step time becomes `now` |
| Timing.PollSplit | driftone_main.cpp:90-98 | polling for a + b milliseconds is polling for a, then for b |
| Timing.PollPhase | driftone_main.cpp:94-98 | under millisecond polling with no wrap inside the window, k intervals and r < interval more milliseconds after a step give exactly k advances, the last exactly k intervals after the start |
| Timing.QuietPolls | driftone_main.cpp:94 | polls within one interval of the last step change nothing (no wrap inside the window) |
| Timing.OneInterval | driftone_main.cpp:94-98 | one interval of millisecond polls advances exactly once, on the last poll (no wrap inside the window) |
| Timing.StepsPerInterval | driftone_main.cpp:94-98 | when `loop` polls every millisecond and there is no wrap inside the window, k whole intervals of polls give exactly k advances, without drift |
| Timing.OneKickPerBeat | sequencer.cpp:22-26 | any four consecutive steps hold exactly one kick of the demo pattern |
| Timing.KickAdvancesFollowPattern | driftone_main.cpp:97-102 | with the kick row holding the demo pattern, the advances landing on an active kick step are the pattern's kicks after the current step |
| Triggering.QueuedQualify | driftone_main.cpp:101-109 | every queued track is in range, on at the current step, and has a non-null, non-empty sample |
| Triggering.QualifiersQueued | driftone_main.cpp:101-109 | every such track is queued |
| Triggering.QueueIncreasing | driftone_main.cpp:101 | tracks are queued in increasing order, each once |
| Triggering.VoiceFor | audioengine.cpp:69-73 | the voice a qualifying track starts is active at position 0 with the slot's buffer and size |
| Triggering.TriggerFrom | driftone_main.cpp:101-110 | the trigger loop over the six tracks; contract in `Triggering.TriggerCount`, `Triggering.TriggerPlacesInFree`, `Triggering.TriggerSlot`, `Triggering.TriggerFillsInOrder` and `Triggering.TriggerKeepsWf` |
| Triggering.TriggerCount | driftone_main.cpp:101-110 | the trigger loop adds one voice per qualifying track until all four are busy |
| Triggering.TriggerCountPlay | driftone_main.cpp:106-107 | the same count at a qualifying track: one more voice, capped at four, then the rest |
| Triggering.PlayThenRest | driftone_main.cpp:101-110 | at a qualifying track the loop plays it and goes on with the next track, and the queue is that track followed by the rest |
| Triggering.NothingQueuedNothingPlayed | driftone_main.cpp:101-110 | with no qualifying track the pool is unchanged |
| Triggering.PlayTrack | driftone_main.cpp:106-107 | one qualifying track's `playSample` adds a voice unless all four are busy |
| Triggering.TriggerKeepsWf | driftone_main.cpp:101-110 | with a consistent sample table the loop keeps every voice well formed |
| Triggering.TriggerFillsInOrder | driftone_main.cpp:101-110 | the special case of `Triggering.TriggerPlacesInFree` where the busy slots form a prefix: into a pool with the first m slots busy, the k-th qualifying track takes slot m + k; tracks beyond the pool's capacity are dropped; lower tracks win |
| Triggering.FreeRank | audioengine.cpp:67-68 | the number of idle slots below slot i, at most i: the rank of slot i among the idle slots the search in `playSample` meets |
| Triggering.PlaceInFree | driftone_main.cpp:101-110 | reference placement: the idle slot of rank k takes the k-th queued track, every other slot is unchanged; related to the loop by `Triggering.TriggerPlacesInFree` |
| Triggering.TriggerPlacesInFree | driftone_main.cpp:101-110 | for any pool, gaps included, the trigger loop equals the reference placement: the k-th qualifying track takes the k-th idle slot in slot order, busy slots are untouched, tracks beyond the idle slots are dropped |
| Triggering.TriggerSlot | driftone_main.cpp:101-110 | slot by slot: a busy slot keeps its voice; an idle slot of rank k takes the k-th qualifying track if there is one, and is unchanged otherwise |
| Triggering.PlayIntoFirstFree | audioengine.cpp:63-83 | a qualifying track lands in the first idle slot, or nowhere, leaving the pool unchanged, when all four are busy |
| Triggering.PlaceShift | audioengine.cpp:67-73 | the induction step: filling the first idle slot with the first queued track, then placing the rest, is placing the whole queue |
| Triggering.PlaceShiftAt | audioengine.cpp:67-73 | the same step for one slot |
| Triggering.FreeRankAfterOccupy | audioengine.cpp:67-72 | occupying idle slot j lowers the rank of every slot above j by one and keeps the ranks at or below j |
| Triggering.FreeRankBelowFirstFree | audioengine.cpp:67-68 | when every slot below i is busy, slot i has rank 0 |
| Triggering.FullPoolPlacesNothing | audioengine.cpp:67-83 | with all four slots busy, no queue places anything |
| Triggering.GapIsSkipped | driftone_main.cpp:101-110 | with slot 1 busy and tracks 0 and 1 qualifying, track 0 takes slot 0 and track 1 skips the busy slot to take slot 2 |
| Triggering.FullPoolIgnores | audioengine.cpp:67-83 | into a full pool nothing is started |
| Triggering.PlayIntoBusyPrefix | audioengine.cpp:67-73 | a qualifying track played into a pool whose first m < 4 slots are busy lands in slot m |
| Transport.Quotient | driftone_main.cpp:130 | the repeated-subtraction quotient never exceeds the dividend, so the interval fits the 32-bit `stepInterval` |
| Transport.QuotientBounds | driftone_main.cpp:130 | the quotient q of a by d is rounded down: q * d <= a < (q + 1) * d |
| Transport.QuotientUnique | driftone_main.cpp:130 | rounding down determines the quotient: any q with q * d <= a < (q + 1) * d is it |
| Transport.QuotientIsDivision | driftone_main.cpp:130 | the quotient is integer division `a / d`, as C computes it for non-negative operands |
| Transport.IntervalFor | driftone_main.cpp:130 | the step interval `60000 / (bpm * 4)`; contract in `Transport.IntervalForRoundsDown`, `Transport.IntervalValues` and `Transport.IntervalRange` |
| Transport.IntervalForRoundsDown | driftone_main.cpp:130 | the step interval for a tempo is 60000 / (bpm * 4), rounded down |
| Transport.IntervalValues | driftone_main.cpp:51 | 250 ms at 60 BPM, 75 at 200, the initial 125 at 120, and 267 and 73 at 56 and 204, the extreme tempos the buttons reach |
| Transport.IntervalRange | driftone_main.cpp:130 | every tempo a valid sequencer holds, 56 to 204 BPM, gives an interval of 73 to 267 ms |
| Transport.Initial | driftone_main.cpp:72-81 | after `setup`: step time 0, interval 125, running at step 0, engine initialised and silent, state valid |
| Transport.InitialPattern | driftone_main.cpp:72 | `setup` leaves exactly the demo pattern on the grid |
| Transport.TransportStep | driftone_main.cpp:94-110 | the clock ticks; not due: nothing changes; due: only the voices change besides the clock; the sample table and the ring are untouched; a valid state keeps a valid engine |
| Transport.TransportStepTriggers | driftone_main.cpp:98-102 | the triggers are chosen on the step the play head has just moved to |
| Transport.TransportStepCount | driftone_main.cpp:101-110 | a due step adds one voice per track active on the new step, up to four |
| Transport.SilentStepKeepsVoices | driftone_main.cpp:101-110 | a due step with no qualifying track leaves the engine unchanged |
| Transport.TransportStepKeepsValid | driftone_main.cpp:94-110 | the transport keeps the firmware state valid |
| Transport.PausedRetriggers | driftone_main.cpp:98-110 | paused and due: the play head stays, and the tracks active on the unchanged step trigger again |
| Transport.NoCatchUp | driftone_main.cpp:94-95 | after a step at `now`, any call less than one interval later does nothing, however late `now` was |
| Transport.HalfSecondIsOneBeat | driftone_main.cpp:51 | at 120 BPM, when `loop` polls every millisecond and there is no wrap inside the window, 500 ms of polling advances the sequencer exactly four times, ending exactly 500 ms later; if the kick row holds the demo pattern, the play head lands on a kick step on exactly one of those four advances |
| Transport.GateWithinValidPressure | driftone_main.cpp:119 | the loop's pressure gate excludes 10 and 1000, which `isValidTouch` accepts |
| Transport.Dispatch | driftone_main.cpp:122-147 | grid toggles exactly its cell; tempo buttons move the tempo and set the interval to 60000 / (bpm * 4) rounded down; play/pause flips the flag; others change nothing; the step time is never touched; clock validity kept |
| Transport.LoopIteration | driftone_main.cpp:90-154 | one iteration runs the transport, then, if the pressure passes the gate, dispatches the classified touch on the transport's clock (otherwise the clock is the transport's), then one audio tick on the transport's engine, whose output is the iteration's output; the state stays valid and the sample table is never touched |
| Transport.LoopIterationClock | driftone_main.cpp:117-147 | the step time after an iteration is the transport's; without a touch past the gate the clock is exactly the transport's |
| Transport.LoopIterationEmits | driftone_main.cpp:153 | the emitted sample is the ring cell just before the new cursor |
| Transport.TouchDoesNotReachAudio | driftone_main.cpp:117-153 | iterations that differ only in the touch give the same engine and output |

## Left out

- PWM output (`ledcSetup`, `ledcAttachPin`, `ledcWrite`): hardware. The written value is the second component of `AudioEngine.Update`. The mid-level writes of `init` and `stopAllSamples` are not modelled.
- `Serial` logging: it has no effect on state.
- `millis`, `micros`: clock readings are parameters. `delay(50)` (the touch debounce) is not modelled.
- Timing.StepsPerInterval, Timing.PollPhase, Timing.OneInterval, Timing.QuietPolls, Transport.HalfSecondIsOneBeat: the polling lemmas treat each loop iteration as instantaneous and poll once per millisecond. On the device, `delay(50)` after a touch and any late poll move a step later, and because a step sets `lastStepTime` to the poll's time the lateness carries into every later step. The lemmas do not bound that drift. They also exclude a wrap of the 32-bit millisecond counter inside the window.
- The SD library and `malloc`/`free`:
  - a file is a map entry giving the open outcome, the reported size, whether allocation succeeds, and the bytes a read delivers;
  - buffer ownership and freeing are not modelled, and a voice holds the sample's bytes rather than a pointer into the loader.
- The floating-point gain `(sample - 128) * volume`: the mixer is modelled at the unity gain every caller uses. `volume` is carried as a `real` field that `setMasterVolume` writes but the mixer ignores.
- Arduino `map` in `mapTouchX`/`mapTouchY`: passed in as functions, and properties are stated on the screen coordinates they produce.
- `getTouch` and the panel hardware: the reading is a parameter.
- `calibrate`, `init` of the loader and touch handler, the destructor, and `listSamples`: display, logging or hardware set-up.
- All drawing in `ui.cpp`: only the rectangles `drawStep` and `drawButton` fill are modelled, to relate the hit tests to what is drawn.
- The SD-card failure halt in `setup` (an endless loop): not modelled. `Transport.Initial` starts from a mounted card.
- The getters `getBPM`, `getCurrentStep`, `isPlaying` of the sequencer: these are field reads in the model.
- Transport.Dispatch: requires a valid sequencer (step within the grid, tempo within one increment of the bounds). This holds for every reachable state (`Transport.LoopIteration` keeps it), but the dispatch itself would run on any state.
- AudioEngine.Update: requires a valid engine (well-formed voices, cursor within the ring). The firmware's `uint16_t` cursor never leaves [0, 512], and the model keeps it there.
- AudioEngine.MixCell: models the gain only at 1.0; other gains go through float truncation that is not modelled.
