/** The step sequencer: a 6 x 16 grid of on/off steps, the step being played,
    the tempo and a running flag (sequencer.h, sequencer.cpp). */
module Sequencer {

  const NUM_TRACKS: int := 6
  const NUM_STEPS: int := 16
  const MIN_BPM: int := 60
  const MAX_BPM: int := 200
  const DEFAULT_BPM: int := 120
  /** The amount `increaseBPM` and `decreaseBPM` move the tempo by. */
  const BPM_STEP: int := 5

  type Row = r: seq<bool> | |r| == NUM_STEPS witness seq(NUM_STEPS, _ => false)
  type Grid = g: seq<Row> | |g| == NUM_TRACKS witness seq(NUM_TRACKS, _ => seq(NUM_STEPS, _ => false))

  datatype Sequencer = Sequencer(steps: Grid, currentStep: int, bpm: int, isRunning: bool)
  {
    /** What the firmware keeps true of a sequencer at all times: the step is
        a column of the grid, and the tempo stays within one increment of the
        bounds (increaseBPM and decreaseBPM may overshoot them, see below). */
    predicate Valid() {
      && 0 <= currentStep < NUM_STEPS
      && MIN_BPM - BPM_STEP < bpm < MAX_BPM + BPM_STEP
    }
  }

  predicate InGrid(track: int, step: int) {
    0 <= track < NUM_TRACKS && 0 <= step < NUM_STEPS
  }

  function EmptyRow(): Row { seq(NUM_STEPS, _ => false) }
  function EmptyGrid(): Grid { seq(NUM_TRACKS, _ => EmptyRow()) }

  /** The constructor: step 0, 120 BPM, running, every step off. */
  function NewSequencer(): (s: Sequencer)
    ensures s.currentStep == 0 && s.bpm == DEFAULT_BPM && s.isRunning
    ensures forall t, st | InGrid(t, st) :: !s.steps[t][st]
    ensures s.Valid()
  {
    Sequencer(EmptyGrid(), 0, DEFAULT_BPM, true)
  }

  /** The demonstration pattern `init` switches on: the kick (track 0) on
      every beat, the snare (track 1) on beats two and four, the hi-hat
      (track 2) on every off-beat sixteenth. */
  predicate DemoPattern(track: int, step: int) {
    || (track == 0 && step in {0, 4, 8, 12})
    || (track == 1 && step in {4, 12})
    || (track == 2 && 1 <= step < NUM_STEPS && step % 2 == 1)
  }

  /** `init` only switches steps on; it never clears a step already set. */
  function Init(s: Sequencer): (r: Sequencer)
    ensures forall t, st | InGrid(t, st) :: r.steps[t][st] == (s.steps[t][st] || DemoPattern(t, st))
    ensures r.currentStep == s.currentStep && r.bpm == s.bpm && r.isRunning == s.isRunning
  {
    s.(steps := seq(NUM_TRACKS, t requires 0 <= t < NUM_TRACKS =>
      seq(NUM_STEPS, st requires 0 <= st < NUM_STEPS => s.steps[t][st] || DemoPattern(t, st))))
  }

  /** Applying `init` twice is applying it once: the pattern is ORed in, so
      a second call finds every demonstration step already on. */
  lemma InitIdempotent(s: Sequencer)
    ensures Init(Init(s)) == Init(s)
  {
    var a := Init(Init(s)).steps;
    var b := Init(s).steps;
    forall t | 0 <= t < NUM_TRACKS
      ensures a[t] == b[t]
    {
      assert forall st | 0 <= st < NUM_STEPS :: a[t][st] == b[t][st];
    }
  }

  /** On a fresh sequencer, `init` leaves exactly the demonstration pattern:
      a step is on iff the pattern has it, at step 0, 120 BPM, running. */
  lemma InitOfNewIsDemo()
    ensures forall t, st | InGrid(t, st) :: Init(NewSequencer()).steps[t][st] == DemoPattern(t, st)
    ensures forall t, st :: IsStepActive(Init(NewSequencer()), t, st) <==> InGrid(t, st) && DemoPattern(t, st)
    ensures Init(NewSequencer()).Valid() && Init(NewSequencer()).currentStep == 0
    ensures Init(NewSequencer()).bpm == DEFAULT_BPM && Init(NewSequencer()).isRunning
  {
  }

  /** Advance the play head by one column when running; a paused sequencer
      does not move. */
  function NextStep(s: Sequencer): (r: Sequencer)
    ensures !s.isRunning ==> r == s
    ensures s.isRunning && 0 <= s.currentStep < NUM_STEPS ==> r.currentStep == (s.currentStep + 1) % NUM_STEPS
    ensures r.steps == s.steps && r.bpm == s.bpm && r.isRunning == s.isRunning
    ensures s.Valid() ==> r.Valid()
  {
    if !s.isRunning then s
    else if s.currentStep + 1 >= NUM_STEPS then s.(currentStep := 0)
    else s.(currentStep := s.currentStep + 1)
  }

  /** `NextStep` applied `k` times. */
  function NextStepN(s: Sequencer, k: nat): Sequencer
  {
    if k == 0 then s else NextStep(NextStepN(s, k - 1))
  }

  lemma {:induction false} NextStepNPosition(s: Sequencer, k: nat)
    requires s.Valid() && s.isRunning
    ensures NextStepN(s, k).currentStep == (s.currentStep + k) % NUM_STEPS
    ensures NextStepN(s, k).isRunning && NextStepN(s, k).Valid()
  {
    if k > 0 {
      NextStepNPosition(s, k - 1);
    }
  }

  /** Advancing never changes the grid, the tempo or the running flag. */
  lemma {:induction false} NextStepNKeepsGrid(s: Sequencer, k: nat)
    ensures NextStepN(s, k).steps == s.steps && NextStepN(s, k).bpm == s.bpm
    ensures NextStepN(s, k).isRunning == s.isRunning
  {
    if k > 0 {
      NextStepNKeepsGrid(s, k - 1);
    }
  }

  /** Sixteen advances of a running sequencer bring the play head back to
      where it started, whatever the tempo. */
  lemma SixteenStepsReturn(s: Sequencer)
    requires s.Valid() && s.isRunning
    ensures NextStepN(s, NUM_STEPS).currentStep == s.currentStep
  {
    NextStepNPosition(s, NUM_STEPS);
  }

  /** However many times a paused sequencer is advanced, it does not move. */
  lemma {:induction false} PausedNeverMoves(s: Sequencer, k: nat)
    requires !s.isRunning
    ensures NextStepN(s, k) == s
  {
    if k > 0 {
      PausedNeverMoves(s, k - 1);
    }
  }

  /** `reset` puts the play head back to step 0 and touches nothing else. */
  function Reset(s: Sequencer): (r: Sequencer)
    ensures r.currentStep == 0
    ensures r.steps == s.steps && r.bpm == s.bpm && r.isRunning == s.isRunning
    ensures s.Valid() ==> r.Valid()
  {
    s.(currentStep := 0)
  }

  /** Out-of-range coordinates read as an inactive step. */
  function IsStepActive(s: Sequencer, track: int, step: int): (r: bool)
    ensures r ==> InGrid(track, step)
    ensures InGrid(track, step) ==> r == s.steps[track][step]
  {
    if track < 0 || track >= NUM_TRACKS || step < 0 || step >= NUM_STEPS then false
    else s.steps[track][step]
  }

  function SetCell(g: Grid, track: int, step: int, v: bool): (r: Grid)
    requires InGrid(track, step)
    ensures r[track][step] == v
    ensures forall t, st | InGrid(t, st) && (t, st) != (track, step) :: r[t][st] == g[t][st]
  {
    g[track := g[track][step := v]]
  }

  /** Flip one step; out-of-range coordinates leave the sequencer unchanged. */
  function ToggleStep(s: Sequencer, track: int, step: int): (r: Sequencer)
    ensures !InGrid(track, step) ==> r == s
    ensures InGrid(track, step) ==> r.steps[track][step] == !s.steps[track][step]
    ensures forall t, st | InGrid(t, st) && (t, st) != (track, step) :: r.steps[t][st] == s.steps[t][st]
    ensures r.currentStep == s.currentStep && r.bpm == s.bpm && r.isRunning == s.isRunning
  {
    if track < 0 || track >= NUM_TRACKS || step < 0 || step >= NUM_STEPS then s
    else s.(steps := SetCell(s.steps, track, step, !s.steps[track][step]))
  }

  /** Write one step; out-of-range coordinates leave the sequencer unchanged. */
  function SetStep(s: Sequencer, track: int, step: int, active: bool): (r: Sequencer)
    ensures !InGrid(track, step) ==> r == s
    ensures forall t, st | InGrid(t, st) ::
      r.steps[t][st] == (if (t, st) == (track, step) then active else s.steps[t][st])
    ensures r.currentStep == s.currentStep && r.bpm == s.bpm && r.isRunning == s.isRunning
  {
    if track < 0 || track >= NUM_TRACKS || step < 0 || step >= NUM_STEPS then s
    else s.(steps := SetCell(s.steps, track, step, active))
  }

  /** Toggling the same step twice restores the sequencer exactly. */
  lemma ToggleTwiceRestores(s: Sequencer, track: int, step: int)
    ensures ToggleStep(ToggleStep(s, track, step), track, step) == s
  {
    if InGrid(track, step) {
      var r := ToggleStep(ToggleStep(s, track, step), track, step);
      forall t | 0 <= t < NUM_TRACKS
        ensures r.steps[t] == s.steps[t]
      {
        assert forall st | 0 <= st < NUM_STEPS :: r.steps[t][st] == s.steps[t][st];
      }
    }
  }

  /** Toggling is setting the step to its opposite. */
  lemma ToggleIsSetOpposite(s: Sequencer, track: int, step: int)
    ensures ToggleStep(s, track, step) == SetStep(s, track, step, !IsStepActive(s, track, step))
  {
  }

  /** Switch every step of one track off; any other track is untouched and an
      out-of-range track changes nothing. */
  function ClearTrack(s: Sequencer, track: int): (r: Sequencer)
    ensures !(0 <= track < NUM_TRACKS) ==> r == s
    ensures 0 <= track < NUM_TRACKS ==> forall st | 0 <= st < NUM_STEPS :: !r.steps[track][st]
    ensures forall t | 0 <= t < NUM_TRACKS && t != track :: r.steps[t] == s.steps[t]
    ensures r.currentStep == s.currentStep && r.bpm == s.bpm && r.isRunning == s.isRunning
  {
    if track < 0 || track >= NUM_TRACKS then s
    else s.(steps := s.steps[track := EmptyRow()])
  }

  /** The loop of `clearAll`: clear tracks `start`, `start + 1`, ..., 5 in turn. */
  function ClearTracksFrom(s: Sequencer, start: nat): (r: Sequencer)
    requires start <= NUM_TRACKS
    ensures forall t, st | InGrid(t, st) :: r.steps[t][st] == (s.steps[t][st] && t < start)
    ensures r.currentStep == s.currentStep && r.bpm == s.bpm && r.isRunning == s.isRunning
    decreases NUM_TRACKS - start
  {
    if start == NUM_TRACKS then s
    else ClearTracksFrom(ClearTrack(s, start), start + 1)
  }

  /** After `clearAll` no step is active. */
  function ClearAll(s: Sequencer): (r: Sequencer)
    ensures forall t, st :: !IsStepActive(r, t, st)
    ensures r.currentStep == s.currentStep && r.bpm == s.bpm && r.isRunning == s.isRunning
  {
    ClearTracksFrom(s, 0)
  }

  /** The playback controls change the running flag and nothing else. */
  function TogglePlayback(s: Sequencer): (r: Sequencer)
    ensures r.isRunning != s.isRunning
    ensures r.steps == s.steps && r.currentStep == s.currentStep && r.bpm == s.bpm
  {
    s.(isRunning := !s.isRunning)
  }

  function Play(s: Sequencer): (r: Sequencer)
    ensures r.isRunning
    ensures r.steps == s.steps && r.currentStep == s.currentStep && r.bpm == s.bpm
  {
    s.(isRunning := true)
  }

  function Pause(s: Sequencer): (r: Sequencer)
    ensures !r.isRunning
    ensures r.steps == s.steps && r.currentStep == s.currentStep && r.bpm == s.bpm
  {
    s.(isRunning := false)
  }

  /** Toggling playback twice restores the sequencer. */
  lemma TogglePlaybackTwice(s: Sequencer)
    ensures TogglePlayback(TogglePlayback(s)) == s
  {
  }

  /** A requested tempo is taken exactly when it lies within [60, 200];
      otherwise it is ignored. */
  function SetBPM(s: Sequencer, newBPM: int): (r: Sequencer)
    ensures r.bpm == newBPM <==> (MIN_BPM <= newBPM <= MAX_BPM || newBPM == s.bpm)
    ensures !(MIN_BPM <= newBPM <= MAX_BPM) ==> r == s
    ensures r.steps == s.steps && r.currentStep == s.currentStep && r.isRunning == s.isRunning
    ensures s.Valid() ==> r.Valid()
  {
    if newBPM >= MIN_BPM && newBPM <= MAX_BPM then s.(bpm := newBPM) else s
  }

  /** Five beats per minute faster, unless already at or above 200. The
      guard looks only at the old value, so the tempo may end above 200. */
  function IncreaseBPM(s: Sequencer): (r: Sequencer)
    ensures s.bpm >= MAX_BPM ==> r == s
    ensures s.bpm < MAX_BPM ==> r.bpm == s.bpm + BPM_STEP
    ensures r.steps == s.steps && r.currentStep == s.currentStep && r.isRunning == s.isRunning
    ensures s.Valid() ==> r.Valid()
  {
    if s.bpm < MAX_BPM then s.(bpm := s.bpm + BPM_STEP) else s
  }

  /** Five beats per minute slower, unless already at or below 60; the tempo
      may end below 60. */
  function DecreaseBPM(s: Sequencer): (r: Sequencer)
    ensures s.bpm <= MIN_BPM ==> r == s
    ensures s.bpm > MIN_BPM ==> r.bpm == s.bpm - BPM_STEP
    ensures r.steps == s.steps && r.currentStep == s.currentStep && r.isRunning == s.isRunning
    ensures s.Valid() ==> r.Valid()
  {
    if s.bpm > MIN_BPM then s.(bpm := s.bpm - BPM_STEP) else s
  }

  /** Tempos that are multiples of five stay within [60, 200] under the
      increment and decrement buttons. */
  lemma BpmBoundsKeptOnFiveGrid(s: Sequencer)
    requires MIN_BPM <= s.bpm <= MAX_BPM && s.bpm % BPM_STEP == 0
    ensures MIN_BPM <= IncreaseBPM(s).bpm <= MAX_BPM && IncreaseBPM(s).bpm % BPM_STEP == 0
    ensures MIN_BPM <= DecreaseBPM(s).bpm <= MAX_BPM && DecreaseBPM(s).bpm % BPM_STEP == 0
  {
  }

  /** Off the multiples of five the bound is overshot: `setBPM(198)` followed
      by `increaseBPM` gives 203, and `setBPM(62)` then `decreaseBPM` gives 57. */
  lemma BpmOvershoot(s: Sequencer)
    ensures IncreaseBPM(SetBPM(s, 198)).bpm == 203 > MAX_BPM
    ensures DecreaseBPM(SetBPM(s, 62)).bpm == 57 < MIN_BPM
    ensures IncreaseBPM(SetBPM(s, 199)).bpm == 204 && DecreaseBPM(SetBPM(s, 61)).bpm == 56
  {
  }
}
