/** The main loop of the firmware (driftone_main.cpp): the transport that
    advances the sequencer when a step is due and triggers the samples of
    the tracks active on the new step, the dispatch of touch actions, and
    the order in which one loop iteration runs them. The millisecond and
    microsecond clocks, and the touch panel reading, are parameters. */
module Transport {
  import opened Units
  import opened Timing
  import opened Triggering
  import S = Sequencer
  import AE = AudioEngine
  import SL = SampleLoader
  import TI = TouchInput

  /** The pressure window a touch must fall in, exclusive at both ends. */
  const MIN_PRESSURE: int := 10
  const MAX_PRESSURE: int := 1000

  /** The step interval at start-up, in milliseconds: a sixteenth note at
      120 BPM. */
  const INITIAL_STEP_INTERVAL: u32 := 125

  /** The clock is valid when the sequencer keeps its invariant and the
      step interval is the one the current tempo calls for. */
  predicate ClockValid(c: Clock) {
    c.sequencer.Valid() && c.stepInterval == IntervalFor(c.sequencer.bpm)
  }

  /** The firmware's global state: the clock, the audio engine and the
      sample table. */
  datatype Context = Context(clock: Clock, engine: AE.Engine, samples: SL.Slots)
  {
    predicate Valid() {
      ClockValid(clock) && engine.Valid() && SL.SlotsOk(samples)
    }
  }

  /** How many whole times `d` fits into `a`, counted by repeated
      subtraction: the integer division of the firmware for non-negative
      operands, kept free of non-linear arithmetic. */
  function Quotient(a: nat, d: nat): (q: nat)
    requires d > 0
    ensures q <= a
    decreases a
  {
    if a < d then 0 else 1 + Quotient(a - d, d)
  }

  /** The quotient is rounded down: `q * d <= a < (q + 1) * d`. */
  lemma {:induction false} QuotientBounds(a: nat, d: nat)
    requires d > 0
    ensures Quotient(a, d) * d <= a < (Quotient(a, d) + 1) * d
    decreases a
  {
    if a >= d {
      QuotientBounds(a - d, d);
    }
  }

  lemma MulMonotone(x: nat, y: nat, d: nat)
    requires x <= y
    ensures x * d <= y * d
  {
  }

  /** The length of a sixteenth note at `bpm` beats per minute, in whole
      milliseconds: `60000 / (bpm * 4)`. */
  function IntervalFor(bpm: int): u32
    requires bpm > 0
  {
    Quotient(60000, bpm * 4)
  }

  /** The interval is `60000 / (bpm * 4)` rounded down. */
  lemma IntervalForRoundsDown(bpm: int)
    requires bpm > 0
    ensures IntervalFor(bpm) == 60000 / (bpm * 4)
    ensures IntervalFor(bpm) * (bpm * 4) <= 60000 < (IntervalFor(bpm) + 1) * (bpm * 4)
  {
    QuotientBounds(60000, bpm * 4);
    QuotientIsDivision(60000, bpm * 4);
  }

  /** Rounding down determines the quotient: the only `q` with
      `q * d <= a < (q + 1) * d` is `Quotient(a, d)`. */
  lemma QuotientUnique(a: nat, d: nat, q: nat)
    requires d > 0 && q * d <= a < (q + 1) * d
    ensures Quotient(a, d) == q
  {
    QuotientBounds(a, d);
    var p := Quotient(a, d);
    if p < q {
      MulMonotone(p + 1, q, d);
    } else if p > q {
      MulMonotone(q + 1, p, d);
    }
  }

  /** The quotient is Dafny's `/`, which agrees with C's truncating division
      on non-negative operands. */
  lemma QuotientIsDivision(a: nat, d: nat)
    requires d > 0
    ensures Quotient(a, d) == a / d
  {
    QuotientUnique(a, d, a / d);
  }

  /** The intervals at the tempo bounds, at the default tempo, and at 56
      and 204 BPM, the extreme tempos the buttons reach by overshooting the
      bounds (from 61 and from 199). */
  lemma IntervalValues()
    ensures IntervalFor(S.MIN_BPM) == 250
    ensures IntervalFor(S.MAX_BPM) == 75
    ensures IntervalFor(S.DEFAULT_BPM) == INITIAL_STEP_INTERVAL
    ensures IntervalFor(56) == 267 && IntervalFor(204) == 73
  {
    QuotientUnique(60000, 240, 250);
    QuotientUnique(60000, 800, 75);
    QuotientUnique(60000, 480, 125);
    QuotientUnique(60000, 224, 267);
    QuotientUnique(60000, 816, 73);
  }

  /** Every tempo a valid sequencer can hold, 56 to 204 BPM, gives a step
      interval between 73 and 267 milliseconds. */
  lemma IntervalRange(bpm: int)
    requires S.MIN_BPM - S.BPM_STEP < bpm < S.MAX_BPM + S.BPM_STEP
    ensures 73 <= IntervalFor(bpm) <= 267
  {
    var d := bpm * 4;
    QuotientBounds(60000, d);
    var q := Quotient(60000, d);
    if q > 267 {
      MulMonotone(268, q, d);
    } else if q < 73 {
      MulMonotone(q + 1, 73, d);
    }
  }

  /** The state `setup` builds: the sequencer with its demonstration
      pattern, an initialised engine, all six samples loaded from `card` as
      far as they load, and the timing globals at their initial values. */
  function Initial(card: SL.Card): (ctx: Context)
    ensures ctx.Valid()
    ensures ctx.clock.lastStepTime == 0 && ctx.clock.stepInterval == INITIAL_STEP_INTERVAL
    ensures ctx.clock.sequencer.isRunning && ctx.clock.sequencer.currentStep == 0
    ensures ctx.engine.isInitialized && AE.CountActive(ctx.engine.voices) == 0
  {
    var voices := AE.Init(AE.NewEngine()).voices;
    AE.CountActiveNone(voices);
    IntervalValues();
    Context(
      Clock(S.Init(S.NewSequencer()), 0, INITIAL_STEP_INTERVAL),
      AE.Init(AE.NewEngine()),
      SL.LoadAllSamples(SL.NewLoader(), card).0)
  }

  /** `setup` leaves the grid holding exactly the demonstration pattern. */
  lemma InitialPattern(card: SL.Card)
    ensures forall t, st | S.InGrid(t, st) :: Initial(card).clock.sequencer.steps[t][st] == S.DemoPattern(t, st)
  {
    S.InitOfNewIsDemo();
  }

  // ---------------------------------------------------------------------
  // The transport step

  /** The transport part of `loop`: the clock ticks, and when it advanced,
      the tracks active on the step it now shows are triggered. Only the
      engine's voices change besides the clock; the output ring and the
      sample table do not. */
  function TransportStep(ctx: Context, now: u32): (r: Context)
    ensures r.clock == Tick(ctx.clock, now)
    ensures !StepDue(ctx.clock, now) ==> r == ctx
    ensures r.samples == ctx.samples
    ensures r.engine.outputBuffer == ctx.engine.outputBuffer && r.engine.bufferPosition == ctx.engine.bufferPosition
    ensures r.engine.lastSampleTime == ctx.engine.lastSampleTime && r.engine.isInitialized == ctx.engine.isInitialized
    ensures ctx.Valid() ==> r.engine.Valid()
  {
    if StepDue(ctx.clock, now) then
      var c := Tick(ctx.clock, now);
      var voices := TriggerFrom(ctx.engine.voices, c.sequencer, ctx.samples, 0);
      assert ctx.Valid() ==> AE.PoolWf(voices) by {
        if ctx.Valid() {
          TriggerKeepsWf(ctx.engine.voices, c.sequencer, ctx.samples, 0);
        }
      }
      Context(c, ctx.engine.(voices := voices), ctx.samples)
    else ctx
  }

  /** The sequencer advances before the triggers are chosen: a due step
      triggers the tracks active on the step the play head moves to. */
  lemma TransportStepTriggers(ctx: Context, now: u32)
    requires StepDue(ctx.clock, now)
    ensures TransportStep(ctx, now).engine.voices
      == TriggerFrom(ctx.engine.voices, S.NextStep(ctx.clock.sequencer), ctx.samples, 0)
  {
  }

  /** A due step adds one voice per track active on the new step, until
      all four are busy. */
  lemma TransportStepCount(ctx: Context, now: u32)
    requires StepDue(ctx.clock, now)
    ensures AE.CountActive(TransportStep(ctx, now).engine.voices)
      == Min(AE.MAX_CONCURRENT_SAMPLES, AE.CountActive(ctx.engine.voices) + |QualifyingFrom(S.NextStep(ctx.clock.sequencer), ctx.samples, 0)|)
  {
    var next := S.NextStep(ctx.clock.sequencer);
    TransportStepTriggers(ctx, now);
    TriggerCount(ctx.engine.voices, next, ctx.samples, 0);
  }

  /** A due step on which no track qualifies leaves the voices as they
      were: nothing is started and nothing is stopped. */
  lemma SilentStepKeepsVoices(ctx: Context, now: u32)
    requires StepDue(ctx.clock, now)
    requires |QualifyingFrom(S.NextStep(ctx.clock.sequencer), ctx.samples, 0)| == 0
    ensures TransportStep(ctx, now).engine == ctx.engine
  {
    NothingQueuedNothingPlayed(ctx.engine.voices, S.NextStep(ctx.clock.sequencer), ctx.samples, 0);
  }

  /** The transport keeps the firmware state valid. */
  lemma TransportStepKeepsValid(ctx: Context, now: u32)
    requires ctx.Valid()
    ensures TransportStep(ctx, now).Valid()
  {
    if StepDue(ctx.clock, now) {
      TriggerKeepsWf(ctx.engine.voices, S.NextStep(ctx.clock.sequencer), ctx.samples, 0);
    }
  }

  /** A paused transport keeps its step but still triggers on every due
      call: the tracks active on the unchanged current step start again. */
  lemma PausedRetriggers(ctx: Context, now: u32)
    requires !ctx.clock.sequencer.isRunning && StepDue(ctx.clock, now)
    ensures TransportStep(ctx, now).clock.sequencer == ctx.clock.sequencer
    ensures TransportStep(ctx, now).engine.voices == TriggerFrom(ctx.engine.voices, ctx.clock.sequencer, ctx.samples, 0)
    ensures AE.CountActive(TransportStep(ctx, now).engine.voices)
      == Min(AE.MAX_CONCURRENT_SAMPLES, AE.CountActive(ctx.engine.voices) + |QualifyingFrom(ctx.clock.sequencer, ctx.samples, 0)|)
  {
    TransportStepTriggers(ctx, now);
    TransportStepCount(ctx, now);
  }

  /** No catch-up: after a step at `now`, every call less than one interval
      later does nothing, however late `now` itself was. */
  lemma NoCatchUp(ctx: Context, now: u32, later: u32)
    requires StepDue(ctx.clock, now)
    requires Elapsed(later, now) < ctx.clock.stepInterval
    ensures TransportStep(TransportStep(ctx, now), later) == TransportStep(ctx, now)
  {
  }

  /** At 120 BPM, half a second of millisecond polling advances a running
      sequencer four steps, one beat. When the kick row holds the
      demonstration pattern, as `setup` leaves it, the play head lands on a
      kick step exactly once in those four advances. */
  lemma HalfSecondIsOneBeat(c: Clock)
    requires ClockValid(c) && c.sequencer.bpm == S.DEFAULT_BPM && c.sequencer.isRunning
    requires c.lastStepTime + 500 < U32_MODULUS
    ensures Poll(c, c.lastStepTime + 1, 500).sequencer == S.NextStepN(c.sequencer, 4)
    ensures Poll(c, c.lastStepTime + 1, 500).sequencer.currentStep == (c.sequencer.currentStep + 4) % S.NUM_STEPS
    ensures Poll(c, c.lastStepTime + 1, 500).lastStepTime == c.lastStepTime + 500
    ensures (forall st | 0 <= st < S.NUM_STEPS :: c.sequencer.steps[0][st] == S.DemoPattern(0, st)) ==>
      ActiveOnAdvances(c.sequencer, 0, 4) == 1
  {
    IntervalValues();
    assert Intervals(4, c.stepInterval) == 500;
    StepsPerInterval(c, 4, 500);
    S.NextStepNPosition(c.sequencer, 4);
    if forall st | 0 <= st < S.NUM_STEPS :: c.sequencer.steps[0][st] == S.DemoPattern(0, st) {
      KickAdvancesFollowPattern(c.sequencer, 4);
      OneKickPerBeat(c.sequencer.currentStep);
    }
  }

  // ---------------------------------------------------------------------
  // Touch dispatch and the loop iteration

  /** The pressure gate of `loop`, exclusive at both ends. */
  predicate TouchGate(z: int) {
    MIN_PRESSURE < z < MAX_PRESSURE
  }

  /** The loop's gate is strictly narrower than `isValidTouch`'s pressure
      range, which includes both ends. */
  lemma GateWithinValidPressure(p: TI.TSPoint)
    ensures TouchGate(p.z) && TI.TS_MINX <= p.x <= TI.TS_MAXX && TI.TS_MINY <= p.y <= TI.TS_MAXY ==> TI.IsValidTouch(p)
    ensures !TouchGate(MIN_PRESSURE) && !TouchGate(MAX_PRESSURE)
    ensures TI.IsValidTouch(TI.TSPoint(TI.TS_MINX, TI.TS_MINY, MIN_PRESSURE))
    ensures TI.IsValidTouch(TI.TSPoint(TI.TS_MINX, TI.TS_MINY, MAX_PRESSURE))
  {
  }

  /** The `switch` over a touch action. A grid action toggles its cell;
      the tempo buttons move the tempo and recompute the step interval from
      it, without touching the time of the last step; play/pause flips the
      running flag; every other action is ignored. */
  function Dispatch(c: Clock, a: TI.TouchAction): (r: Clock)
    requires c.sequencer.Valid()
    ensures r.lastStepTime == c.lastStepTime
    ensures a.kind == TI.TouchGrid ==> r == c.(sequencer := S.ToggleStep(c.sequencer, a.track, a.step))
    ensures a.kind == TI.TouchBpmUp ==> r.sequencer == S.IncreaseBPM(c.sequencer)
    ensures a.kind == TI.TouchBpmDown ==> r.sequencer == S.DecreaseBPM(c.sequencer)
    ensures a.kind == TI.TouchBpmUp || a.kind == TI.TouchBpmDown ==>
      r.stepInterval * (r.sequencer.bpm * 4) <= 60000 < (r.stepInterval + 1) * (r.sequencer.bpm * 4)
    ensures a.kind == TI.TouchPlayPause ==>
      r == c.(sequencer := c.sequencer.(isRunning := !c.sequencer.isRunning))
    ensures a.kind !in {TI.TouchGrid, TI.TouchBpmUp, TI.TouchBpmDown, TI.TouchPlayPause} ==> r == c
    ensures ClockValid(c) ==> ClockValid(r)
  {
    match a.kind
    case TouchGrid => c.(sequencer := S.ToggleStep(c.sequencer, a.track, a.step))
    case TouchBpmUp =>
      var faster := S.IncreaseBPM(c.sequencer);
      QuotientBounds(60000, faster.bpm * 4);
      Clock(faster, c.lastStepTime, IntervalFor(faster.bpm))
    case TouchBpmDown =>
      var slower := S.DecreaseBPM(c.sequencer);
      QuotientBounds(60000, slower.bpm * 4);
      Clock(slower, c.lastStepTime, IntervalFor(slower.bpm))
    case TouchPlayPause => c.(sequencer := S.TogglePlayback(c.sequencer))
    case _ => c
  }

  /** One iteration of `loop`: the transport at millisecond time `nowMs`,
      then the touch `touch` if its pressure passes the gate (classified
      through the panel-to-screen maps), then one audio tick at microsecond
      time `nowUs`. The second component is the sample written to the PWM
      output, if any. The firmware state stays valid and the sample table
      is never touched after `setup`. */
  function LoopIteration(ctx: Context, nowMs: u32, touch: TI.TSPoint,
                         mapTouchX: int -> int, mapTouchY: int -> int, nowUs: u32): (r: (Context, Option<byte>))
    requires ctx.Valid()
    ensures r.0.Valid()
    ensures r.0.samples == ctx.samples
    ensures (r.0.engine, r.1) == AE.Update(TransportStep(ctx, nowMs).engine, nowUs)
    ensures TouchGate(touch.z) ==>
      r.0.clock == Dispatch(TransportStep(ctx, nowMs).clock, TI.ProcessTouchInput(mapTouchX, mapTouchY, touch.x, touch.y))
    ensures !TouchGate(touch.z) ==> r.0.clock == TransportStep(ctx, nowMs).clock
  {
    var stepped := TransportStep(ctx, nowMs);
    TransportStepKeepsValid(ctx, nowMs);
    var clock :=
      if TouchGate(touch.z) then Dispatch(stepped.clock, TI.ProcessTouchInput(mapTouchX, mapTouchY, touch.x, touch.y))
      else stepped.clock;
    var ticked := AE.Update(stepped.engine, nowUs);
    (Context(clock, ticked.0, stepped.samples), ticked.1)
  }

  /** The clock after one iteration: the step time is the transport's,
      whatever was touched, and without a touch past the gate the clock is
      exactly where the transport left it. */
  lemma LoopIterationClock(ctx: Context, nowMs: u32, touch: TI.TSPoint,
                           mapTouchX: int -> int, mapTouchY: int -> int, nowUs: u32)
    requires ctx.Valid()
    ensures LoopIteration(ctx, nowMs, touch, mapTouchX, mapTouchY, nowUs).0.clock.lastStepTime == Tick(ctx.clock, nowMs).lastStepTime
    ensures !TouchGate(touch.z) ==> LoopIteration(ctx, nowMs, touch, mapTouchX, mapTouchY, nowUs).0.clock == Tick(ctx.clock, nowMs)
  {
  }

  /** The sample an iteration writes to the output is the ring cell the
      audio tick just filled, the one before the new cursor. */
  lemma LoopIterationEmits(ctx: Context, nowMs: u32, touch: TI.TSPoint,
                           mapTouchX: int -> int, mapTouchY: int -> int, nowUs: u32)
    requires ctx.Valid()
    ensures var r := LoopIteration(ctx, nowMs, touch, mapTouchX, mapTouchY, nowUs);
      r.1.Some? ==> 0 < r.0.engine.bufferPosition && r.1.value == r.0.engine.outputBuffer[r.0.engine.bufferPosition - 1]
  {
  }

  /** The audio tick runs after the transport and is blind to the touch:
      two iterations that differ only in the touch produce the same engine
      and the same output sample. */
  lemma TouchDoesNotReachAudio(ctx: Context, nowMs: u32, t1: TI.TSPoint, t2: TI.TSPoint,
                               mapTouchX: int -> int, mapTouchY: int -> int, nowUs: u32)
    requires ctx.Valid()
    ensures LoopIteration(ctx, nowMs, t1, mapTouchX, mapTouchY, nowUs).0.engine
      == LoopIteration(ctx, nowMs, t2, mapTouchX, mapTouchY, nowUs).0.engine
    ensures LoopIteration(ctx, nowMs, t1, mapTouchX, mapTouchY, nowUs).1
      == LoopIteration(ctx, nowMs, t2, mapTouchX, mapTouchY, nowUs).1
  {
  }
}
