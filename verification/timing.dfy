/** The step clock of the main loop (driftone_main.cpp): the sequencer
    together with the two timing globals, the time of the last step and the
    step interval, both in milliseconds of the wrapping 32-bit `millis`
    clock. The clock is polled, so time enters as a parameter. */
module Timing {
  import opened Units
  import S = Sequencer

  datatype Clock = Clock(sequencer: S.Sequencer, lastStepTime: u32, stepInterval: u32)

  /** A step is due once at least `stepInterval` milliseconds have passed
      since the last one, measured across a wrap of the millisecond clock. */
  predicate StepDue(c: Clock, now: u32) {
    Elapsed(now, c.lastStepTime) >= c.stepInterval
  }

  /** The due check and advance of `loop`: when a step is due, record the
      time and advance the sequencer. A late call advances once only. */
  function Tick(c: Clock, now: u32): (r: Clock)
    ensures !StepDue(c, now) ==> r == c
    ensures StepDue(c, now) ==> r == Clock(S.NextStep(c.sequencer), now, c.stepInterval)
  {
    if Elapsed(now, c.lastStepTime) >= c.stepInterval then
      Clock(S.NextStep(c.sequencer), now, c.stepInterval)
    else c
  }

  /** Polling the clock once per millisecond, at `now`, `now + 1`, ...,
      `now + n - 1`: the clock after the last of those `n` polls. */
  function Poll(c: Clock, now: nat, n: nat): Clock
    requires now + n <= U32_MODULUS
    decreases n
  {
    if n == 0 then c else Tick(Poll(c, now, n - 1), now + n - 1)
  }

  /** Polling for `a + b` milliseconds is polling for `a`, then for `b`. */
  lemma {:induction false} PollSplit(c: Clock, now: nat, a: nat, b: nat)
    requires now + a + b <= U32_MODULUS
    ensures Poll(c, now, a + b) == Poll(Poll(c, now, a), now + a, b)
    decreases b
  {
    if b > 0 {
      PollSplit(c, now, a, b - 1);
    }
  }

  /** The length of `k` intervals of `I` milliseconds, `k * I`, built up
      one interval at a time. */
  function Intervals(k: nat, I: nat): nat
  {
    if k == 0 then 0 else Intervals(k - 1, I) + I
  }

  /** The phase of the clock under millisecond polling: `n` milliseconds
      of polls after the last step, with `n` being `k` whole intervals and
      `r` more milliseconds, the clock has advanced exactly `k` times, the
      last time exactly `k` intervals after the start. */
  lemma {:induction false} PollPhase(c: Clock, k: nat, r: nat, n: nat)
    requires 0 <= r < c.stepInterval && n == Intervals(k, c.stepInterval) + r
    requires c.lastStepTime + n < U32_MODULUS
    ensures Poll(c, c.lastStepTime + 1, n)
      == Clock(S.NextStepN(c.sequencer, k), c.lastStepTime + Intervals(k, c.stepInterval), c.stepInterval)
    decreases k, r
  {
    if r > 0 {
      PollPhase(c, k, r - 1, n - 1);
    } else if k > 0 {
      PollPhase(c, k - 1, c.stepInterval - 1, n - 1);
    }
  }

  /** Polls before the interval has elapsed change nothing. */
  lemma QuietPolls(c: Clock, r: nat)
    requires r < c.stepInterval && c.lastStepTime + r < U32_MODULUS
    ensures Poll(c, c.lastStepTime + 1, r) == c
  {
    PollPhase(c, 0, r, r);
  }

  /** One interval of millisecond polls after the last step: only the
      last poll is due, and it advances. */
  lemma OneInterval(c: Clock)
    requires c.stepInterval > 0 && c.lastStepTime + c.stepInterval < U32_MODULUS
    ensures Poll(c, c.lastStepTime + 1, c.stepInterval)
      == Clock(S.NextStep(c.sequencer), c.lastStepTime + c.stepInterval, c.stepInterval)
  {
    PollPhase(c, 1, 0, c.stepInterval);
  }

  /** Polled every millisecond for `k` whole intervals (`n` milliseconds),
      the clock advances exactly `k` times, each advance exactly one
      interval after the one before: no drift, no skipped or doubled step. */
  lemma StepsPerInterval(c: Clock, k: nat, n: nat)
    requires c.stepInterval > 0 && n == Intervals(k, c.stepInterval)
    requires c.lastStepTime + n < U32_MODULUS
    ensures Poll(c, c.lastStepTime + 1, n) == Clock(S.NextStepN(c.sequencer, k), c.lastStepTime + n, c.stepInterval)
  {
    PollPhase(c, k, 0, n);
  }

  /** How many of the `n` steps after `c` hold a kick in the demonstration
      pattern. */
  function KicksAfter(c: int, n: nat): (k: nat)
    ensures k <= n
  {
    if n == 0 then 0
    else KicksAfter(c, n - 1) + (if S.DemoPattern(0, (c + n) % S.NUM_STEPS) then 1 else 0)
  }

  /** How many of the first `n` advances of `s` land the play head on a
      step where `track` is on: the steps on which the transport considers
      `track` for a trigger. */
  function ActiveOnAdvances(s: S.Sequencer, track: int, n: nat): (k: nat)
    ensures k <= n
  {
    if n == 0 then 0
    else
      var t := S.NextStepN(s, n);
      ActiveOnAdvances(s, track, n - 1) + (if S.IsStepActive(t, track, t.currentStep) then 1 else 0)
  }

  /** With the kick row holding the demonstration pattern, the kick steps the
      play head lands on are the pattern's kicks after the current step. */
  lemma {:induction false} KickAdvancesFollowPattern(s: S.Sequencer, n: nat)
    requires s.Valid() && s.isRunning
    requires forall st | 0 <= st < S.NUM_STEPS :: s.steps[0][st] == S.DemoPattern(0, st)
    ensures ActiveOnAdvances(s, 0, n) == KicksAfter(s.currentStep, n)
  {
    if n > 0 {
      KickAdvancesFollowPattern(s, n - 1);
      S.NextStepNPosition(s, n);
      S.NextStepNKeepsGrid(s, n);
    }
  }

  /** Of any four consecutive steps, exactly one is a kick step of the
      demonstration pattern. */
  lemma OneKickPerBeat(c: int)
    requires 0 <= c < S.NUM_STEPS
    ensures KicksAfter(c, 4) == 1
  {
    match c
    case 0 => case 1 => case 2 => case 3 => case 4 => case 5 => case 6 => case 7 =>
    case 8 => case 9 => case 10 => case 11 => case 12 => case 13 => case 14 => case 15 =>
  }

}
