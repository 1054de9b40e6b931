/** Which samples a step starts (driftone_main.cpp): every track that is
    on at the current step and has a loaded sample calls `playSample`, in
    track order, and the voice pool takes them first come, first served. */
module Triggering {
  import opened Units
  import S = Sequencer
  import AE = AudioEngine
  import SL = SampleLoader

  /** Track `track` triggers on the sequencer's current step: the step is
      on and the track's slot yields a non-null buffer of non-zero size. */
  predicate Qualifies(s: S.Sequencer, slots: SL.Slots, track: int) {
    && S.IsStepActive(s, track, s.currentStep)
    && SL.GetSampleData(slots, track).Some?
    && SL.GetSampleSize(slots, track) > 0
  }

  /** The tracks from `track` on that trigger, in increasing order. */
  function QualifyingFrom(s: S.Sequencer, slots: SL.Slots, track: nat): (q: seq<nat>)
    requires track <= S.NUM_TRACKS
    ensures |q| <= S.NUM_TRACKS - track
    decreases S.NUM_TRACKS - track
  {
    if track == S.NUM_TRACKS then []
    else if Qualifies(s, slots, track) then [track] + QualifyingFrom(s, slots, track + 1)
    else QualifyingFrom(s, slots, track + 1)
  }

  /** Every queued track lies in range and qualifies. */
  lemma {:induction false} QueuedQualify(s: S.Sequencer, slots: SL.Slots, track: nat)
    requires track <= S.NUM_TRACKS
    ensures forall i | 0 <= i < |QualifyingFrom(s, slots, track)| ::
      track <= QualifyingFrom(s, slots, track)[i] < S.NUM_TRACKS && Qualifies(s, slots, QualifyingFrom(s, slots, track)[i])
    decreases S.NUM_TRACKS - track
  {
    if track < S.NUM_TRACKS {
      QueuedQualify(s, slots, track + 1);
    }
  }

  /** Every qualifying track is queued. */
  lemma {:induction false} QualifiersQueued(s: S.Sequencer, slots: SL.Slots, track: nat)
    requires track <= S.NUM_TRACKS
    ensures forall t | track <= t < S.NUM_TRACKS && Qualifies(s, slots, t) :: t in QualifyingFrom(s, slots, track)
    decreases S.NUM_TRACKS - track
  {
    if track < S.NUM_TRACKS {
      QualifiersQueued(s, slots, track + 1);
    }
  }

  /** The queue is in increasing track order, so each track appears once. */
  lemma {:induction false} QueueIncreasing(s: S.Sequencer, slots: SL.Slots, track: nat)
    requires track <= S.NUM_TRACKS
    ensures forall i | 0 < i < |QualifyingFrom(s, slots, track)| ::
      QualifyingFrom(s, slots, track)[i - 1] < QualifyingFrom(s, slots, track)[i]
    decreases S.NUM_TRACKS - track
  {
    if track < S.NUM_TRACKS {
      QueueIncreasing(s, slots, track + 1);
      QueuedQualify(s, slots, track + 1);
    }
  }

  /** The voice `playSample` starts for a qualifying track: its slot's
      buffer and size, from the beginning, at full volume. */
  function VoiceFor(slots: SL.Slots, track: int): (v: AE.Voice)
    ensures v.active && v.position == 0
    ensures SL.GetSampleData(slots, track).Some? ==> v.data == SL.GetSampleData(slots, track).value
    ensures v.size == SL.GetSampleSize(slots, track)
  {
    var data := SL.GetSampleData(slots, track);
    AE.Voice(if data.Some? then data.value else [], SL.GetSampleSize(slots, track), 0, true, 1.0)
  }

  /** The trigger loop from `track` on: every qualifying track calls
      `playSample` once, in track order, at the default volume of 1. */
  function TriggerFrom(p: AE.Pool, s: S.Sequencer, slots: SL.Slots, track: nat): AE.Pool
    requires track <= S.NUM_TRACKS
    decreases S.NUM_TRACKS - track
  {
    if track == S.NUM_TRACKS then p
    else if Qualifies(s, slots, track) then
      TriggerFrom(AE.PlaySample(p, SL.GetSampleData(slots, track), SL.GetSampleSize(slots, track), 1.0), s, slots, track + 1)
    else
      TriggerFrom(p, s, slots, track + 1)
  }

  /** Adding `q` requests to a pool of `c` voices, one at a time, each
      capped at four, is adding them all and capping once. */
  lemma CapAbsorbs(c: int, q: nat)
    ensures Min(AE.MAX_CONCURRENT_SAMPLES, Min(AE.MAX_CONCURRENT_SAMPLES, c + 1) + q)
      == Min(AE.MAX_CONCURRENT_SAMPLES, c + 1 + q)
  {
  }

  /** The pool gains one voice per qualifying track until all four are
      busy; the rest are dropped. */
  lemma {:induction false} TriggerCount(p: AE.Pool, s: S.Sequencer, slots: SL.Slots, track: nat)
    requires track <= S.NUM_TRACKS
    ensures AE.CountActive(TriggerFrom(p, s, slots, track))
      == Min(AE.MAX_CONCURRENT_SAMPLES, AE.CountActive(p) + |QualifyingFrom(s, slots, track)|)
    decreases S.NUM_TRACKS - track, 1
  {
    if track == S.NUM_TRACKS {
      AE.CountActiveAll(p);
    } else if Qualifies(s, slots, track) {
      TriggerCountPlay(p, s, slots, track);
    } else {
      TriggerCount(p, s, slots, track + 1);
    }
  }

  /** The step of `TriggerCount` at a qualifying track: one more voice,
      capped at four, then the rest of the queue. */
  lemma {:induction false} TriggerCountPlay(p: AE.Pool, s: S.Sequencer, slots: SL.Slots, track: nat)
    requires track < S.NUM_TRACKS && Qualifies(s, slots, track)
    ensures AE.CountActive(TriggerFrom(p, s, slots, track))
      == Min(AE.MAX_CONCURRENT_SAMPLES, AE.CountActive(p) + |QualifyingFrom(s, slots, track)|)
    decreases S.NUM_TRACKS - track, 0
  {
    var p' := PlayTrack(p, slots, track);
    var n := |QualifyingFrom(s, slots, track + 1)|;
    PlayThenRest(p, s, slots, track);
    TriggerCount(p', s, slots, track + 1);
    CapAbsorbs(AE.CountActive(p), n);
    assert AE.CountActive(TriggerFrom(p', s, slots, track + 1))
      == Min(AE.MAX_CONCURRENT_SAMPLES, Min(AE.MAX_CONCURRENT_SAMPLES, AE.CountActive(p) + 1) + n);
  }

  /** At a qualifying track the loop plays it and moves on: the queue
      loses its head. */
  lemma PlayThenRest(p: AE.Pool, s: S.Sequencer, slots: SL.Slots, track: nat)
    requires track < S.NUM_TRACKS && Qualifies(s, slots, track)
    ensures TriggerFrom(p, s, slots, track) == TriggerFrom(PlayTrack(p, slots, track), s, slots, track + 1)
    ensures QualifyingFrom(s, slots, track) == [track] + QualifyingFrom(s, slots, track + 1)
  {
  }

  /** With no qualifying track the pool is untouched. */
  lemma {:induction false} NothingQueuedNothingPlayed(p: AE.Pool, s: S.Sequencer, slots: SL.Slots, track: nat)
    requires track <= S.NUM_TRACKS && |QualifyingFrom(s, slots, track)| == 0
    ensures TriggerFrom(p, s, slots, track) == p
    decreases S.NUM_TRACKS - track
  {
    if track < S.NUM_TRACKS {
      NothingQueuedNothingPlayed(p, s, slots, track + 1);
    }
  }

  /** The `playSample` call of one qualifying track: it adds a voice
      unless all four are busy. */
  function PlayTrack(p: AE.Pool, slots: SL.Slots, track: int): (r: AE.Pool)
    requires SL.GetSampleData(slots, track).Some? && SL.GetSampleSize(slots, track) > 0
    ensures r == AE.PlaySample(p, SL.GetSampleData(slots, track), SL.GetSampleSize(slots, track), 1.0)
    ensures AE.CountActive(r) == Min(AE.MAX_CONCURRENT_SAMPLES, AE.CountActive(p) + 1)
  {
    var data := SL.GetSampleData(slots, track);
    AE.PlaySampleCount(p, data.value, SL.GetSampleSize(slots, track), 1.0);
    AE.PlaySample(p, data, SL.GetSampleSize(slots, track), 1.0)
  }

  /** The trigger loop keeps the pool well formed when the sample table
      is: every voice it starts has a size that fits its buffer. */
  lemma {:induction false} TriggerKeepsWf(p: AE.Pool, s: S.Sequencer, slots: SL.Slots, track: nat)
    requires track <= S.NUM_TRACKS && AE.PoolWf(p) && SL.SlotsOk(slots)
    ensures AE.PoolWf(TriggerFrom(p, s, slots, track))
    decreases S.NUM_TRACKS - track
  {
    if track < S.NUM_TRACKS {
      if Qualifies(s, slots, track) {
        var data := SL.GetSampleData(slots, track);
        var size := SL.GetSampleSize(slots, track);
        assert slots[track].Ok();
        AE.PlaySampleKeepsWf(p, data, size, 1.0);
        TriggerKeepsWf(AE.PlaySample(p, data, size, 1.0), s, slots, track + 1);
      } else {
        TriggerKeepsWf(p, s, slots, track + 1);
      }
    }
  }

  /** The first `m` slots busy and the rest idle. */
  predicate BusyPrefix(p: AE.Pool, m: nat) {
    forall i | 0 <= i < AE.MAX_CONCURRENT_SAMPLES :: p[i].active <==> i < m
  }

  /** Pool `p` with the tracks of queue `q` started, in order, in the
      slots from `m` on, as far as the pool reaches. */
  function FillInOrder(p: AE.Pool, slots: SL.Slots, q: seq<nat>, m: nat): (r: AE.Pool)
    ensures forall i | 0 <= i < AE.MAX_CONCURRENT_SAMPLES && !(m <= i < m + |q|) :: r[i] == p[i]
    ensures forall i | m <= i < Min(AE.MAX_CONCURRENT_SAMPLES, m + |q|) :: r[i] == VoiceFor(slots, q[i - m])
  {
    [Fill(p, slots, q, m, 0), Fill(p, slots, q, m, 1), Fill(p, slots, q, m, 2), Fill(p, slots, q, m, 3)]
  }

  /** Slot `i` of `FillInOrder(p, slots, q, m)`. */
  function Fill(p: AE.Pool, slots: SL.Slots, q: seq<nat>, m: nat, i: nat): AE.Voice
    requires i < AE.MAX_CONCURRENT_SAMPLES
  {
    if m <= i < m + |q| then VoiceFor(slots, q[i - m]) else p[i]
  }

  /** Lower tracks win: into a pool whose first `m` slots are busy, the
      qualifying tracks take the free slots in track order, the k-th of
      them slot `m + k`, and the tracks left over when the pool is full are
      dropped. */
  lemma {:induction false} TriggerFillsInOrder(p: AE.Pool, s: S.Sequencer, slots: SL.Slots, track: nat, m: nat)
    requires track <= S.NUM_TRACKS && m <= AE.MAX_CONCURRENT_SAMPLES && BusyPrefix(p, m)
    ensures TriggerFrom(p, s, slots, track) == FillInOrder(p, slots, QualifyingFrom(s, slots, track), m)
    decreases S.NUM_TRACKS - track
  {
    if track == S.NUM_TRACKS {
      assert FillInOrder(p, slots, [], m) == p;
    } else if !Qualifies(s, slots, track) {
      TriggerFillsInOrder(p, s, slots, track + 1, m);
    } else if m == AE.MAX_CONCURRENT_SAMPLES {
      FullPoolIgnores(p, slots, track);
      TriggerFillsInOrder(p, s, slots, track + 1, m);
      FullPoolFill(p, slots, QualifyingFrom(s, slots, track + 1), track);
    } else {
      var p' := p[m := VoiceFor(slots, track)];
      PlayIntoBusyPrefix(p, m, s, slots, track);
      TriggerFillsInOrder(p', s, slots, track + 1, m + 1);
      ShiftFill(p, p', slots, track, QualifyingFrom(s, slots, track + 1), m);
    }
  }

  /** Into a full pool nothing is started. */
  lemma FullPoolIgnores(p: AE.Pool, slots: SL.Slots, track: nat)
    requires BusyPrefix(p, AE.MAX_CONCURRENT_SAMPLES)
    ensures AE.PlaySample(p, SL.GetSampleData(slots, track), SL.GetSampleSize(slots, track), 1.0) == p
  {
  }

  lemma FullPoolFill(p: AE.Pool, slots: SL.Slots, q': seq<nat>, track: nat)
    ensures FillInOrder(p, slots, q', AE.MAX_CONCURRENT_SAMPLES) == FillInOrder(p, slots, [track] + q', AE.MAX_CONCURRENT_SAMPLES)
  {
    assert FillInOrder(p, slots, q', AE.MAX_CONCURRENT_SAMPLES) == p;
    assert FillInOrder(p, slots, [track] + q', AE.MAX_CONCURRENT_SAMPLES) == p;
  }

  /** The step of the induction: slot `m` holds the first queued track,
      and the slots after it the rest of the queue. */
  lemma ShiftFill(p: AE.Pool, p': AE.Pool, slots: SL.Slots, track: nat, q': seq<nat>, m: nat)
    requires m < AE.MAX_CONCURRENT_SAMPLES && p' == p[m := VoiceFor(slots, track)]
    ensures FillInOrder(p', slots, q', m + 1) == FillInOrder(p, slots, [track] + q', m)
  {
    var q := [track] + q';
    var a := FillInOrder(p', slots, q', m + 1);
    var b := FillInOrder(p, slots, q, m);
    forall i | 0 <= i < AE.MAX_CONCURRENT_SAMPLES
      ensures a[i] == b[i]
    {
      if m < i < m + |q| {
        assert q[i - m] == q'[i - (m + 1)];
      }
    }
  }

  /** A qualifying track played into a pool whose first `m < 4` slots are
      busy lands in slot `m`, which leaves the first `m + 1` busy. */
  lemma PlayIntoBusyPrefix(p: AE.Pool, m: nat, s: S.Sequencer, slots: SL.Slots, track: nat)
    requires m < AE.MAX_CONCURRENT_SAMPLES && BusyPrefix(p, m)
    requires track < S.NUM_TRACKS && Qualifies(s, slots, track)
    ensures TriggerFrom(p, s, slots, track) == TriggerFrom(p[m := VoiceFor(slots, track)], s, slots, track + 1)
    ensures BusyPrefix(p[m := VoiceFor(slots, track)], m + 1)
  {
    FirstFreeOfBusyPrefix(p, m, 0);
  }

  /** In a pool whose first `m` slots are busy, the first free slot is `m`. */
  lemma {:induction false} FirstFreeOfBusyPrefix(p: AE.Pool, m: nat, start: nat)
    requires m < AE.MAX_CONCURRENT_SAMPLES && start <= m && BusyPrefix(p, m)
    ensures AE.FirstFree(p, start) == Some(m)
    decreases m - start
  {
    if start < m {
      FirstFreeOfBusyPrefix(p, m, start + 1);
    }
  }

  /** How many of the slots below `i` are idle: slot `i`, when idle, is
      the free slot of that rank. */
  function FreeRank(p: AE.Pool, i: nat): (k: nat)
    requires i <= AE.MAX_CONCURRENT_SAMPLES
    ensures k <= i
  {
    if i == 0 then 0 else FreeRank(p, i - 1) + (if p[i - 1].active then 0 else 1)
  }

  /** Slot `i` of `PlaceInFree(p, slots, q)`. */
  function Place(p: AE.Pool, slots: SL.Slots, q: seq<nat>, i: nat): AE.Voice
    requires i < AE.MAX_CONCURRENT_SAMPLES
  {
    if !p[i].active && FreeRank(p, i) < |q| then VoiceFor(slots, q[FreeRank(p, i)]) else p[i]
  }

  /** Pool `p` with the tracks of queue `q` started in its idle slots: the
      idle slot of rank k takes the k-th queued track, busy slots and idle
      slots beyond the queue are unchanged, and queued tracks beyond the
      idle slots are dropped. */
  function PlaceInFree(p: AE.Pool, slots: SL.Slots, q: seq<nat>): AE.Pool
  {
    [Place(p, slots, q, 0), Place(p, slots, q, 1), Place(p, slots, q, 2), Place(p, slots, q, 3)]
  }

  /** Occupying an idle slot `j` lowers the rank of every slot above it by
      one and leaves the ranks at or below it alone. */
  lemma {:induction false} FreeRankAfterOccupy(p: AE.Pool, j: nat, v: AE.Voice, i: nat)
    requires j < AE.MAX_CONCURRENT_SAMPLES && !p[j].active && v.active && i <= AE.MAX_CONCURRENT_SAMPLES
    ensures i <= j ==> FreeRank(p[j := v], i) == FreeRank(p, i)
    ensures i > j ==> FreeRank(p[j := v], i) == FreeRank(p, i) - 1
  {
    if i > 0 {
      FreeRankAfterOccupy(p, j, v, i - 1);
    }
  }

  /** Below the first idle slot every slot is busy, so its rank is 0. */
  lemma {:induction false} FreeRankBelowFirstFree(p: AE.Pool, i: nat)
    requires i <= AE.MAX_CONCURRENT_SAMPLES && forall k | 0 <= k < i :: p[k].active
    ensures FreeRank(p, i) == 0
  {
    if i > 0 {
      FreeRankBelowFirstFree(p, i - 1);
    }
  }

  /** One slot of the induction step: after the first idle slot `j` takes
      `track`, slot `i` gets from the rest of the queue what it got from
      the whole queue. */
  lemma PlaceShiftAt(p: AE.Pool, slots: SL.Slots, track: nat, q': seq<nat>, j: nat, i: nat)
    requires AE.FirstFree(p, 0) == Some(j) && i < AE.MAX_CONCURRENT_SAMPLES
    ensures Place(p[j := VoiceFor(slots, track)], slots, q', i) == Place(p, slots, [track] + q', i)
  {
    var p' := p[j := VoiceFor(slots, track)];
    FreeRankBelowFirstFree(p, j);
    FreeRankAfterOccupy(p, j, VoiceFor(slots, track), i);
    if i > j && !p[i].active && FreeRank(p, i) < |q'| + 1 {
      assert ([track] + q')[FreeRank(p, i)] == q'[FreeRank(p', i)];
    }
  }

  /** The step of the induction: the first queued track takes the first
      idle slot, and the rest of the queue fills the idle slots after it. */
  lemma PlaceShift(p: AE.Pool, slots: SL.Slots, track: nat, q': seq<nat>, j: nat)
    requires AE.FirstFree(p, 0) == Some(j)
    ensures PlaceInFree(p[j := VoiceFor(slots, track)], slots, q') == PlaceInFree(p, slots, [track] + q')
  {
    PlaceShiftAt(p, slots, track, q', j, 0);
    PlaceShiftAt(p, slots, track, q', j, 1);
    PlaceShiftAt(p, slots, track, q', j, 2);
    PlaceShiftAt(p, slots, track, q', j, 3);
  }

  /** With every slot busy, nothing is placed. */
  lemma FullPoolPlacesNothing(p: AE.Pool, slots: SL.Slots, q: seq<nat>)
    requires forall i | 0 <= i < AE.MAX_CONCURRENT_SAMPLES :: p[i].active
    ensures PlaceInFree(p, slots, q) == p
  {
  }

  /** First come, first served, for any pool: the qualifying tracks take
      the idle slots in increasing slot order, the k-th qualifying track the
      idle slot of rank k, whatever busy slots lie between them; busy slots
      are untouched, and the tracks left over when the idle slots run out
      are dropped. */
  lemma {:induction false} TriggerPlacesInFree(p: AE.Pool, s: S.Sequencer, slots: SL.Slots, track: nat)
    requires track <= S.NUM_TRACKS
    ensures TriggerFrom(p, s, slots, track) == PlaceInFree(p, slots, QualifyingFrom(s, slots, track))
    decreases S.NUM_TRACKS - track
  {
    if track == S.NUM_TRACKS {
      assert PlaceInFree(p, slots, []) == p;
    } else if !Qualifies(s, slots, track) {
      TriggerPlacesInFree(p, s, slots, track + 1);
    } else {
      var q' := QualifyingFrom(s, slots, track + 1);
      var first := AE.FirstFree(p, 0);
      PlayIntoFirstFree(p, s, slots, track);
      if first.None? {
        TriggerPlacesInFree(p, s, slots, track + 1);
        FullPoolPlacesNothing(p, slots, q');
        FullPoolPlacesNothing(p, slots, [track] + q');
      } else {
        TriggerPlacesInFree(p[first.value := VoiceFor(slots, track)], s, slots, track + 1);
        PlaceShift(p, slots, track, q', first.value);
      }
    }
  }

  /** `TriggerPlacesInFree` slot by slot: busy slot `i` keeps its voice;
      idle slot `i` of rank k takes the k-th qualifying track when there is
      one and stays as it was otherwise. */
  lemma TriggerSlot(p: AE.Pool, s: S.Sequencer, slots: SL.Slots, i: nat)
    requires i < AE.MAX_CONCURRENT_SAMPLES
    ensures var r, q := TriggerFrom(p, s, slots, 0), QualifyingFrom(s, slots, 0);
      && (p[i].active ==> r[i] == p[i])
      && (!p[i].active && FreeRank(p, i) < |q| ==> r[i] == VoiceFor(slots, q[FreeRank(p, i)]))
      && (FreeRank(p, i) >= |q| ==> r[i] == p[i])
  {
    var q := QualifyingFrom(s, slots, 0);
    TriggerPlacesInFree(p, s, slots, 0);
    assert TriggerFrom(p, s, slots, 0)[i] == PlaceInFree(p, slots, q)[i] == Place(p, slots, q, i);
  }

  /** A qualifying track lands in the first idle slot, or nowhere when
      every slot is busy. */
  lemma PlayIntoFirstFree(p: AE.Pool, s: S.Sequencer, slots: SL.Slots, track: nat)
    requires track < S.NUM_TRACKS && Qualifies(s, slots, track)
    ensures AE.FirstFree(p, 0).None? ==>
      (forall i | 0 <= i < AE.MAX_CONCURRENT_SAMPLES :: p[i].active) &&
      TriggerFrom(p, s, slots, track) == TriggerFrom(p, s, slots, track + 1)
    ensures AE.FirstFree(p, 0).Some? ==>
      TriggerFrom(p, s, slots, track) ==
      TriggerFrom(p[AE.FirstFree(p, 0).value := VoiceFor(slots, track)], s, slots, track + 1)
  {
  }

  /** A pool with a gap: slot 1 busy, slots 0, 2 and 3 idle. When exactly
      tracks 0 and 1 qualify, track 0 takes slot 0 and track 1 skips the
      busy slot 1 to take slot 2. */
  lemma GapIsSkipped(p: AE.Pool, s: S.Sequencer, slots: SL.Slots)
    requires !p[0].active && p[1].active && !p[2].active && !p[3].active
    requires QualifyingFrom(s, slots, 0) == [0, 1]
    ensures TriggerFrom(p, s, slots, 0) == [VoiceFor(slots, 0), p[1], VoiceFor(slots, 1), p[3]]
  {
    TriggerPlacesInFree(p, s, slots, 0);
    assert FreeRank(p, 0) == 0 && FreeRank(p, 2) == 1 && FreeRank(p, 3) == 2;
  }

}
