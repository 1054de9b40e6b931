/** The audio engine: a fixed pool of four playback voices, a chunked
    additive mixer writing into a 512-sample ring, and the polled output tick
    that emits one 8-bit sample per due interval (audioengine.h,
    audioengine.cpp). Hardware output is the emitted value returned by
    `Update`; the clock reading is a parameter. */
module AudioEngine {
  import opened Units

  const SAMPLE_RATE: int := 22050
  const AUDIO_BUFFER_SIZE: int := 512
  const MAX_CONCURRENT_SAMPLES: int := 4
  /** The most output positions one mix pass computes. */
  const CHUNK_SIZE: int := 32
  /** The 8-bit mid level, the silent output value. */
  const SILENCE: byte := 128
  /** Microseconds between output samples: 1000000 / 22050, truncated to 45. */
  const SAMPLE_INTERVAL: int := 1000000 / SAMPLE_RATE

  /** A 16-bit signed value (`int16_t`), the parameter type of `clipSample`. */
  type i16 = x: int | -0x8000 <= x < 0x8000

  /** One playback voice. `data` stands for the bytes behind the borrowed
      sample pointer; `volume` is carried but the mixer is modelled at the
      unity gain every caller uses. */
  datatype Voice = Voice(data: seq<byte>, size: u32, position: u32, active: bool, volume: real)
  {
    /** The read cursor never passes the sample's end, and the sample's
        declared size never exceeds the bytes behind the pointer. */
    predicate Wf() {
      position <= size <= |data|
    }
  }

  function IdleVoice(): Voice {
    Voice([], 0, 0, false, 1.0)
  }

  type Pool = p: seq<Voice> | |p| == MAX_CONCURRENT_SAMPLES
    witness seq(MAX_CONCURRENT_SAMPLES, _ => Voice([], 0, 0, false, 1.0))

  predicate PoolWf(p: seq<Voice>) {
    forall i | 0 <= i < |p| :: p[i].Wf()
  }

  type Buffer = b: seq<byte> | |b| == AUDIO_BUFFER_SIZE witness seq(AUDIO_BUFFER_SIZE, _ => 0)

  datatype Engine = Engine(
    voices: Pool,
    outputBuffer: Buffer,
    bufferPosition: nat,
    lastSampleTime: u32,
    isInitialized: bool)
  {
    /** The engine invariant: every voice is well formed and the ring cursor
        is within [0, 512]. */
    predicate Valid() {
      PoolWf(voices) && bufferPosition <= AUDIO_BUFFER_SIZE
    }
  }

  /** The constructor: every voice idle, cursor and clock at 0, not yet
      initialised. The engine is a global object, so its output buffer
      starts zero-filled. */
  function NewEngine(): (e: Engine)
    ensures e.Valid() && !e.isInitialized && e.bufferPosition == 0
    ensures forall i | 0 <= i < MAX_CONCURRENT_SAMPLES :: !e.voices[i].active && e.voices[i].position == 0
  {
    Engine(seq(MAX_CONCURRENT_SAMPLES, _ => IdleVoice()), seq(AUDIO_BUFFER_SIZE, _ => 0), 0, 0, false)
  }

  /** `init`: the PWM set-up is hardware only; what matters to the model is
      that the engine becomes initialised. */
  function Init(e: Engine): (r: Engine)
    ensures r.isInitialized
    ensures r.voices == e.voices && r.outputBuffer == e.outputBuffer && r.bufferPosition == e.bufferPosition
  {
    e.(isInitialized := true)
  }

  // ---------------------------------------------------------------------
  // Saturation

  /** Saturate a 16-bit value into the 8-bit output range. */
  function Clip(x: i16): (r: byte)
    ensures 0 <= x <= 255 ==> r as int == x
    ensures x < 0 ==> r == 0
    ensures x > 255 ==> r == 255
  {
    if x < 0 then 0 else if x > 255 then 255 else x as byte
  }

  /** Clipping picks the byte nearest to its input. */
  lemma ClipIsNearest(x: i16, b: byte)
    ensures Clip(x) as int - x <= b as int - x || x - Clip(x) as int <= x - b as int
    ensures (Clip(x) as int - x) * (Clip(x) as int - x) <= (b as int - x) * (b as int - x)
  {
  }

  /** Clipping never reverses the order of two inputs. */
  lemma ClipMonotone(x: i16, y: i16)
    requires x <= y
    ensures Clip(x) <= Clip(y)
  {
  }

  /** One cell update of the mix loop, at unity gain. The sample is
      recentred (`value - 128`), scaled by 1.0 and shifted back (`+ 128`),
      recentred again and added to the cell, and 128 is added once more
      before clipping: the mid level is counted twice, so the cell becomes
      the saturating sum of the two raw unsigned values. */
  function MixCell(cell: byte, sampleValue: byte): (r: byte)
    ensures r as int == if cell as int + sampleValue as int > 255 then 255 else cell as int + sampleValue as int
  {
    var scaledValue := (sampleValue as int - 128) + 128;
    var mixed := cell as int + (scaledValue - 128);
    Clip(mixed + 128)
  }

  /** Because of the doubled mid level, a silent sample (128) mixed into a
      freshly cleared cell drives the output to full scale, and any sample
      value of 127 or more saturates. */
  lemma SilenceSaturates(sampleValue: byte)
    ensures MixCell(SILENCE, 128) == 255
    ensures sampleValue >= 127 ==> MixCell(SILENCE, sampleValue) == 255
    ensures sampleValue < 127 ==> MixCell(SILENCE, sampleValue) as int == 128 + sampleValue as int
  {
  }

  // ---------------------------------------------------------------------
  // The mix pass

  /** The number of positions one mix pass covers at cursor `bp`:
      `min(32, 512 - bp)`, which is zero or negative once the cursor has
      reached the end of the ring. */
  function ChunkLength(bp: nat): (n: int)
    ensures n <= CHUNK_SIZE && n <= AUDIO_BUFFER_SIZE - bp
    ensures n == CHUNK_SIZE || n == AUDIO_BUFFER_SIZE - bp
    ensures bp < AUDIO_BUFFER_SIZE ==> n >= 1
  {
    Min(CHUNK_SIZE, AUDIO_BUFFER_SIZE - bp)
  }

  predicate InChunk(j: int, bp: nat, n: int) {
    bp <= j < bp + n
  }

  /** The first loop of `mixSamples`, from chunk position `i` on: each cell
      of the chunk is reset to silence, one at a time. */
  function ClearFrom(buf: Buffer, bp: nat, n: int, i: nat): Buffer
    requires n <= AUDIO_BUFFER_SIZE - bp
    decreases n - i
  {
    if i >= n then buf else ClearFrom(buf[bp + i := SILENCE], bp, n, i + 1)
  }

  /** Clearing from position `i` silences exactly the chunk cells from
      `bp + i` on and leaves every other cell as it was. */
  lemma {:induction false} ClearFromCells(buf: Buffer, bp: nat, n: int, i: nat)
    requires n <= AUDIO_BUFFER_SIZE - bp
    ensures forall j | 0 <= j < AUDIO_BUFFER_SIZE ::
      ClearFrom(buf, bp, n, i)[j] == if bp + i <= j < bp + n then SILENCE else buf[j]
    decreases n - i
  {
    if i < n {
      ClearFromCells(buf[bp + i := SILENCE], bp, n, i + 1);
    }
  }

  /** The whole first loop: the chunk is silence, the rest of the ring is
      untouched. */
  function ClearChunk(buf: Buffer, bp: nat, n: int): (r: Buffer)
    requires n <= AUDIO_BUFFER_SIZE - bp
    ensures forall j | 0 <= j < AUDIO_BUFFER_SIZE :: r[j] == if InChunk(j, bp, n) then SILENCE else buf[j]
  {
    ClearFromCells(buf, bp, n, 0);
    ClearFrom(buf, bp, n, 0)
  }

  /** The inner loop of `mixSamples` for one voice, from chunk position `i`:
      stop and deactivate at the end of the sample, else mix one sample into
      the cell and advance the cursor. */
  function MixVoice(buf: Buffer, bp: nat, n: int, v: Voice, i: nat): (Buffer, Voice)
    requires v.Wf() && n <= AUDIO_BUFFER_SIZE - bp
    decreases n - i
  {
    if i >= n then (buf, v)
    else if v.position >= v.size then (buf, v.(active := false))
    else
      MixVoice(buf[bp + i := MixCell(buf[bp + i], v.data[v.position])], bp, n, v.(position := v.position + 1), i + 1)
  }

  /** How many sample bytes a voice consumes over `m` chunk positions. */
  function Consumed(v: Voice, m: int): (k: nat)
    requires v.Wf()
    ensures k <= v.size - v.position
    ensures m > 0 ==> k <= m
  {
    if m <= 0 then 0 else Min(m, v.size - v.position)
  }

  /** A voice after `m` positions of a mix pass, in closed form: it advances
      by the bytes it consumed, and it is switched off exactly when the pass
      asks for more positions than it has bytes left. A voice that runs out
      exactly at the end of the pass stays active until the next pass. */
  function AfterPass(v: Voice, m: int): (r: Voice)
    requires v.Wf()
    ensures r.Wf()
  {
    if m <= 0 then v
    else if v.position + m > v.size then v.(position := v.size, active := false)
    else v.(position := v.position + m)
  }

  /** The one-voice mix in closed form: the voice ends as `AfterPass` says,
      the cells it consumed get its bytes mixed in, in order, and every other
      cell (including the rest of the chunk after the voice ran out) is left
      as it was. */
  lemma {:induction false} MixVoiceClosedForm(buf: Buffer, bp: nat, n: int, v: Voice, i: nat)
    requires v.Wf() && n <= AUDIO_BUFFER_SIZE - bp
    ensures MixVoice(buf, bp, n, v, i).1 == AfterPass(v, n - i)
    ensures forall j | 0 <= j < AUDIO_BUFFER_SIZE ::
      MixVoice(buf, bp, n, v, i).0[j] ==
        if bp + i <= j < bp + i + Consumed(v, n - i)
        then MixCell(buf[j], v.data[v.position + (j - bp - i)])
        else buf[j]
    decreases n - i
  {
    if i >= n || v.position >= v.size {
    } else {
      var buf' := buf[bp + i := MixCell(buf[bp + i], v.data[v.position])];
      var v' := v.(position := v.position + 1);
      MixVoiceClosedForm(buf', bp, n, v', i + 1);
      assert Consumed(v', n - (i + 1)) + 1 == Consumed(v, n - i);
    }
  }

  /** The slot loop of `mixSamples`: every active voice, in slot order, is
      mixed over the same chunk. */
  function MixSlots(buf: Buffer, bp: nat, n: int, p: Pool, slot: nat): (Buffer, Pool)
    requires PoolWf(p) && slot <= MAX_CONCURRENT_SAMPLES && n <= AUDIO_BUFFER_SIZE - bp
    decreases MAX_CONCURRENT_SAMPLES - slot
  {
    if slot == MAX_CONCURRENT_SAMPLES then (buf, p)
    else if !p[slot].active then MixSlots(buf, bp, n, p, slot + 1)
    else
      var mixed := MixVoice(buf, bp, n, p[slot], 0);
      MixVoiceClosedForm(buf, bp, n, p[slot], 0);
      MixSlots(mixed.0, bp, n, p[slot := mixed.1], slot + 1)
  }

  /** One whole mix pass (`mixSamples`) at cursor `bp`. */
  function Mix(buf: Buffer, bp: nat, p: Pool): (Buffer, Pool)
    requires PoolWf(p)
  {
    var n := ChunkLength(bp);
    MixSlots(ClearChunk(buf, bp, n), bp, n, p, 0)
  }

  /** The slot loop only touches chunk cells, and each voice from `slot` on
      ends as `AfterPass` says if it was active and unchanged otherwise. */
  lemma {:induction false} MixSlotsEffect(buf: Buffer, bp: nat, n: int, p: Pool, slot: nat)
    requires PoolWf(p) && slot <= MAX_CONCURRENT_SAMPLES && n <= AUDIO_BUFFER_SIZE - bp
    ensures forall j | 0 <= j < AUDIO_BUFFER_SIZE && !InChunk(j, bp, n) :: MixSlots(buf, bp, n, p, slot).0[j] == buf[j]
    ensures forall s | 0 <= s < MAX_CONCURRENT_SAMPLES ::
      MixSlots(buf, bp, n, p, slot).1[s] == if s >= slot && p[s].active then AfterPass(p[s], n) else p[s]
    decreases MAX_CONCURRENT_SAMPLES - slot
  {
    if slot < MAX_CONCURRENT_SAMPLES {
      if !p[slot].active {
        MixSlotsEffect(buf, bp, n, p, slot + 1);
      } else {
        var mixed := MixVoice(buf, bp, n, p[slot], 0);
        MixVoiceClosedForm(buf, bp, n, p[slot], 0);
        var p' := p[slot := mixed.1];
        MixSlotsEffect(mixed.0, bp, n, p', slot + 1);
      }
    }
  }

  /** A mix pass writes only `outputBuffer[bp .. bp + n)` with
      `n = min(32, 512 - bp)`; every active voice advances as `AfterPass`
      says, inactive voices are untouched, and all voices stay well formed.
      With the cursor at 512 the pass is empty and deactivates nothing. */
  lemma MixEffect(buf: Buffer, bp: nat, p: Pool)
    requires PoolWf(p)
    ensures forall j | 0 <= j < AUDIO_BUFFER_SIZE && !InChunk(j, bp, ChunkLength(bp)) :: Mix(buf, bp, p).0[j] == buf[j]
    ensures forall s | 0 <= s < MAX_CONCURRENT_SAMPLES ::
      Mix(buf, bp, p).1[s] == if p[s].active then AfterPass(p[s], ChunkLength(bp)) else p[s]
    ensures PoolWf(Mix(buf, bp, p).1)
    ensures bp >= AUDIO_BUFFER_SIZE ==> Mix(buf, bp, p) == (buf, p)
  {
    var n := ChunkLength(bp);
    var cleared := ClearChunk(buf, bp, n);
    MixSlotsEffect(cleared, bp, n, p, 0);
    if bp >= AUDIO_BUFFER_SIZE {
      assert cleared == buf;
      assert Mix(buf, bp, p).1 == p;
    }
  }

  /** With a single active voice, a mix pass is that voice's mix over the
      cleared chunk. */
  lemma OnlyVoiceMix(buf: Buffer, bp: nat, p: Pool, slot: nat)
    requires PoolWf(p) && slot < MAX_CONCURRENT_SAMPLES && p[slot].active
    requires forall s | 0 <= s < MAX_CONCURRENT_SAMPLES && s != slot :: !p[s].active
    ensures Mix(buf, bp, p).0 == MixVoice(ClearChunk(buf, bp, ChunkLength(bp)), bp, ChunkLength(bp), p[slot], 0).0
  {
    var n := ChunkLength(bp);
    var cleared := ClearChunk(buf, bp, n);
    SkipInactive(cleared, bp, n, p, 0, slot);
    var mixed := MixVoice(cleared, bp, n, p[slot], 0);
    MixVoiceClosedForm(cleared, bp, n, p[slot], 0);
    var p' := p[slot := mixed.1];
    assert PoolWf(p');
    assert MixSlots(cleared, bp, n, p, slot) == MixSlots(mixed.0, bp, n, p', slot + 1);
    SkipInactive(mixed.0, bp, n, p', slot + 1, MAX_CONCURRENT_SAMPLES);
  }

  /** The one-voice case: with a single active voice that has bytes left for
      the whole chunk, chunk cell `bp + i` is the mid level mixed with the
      voice's `i`-th next byte. */
  lemma SingleVoiceChunk(buf: Buffer, bp: nat, p: Pool, slot: nat)
    requires PoolWf(p) && slot < MAX_CONCURRENT_SAMPLES && p[slot].active
    requires forall s | 0 <= s < MAX_CONCURRENT_SAMPLES && s != slot :: !p[s].active
    requires bp < AUDIO_BUFFER_SIZE && p[slot].position + ChunkLength(bp) <= p[slot].size
    ensures forall j | bp <= j < bp + ChunkLength(bp) ::
      Mix(buf, bp, p).0[j] == MixCell(SILENCE, p[slot].data[p[slot].position + (j - bp)])
  {
    var n := ChunkLength(bp);
    var cleared := ClearChunk(buf, bp, n);
    OnlyVoiceMix(buf, bp, p, slot);
    MixVoiceClosedForm(cleared, bp, n, p[slot], 0);
    assert Consumed(p[slot], n) == n;
    forall j | bp <= j < bp + n
      ensures Mix(buf, bp, p).0[j] == MixCell(SILENCE, p[slot].data[p[slot].position + (j - bp)])
    {
      assert cleared[j] == SILENCE;
    }
  }

  /** Inactive slots are skipped by the slot loop. */
  lemma {:induction false} SkipInactive(buf: Buffer, bp: nat, n: int, p: Pool, lo: nat, hi: nat)
    requires PoolWf(p) && lo <= hi <= MAX_CONCURRENT_SAMPLES && n <= AUDIO_BUFFER_SIZE - bp
    requires forall s | lo <= s < hi :: !p[s].active
    ensures MixSlots(buf, bp, n, p, lo) == MixSlots(buf, bp, n, p, hi)
    decreases hi - lo
  {
    if lo < hi {
      SkipInactive(buf, bp, n, p, lo + 1, hi);
    }
  }

  /** Two buffers that agree on the chunk keep agreeing on it through one
      voice's mix: what a voice writes depends only on the cell and the
      voice. */
  lemma {:induction false} MixVoiceChunkAgree(b1: Buffer, b2: Buffer, bp: nat, n: int, v: Voice, i: nat)
    requires v.Wf() && n <= AUDIO_BUFFER_SIZE - bp
    requires forall j | 0 <= j < AUDIO_BUFFER_SIZE && InChunk(j, bp, n) :: b1[j] == b2[j]
    ensures MixVoice(b1, bp, n, v, i).1 == MixVoice(b2, bp, n, v, i).1
    ensures forall j | 0 <= j < AUDIO_BUFFER_SIZE && InChunk(j, bp, n) ::
      MixVoice(b1, bp, n, v, i).0[j] == MixVoice(b2, bp, n, v, i).0[j]
    decreases n - i
  {
    if i < n && v.position < v.size {
      var c1 := b1[bp + i := MixCell(b1[bp + i], v.data[v.position])];
      var c2 := b2[bp + i := MixCell(b2[bp + i], v.data[v.position])];
      MixVoiceChunkAgree(c1, c2, bp, n, v.(position := v.position + 1), i + 1);
    }
  }

  lemma {:induction false} MixSlotsChunkAgree(b1: Buffer, b2: Buffer, bp: nat, n: int, p: Pool, slot: nat)
    requires PoolWf(p) && slot <= MAX_CONCURRENT_SAMPLES && n <= AUDIO_BUFFER_SIZE - bp
    requires forall j | 0 <= j < AUDIO_BUFFER_SIZE && InChunk(j, bp, n) :: b1[j] == b2[j]
    ensures MixSlots(b1, bp, n, p, slot).1 == MixSlots(b2, bp, n, p, slot).1
    ensures forall j | 0 <= j < AUDIO_BUFFER_SIZE && InChunk(j, bp, n) ::
      MixSlots(b1, bp, n, p, slot).0[j] == MixSlots(b2, bp, n, p, slot).0[j]
    decreases MAX_CONCURRENT_SAMPLES - slot
  {
    if slot < MAX_CONCURRENT_SAMPLES {
      if !p[slot].active {
        MixSlotsChunkAgree(b1, b2, bp, n, p, slot + 1);
      } else {
        var m1 := MixVoice(b1, bp, n, p[slot], 0);
        var m2 := MixVoice(b2, bp, n, p[slot], 0);
        MixVoiceChunkAgree(b1, b2, bp, n, p[slot], 0);
        MixVoiceClosedForm(b1, bp, n, p[slot], 0);
        MixSlotsChunkAgree(m1.0, m2.0, bp, n, p[slot := m1.1], slot + 1);
      }
    }
  }

  /** Every cell of the chunk is freshly computed by the pass: its value
      depends on the voices only, never on what the ring held before. */
  lemma MixChunkIsFresh(b1: Buffer, b2: Buffer, bp: nat, p: Pool)
    requires PoolWf(p)
    ensures Mix(b1, bp, p).1 == Mix(b2, bp, p).1
    ensures forall j | 0 <= j < AUDIO_BUFFER_SIZE && InChunk(j, bp, ChunkLength(bp)) ::
      Mix(b1, bp, p).0[j] == Mix(b2, bp, p).0[j]
  {
    var n := ChunkLength(bp);
    MixSlotsChunkAgree(ClearChunk(b1, bp, n), ClearChunk(b2, bp, n), bp, n, p, 0);
  }

  /** The clearing loop of `mixSamples`, written as the firmware writes it. */
  method ClearLoop(buf: Buffer, bp: nat, n: int) returns (out: Buffer)
    requires n <= AUDIO_BUFFER_SIZE - bp
    ensures forall j | 0 <= j < AUDIO_BUFFER_SIZE :: out[j] == if InChunk(j, bp, n) then SILENCE else buf[j]
    ensures out == ClearChunk(buf, bp, n)
  {
    out := buf;
    var i := 0;
    while i < n
      invariant ClearFrom(out, bp, n, i) == ClearFrom(buf, bp, n, 0)
      decreases n - i
    {
      out := out[bp + i := SILENCE];
      i := i + 1;
    }
    assert out == ClearChunk(buf, bp, n);
  }

  /** The per-voice loop of `mixSamples`: mix the voice's bytes into the
      chunk until the chunk ends or the sample does, switching the voice
      off in the second case. */
  method VoiceLoop(buf: Buffer, bp: nat, n: int, voice: Voice) returns (out: Buffer, v: Voice)
    requires voice.Wf() && n <= AUDIO_BUFFER_SIZE - bp
    ensures v == AfterPass(voice, n)
    ensures forall j | 0 <= j < AUDIO_BUFFER_SIZE ::
      out[j] == if bp <= j < bp + Consumed(voice, n) then MixCell(buf[j], voice.data[voice.position + (j - bp)]) else buf[j]
    ensures (out, v) == MixVoice(buf, bp, n, voice, 0)
  {
    out, v := buf, voice;
    var k := 0;
    while k < n
      invariant 0 <= k && v.Wf()
      invariant MixVoice(out, bp, n, v, k) == MixVoice(buf, bp, n, voice, 0)
      decreases n - k
    {
      if v.position >= v.size {
        v := v.(active := false);
        break;
      }
      var sampleValue := v.data[v.position];
      out := out[bp + k := MixCell(out[bp + k], sampleValue)];
      v := v.(position := v.position + 1);
      k := k + 1;
    }
    MixVoiceClosedForm(buf, bp, n, voice, 0);
  }

  /** The imperative `mixSamples`, loop for loop: clear the chunk, then for
      each active slot mix its bytes in until the chunk or the sample ends. */
  method MixSamples(buf: Buffer, bp: nat, p: Pool) returns (out: Buffer, voices: Pool)
    requires PoolWf(p)
    ensures (out, voices) == Mix(buf, bp, p)
    ensures forall j | 0 <= j < AUDIO_BUFFER_SIZE && !InChunk(j, bp, ChunkLength(bp)) :: out[j] == buf[j]
    ensures forall s | 0 <= s < MAX_CONCURRENT_SAMPLES ::
      voices[s] == if p[s].active then AfterPass(p[s], ChunkLength(bp)) else p[s]
  {
    var n := Min(CHUNK_SIZE, AUDIO_BUFFER_SIZE - bp);
    out := ClearLoop(buf, bp, n);
    voices := p;
    var slot := 0;
    while slot < MAX_CONCURRENT_SAMPLES
      invariant 0 <= slot <= MAX_CONCURRENT_SAMPLES
      invariant PoolWf(voices)
      invariant MixSlots(out, bp, n, voices, slot) == Mix(buf, bp, p)
    {
      if voices[slot].active {
        var v;
        out, v := VoiceLoop(out, bp, n, voices[slot]);
        voices := voices[slot := v];
      }
      slot := slot + 1;
    }
    MixEffect(buf, bp, p);
  }

  // ---------------------------------------------------------------------
  // The output tick

  /** Whether `update` does anything at time `now` (microseconds). */
  predicate SampleDue(e: Engine, now: u32) {
    e.isInitialized && Elapsed(now, e.lastSampleTime) >= SAMPLE_INTERVAL
  }

  /** `update`: when initialised and at least 45 microseconds have passed,
      run one whole mix pass at the cursor, then emit the sample under the
      cursor and advance it, or, with the cursor at the end of the ring,
      rewind it to 0 without emitting. The second component is the value
      written to the PWM output, if any. */
  function Update(e: Engine, now: u32): (r: (Engine, Option<byte>))
    requires e.Valid()
    ensures !SampleDue(e, now) ==> r == (e, None)
    ensures SampleDue(e, now) ==> r.0.lastSampleTime == now && r.0.isInitialized
    ensures SampleDue(e, now) ==>
      (r.0.outputBuffer, r.0.voices) == Mix(e.outputBuffer, e.bufferPosition, e.voices)
    ensures r.1.Some? <==> SampleDue(e, now) && e.bufferPosition < AUDIO_BUFFER_SIZE
    ensures r.1.Some? ==> r.1.value == r.0.outputBuffer[e.bufferPosition] && r.0.bufferPosition == e.bufferPosition + 1
    ensures SampleDue(e, now) && r.1.None? ==> r.0.bufferPosition == 0
    ensures r.0.Valid()
  {
    if !e.isInitialized then (e, None)
    else if Elapsed(now, e.lastSampleTime) < SAMPLE_INTERVAL then (e, None)
    else
      var mixed := Mix(e.outputBuffer, e.bufferPosition, e.voices);
      MixEffect(e.outputBuffer, e.bufferPosition, e.voices);
      if e.bufferPosition < AUDIO_BUFFER_SIZE then
        (Engine(mixed.1, mixed.0, e.bufferPosition + 1, now, true), Some(mixed.0[e.bufferPosition]))
      else
        (Engine(mixed.1, mixed.0, 0, now, true), None)
  }

  /** The emitted sample was computed by this tick's own mix pass: engines
      that differ only in what their ring held emit the same value and end
      with the same voices. */
  lemma EmissionIsFresh(e1: Engine, e2: Engine, now: u32)
    requires e1.Valid() && e2 == e1.(outputBuffer := e2.outputBuffer)
    ensures Update(e1, now).1 == Update(e2, now).1
    ensures Update(e1, now).0.voices == Update(e2, now).0.voices
  {
    MixChunkIsFresh(e1.outputBuffer, e2.outputBuffer, e1.bufferPosition, e1.voices);
  }

  /** Every due tick runs a mix pass, so an active voice with bytes to spare
      advances by a whole chunk per emitted sample, not by one. */
  lemma VoiceAdvancesPerTick(e: Engine, now: u32, s: nat)
    requires e.Valid() && SampleDue(e, now) && s < MAX_CONCURRENT_SAMPLES && e.voices[s].active
    requires e.bufferPosition < AUDIO_BUFFER_SIZE
    requires e.voices[s].position + ChunkLength(e.bufferPosition) <= e.voices[s].size
    ensures Update(e, now).0.voices[s].position == e.voices[s].position + ChunkLength(e.bufferPosition)
    ensures Update(e, now).0.voices[s].active
  {
    MixEffect(e.outputBuffer, e.bufferPosition, e.voices);
  }

  // ---------------------------------------------------------------------
  // The voice pool

  /** The first inactive slot at or after `start`, if any. */
  function FirstFree(p: seq<Voice>, start: nat): (r: Option<nat>)
    requires start <= |p|
    ensures r.Some? ==> start <= r.value < |p| && !p[r.value].active
    ensures r.Some? ==> forall i | start <= i < r.value :: p[i].active
    ensures r.None? ==> forall i | start <= i < |p| :: p[i].active
    decreases |p| - start
  {
    if start == |p| then None
    else if !p[start].active then Some(start)
    else FirstFree(p, start + 1)
  }

  /** `playSample`: a null or empty sample is ignored; otherwise the lowest
      inactive slot starts playing it from the beginning, and when all four
      slots are busy the request is dropped. No other slot changes. */
  function PlaySample(p: Pool, data: Option<seq<byte>>, size: u32, volume: real): Pool
  {
    if data.None? || size == 0 then p
    else
      match FirstFree(p, 0)
      case None => p
      case Some(i) => p[i := Voice(data.value, size, 0, true, volume)]
  }

  /** What `playSample` does, slot by slot. */
  lemma PlaySampleSpec(p: Pool, data: Option<seq<byte>>, size: u32, volume: real)
    ensures data.None? || size == 0 ==> PlaySample(p, data, size, volume) == p
    ensures (forall i | 0 <= i < MAX_CONCURRENT_SAMPLES :: p[i].active) ==> PlaySample(p, data, size, volume) == p
    ensures data.Some? && size > 0 ==>
      forall i | 0 <= i < MAX_CONCURRENT_SAMPLES && !p[i].active && (forall j | 0 <= j < i :: p[j].active) ::
        PlaySample(p, data, size, volume) == p[i := Voice(data.value, size, 0, true, volume)]
  {
  }

  /** The number of busy slots. */
  function CountActive(p: seq<Voice>): (c: nat)
    ensures c <= |p|
  {
    if |p| == 0 then 0
    else CountActive(p[..|p| - 1]) + (if p[|p| - 1].active then 1 else 0)
  }

  lemma {:induction false} CountActiveAll(p: seq<Voice>)
    ensures CountActive(p) == |p| <==> forall i | 0 <= i < |p| :: p[i].active
  {
    if |p| > 0 {
      var q := p[..|p| - 1];
      CountActiveAll(q);
      assert forall i | 0 <= i < |q| :: q[i] == p[i];
    }
  }

  lemma {:induction false} CountActiveNone(p: seq<Voice>)
    ensures CountActive(p) == 0 <==> forall i | 0 <= i < |p| :: !p[i].active
  {
    if |p| > 0 {
      var q := p[..|p| - 1];
      CountActiveNone(q);
      assert forall i | 0 <= i < |q| :: q[i] == p[i];
    }
  }

  /** Replacing one voice changes the count by the difference of the two
      active flags. */
  lemma {:induction false} CountActiveUpdate(p: seq<Voice>, i: nat, v: Voice)
    requires i < |p|
    ensures CountActive(p[i := v]) + (if p[i].active then 1 else 0)
         == CountActive(p) + (if v.active then 1 else 0)
  {
    var q := p[i := v];
    if i == |p| - 1 {
      assert q[..|q| - 1] == p[..|p| - 1];
    } else {
      CountActiveUpdate(p[..|p| - 1], i, v);
      assert q[..|q| - 1] == p[..|p| - 1][i := v];
    }
  }

  /** Admission: a valid trigger takes one more slot unless all four are
      busy, in which case it is dropped. */
  lemma PlaySampleCount(p: Pool, data: seq<byte>, size: u32, volume: real)
    requires size > 0
    ensures CountActive(PlaySample(p, Some(data), size, volume)) == Min(MAX_CONCURRENT_SAMPLES, CountActive(p) + 1)
  {
    CountActiveAll(p);
    match FirstFree(p, 0)
    case None =>
    case Some(i) =>
      CountActiveUpdate(p, i, Voice(data, size, 0, true, volume));
  }

  /** Five triggers into an idle pool leave exactly four voices playing; the
      fifth request changes nothing. */
  lemma FifthTriggerDropped(data: seq<byte>, size: u32)
    requires size > 0
    ensures var p0 := NewEngine().voices;
            var p4 := PlaySample(PlaySample(PlaySample(PlaySample(p0, Some(data), size, 1.0), Some(data), size, 1.0), Some(data), size, 1.0), Some(data), size, 1.0);
            CountActive(p4) == MAX_CONCURRENT_SAMPLES && PlaySample(p4, Some(data), size, 1.0) == p4
  {
    var p0 := NewEngine().voices;
    CountActiveNone(p0);
    var p1 := PlaySample(p0, Some(data), size, 1.0);
    PlaySampleCount(p0, data, size, 1.0);
    var p2 := PlaySample(p1, Some(data), size, 1.0);
    PlaySampleCount(p1, data, size, 1.0);
    var p3 := PlaySample(p2, Some(data), size, 1.0);
    PlaySampleCount(p2, data, size, 1.0);
    var p4 := PlaySample(p3, Some(data), size, 1.0);
    PlaySampleCount(p3, data, size, 1.0);
    CountActiveAll(p4);
  }

  /** A trigger whose size fits its data keeps the pool well formed. */
  lemma PlaySampleKeepsWf(p: Pool, data: Option<seq<byte>>, size: u32, volume: real)
    requires PoolWf(p)
    requires data.Some? ==> size <= |data.value|
    ensures PoolWf(PlaySample(p, data, size, volume))
  {
  }

  /** `stopAllSamples`: every slot inactive with its cursor at 0; the sample
      bindings and volumes are left as they were. */
  function StopAllSamples(p: Pool): (r: Pool)
    ensures forall i | 0 <= i < MAX_CONCURRENT_SAMPLES ::
      r[i] == p[i].(active := false, position := 0)
    ensures CountActive(r) == 0
  {
    var r: Pool := seq(MAX_CONCURRENT_SAMPLES, i requires 0 <= i < MAX_CONCURRENT_SAMPLES => p[i].(active := false, position := 0));
    CountActiveNone(r);
    r
  }

  /** `setMasterVolume`: the new volume reaches the busy slots only. */
  function SetMasterVolume(p: Pool, volume: real): (r: Pool)
    ensures forall i | 0 <= i < MAX_CONCURRENT_SAMPLES ::
      r[i] == if p[i].active then p[i].(volume := volume) else p[i]
  {
    seq(MAX_CONCURRENT_SAMPLES, i requires 0 <= i < MAX_CONCURRENT_SAMPLES =>
      if p[i].active then p[i].(volume := volume) else p[i])
  }

  /** The count of busy slots depends on the active flags alone. */
  lemma {:induction false} CountActiveSameFlags(p: seq<Voice>, q: seq<Voice>)
    requires |p| == |q| && forall i | 0 <= i < |p| :: p[i].active == q[i].active
    ensures CountActive(p) == CountActive(q)
  {
    if |p| > 0 {
      CountActiveSameFlags(p[..|p| - 1], q[..|q| - 1]);
    }
  }

  /** Changing the master volume changes nothing but volumes: every slot
      keeps its sample, cursor and active flag, so the pool stays well
      formed, the count of busy slots is unchanged and so is `isPlaying`. */
  lemma SetMasterVolumeKeeps(p: Pool, volume: real)
    ensures forall i | 0 <= i < MAX_CONCURRENT_SAMPLES ::
      SetMasterVolume(p, volume)[i].(volume := p[i].volume) == p[i]
    ensures PoolWf(p) ==> PoolWf(SetMasterVolume(p, volume))
    ensures CountActive(SetMasterVolume(p, volume)) == CountActive(p)
    ensures IsPlaying(SetMasterVolume(p, volume)) == IsPlaying(p)
  {
    CountActiveSameFlags(SetMasterVolume(p, volume), p);
  }

  /** The scan of `isPlaying` from slot `start` on. */
  function AnyActiveFrom(p: seq<Voice>, start: nat): (r: bool)
    requires start <= |p|
    ensures r <==> exists i | start <= i < |p| :: p[i].active
    decreases |p| - start
  {
    if start == |p| then false
    else if p[start].active then true
    else AnyActiveFrom(p, start + 1)
  }

  /** `isPlaying`: some slot is busy. */
  function IsPlaying(p: Pool): (r: bool)
    ensures r <==> CountActive(p) > 0
  {
    CountActiveNone(p);
    AnyActiveFrom(p, 0)
  }
}
