/** The sample-slot table of the SD-card loader: six slots, one per track,
    each holding a loaded sample's bytes and size or nothing (sdloader.h,
    sdloader.cpp). The card itself is a parameter: a map from file name to
    what opening and reading that file yields, a name absent from the map
    being a file that does not exist. `malloc` succeeding or failing is part
    of that outcome. */
module SampleLoader {
  import opened Units

  const MAX_SAMPLE_SIZE: int := 32768
  const NUM_SAMPLE_SLOTS: int := 6

  /** The file each slot is loaded from by `loadAllSamples`. */
  const SAMPLE_FILES: seq<string> := [
    "/samples/kick.raw",
    "/samples/snare.raw",
    "/samples/hihat.raw",
    "/samples/perc.raw",
    "/samples/bass.raw",
    "/samples/lead.raw"
  ]

  /** One slot: the (possibly null) buffer pointer, the recorded size and
      the loaded flag. */
  datatype Slot = Slot(data: Option<seq<byte>>, size: u32, loaded: bool)
  {
    /** The slot invariant: a loaded slot owns a non-null buffer of exactly
        its size, between 1 and 32768 bytes; an unloaded slot has a null
        buffer and size 0. */
    predicate Ok() {
      if loaded then data.Some? && 0 < size <= MAX_SAMPLE_SIZE && size == |data.value|
      else data.None? && size == 0
    }
  }

  function EmptySlot(): Slot {
    Slot(None, 0, false)
  }

  type Slots = s: seq<Slot> | |s| == NUM_SAMPLE_SLOTS witness seq(NUM_SAMPLE_SLOTS, _ => Slot(None, 0, false))

  predicate SlotsOk(s: Slots) {
    forall i | 0 <= i < NUM_SAMPLE_SLOTS :: s[i].Ok()
  }

  predicate ValidSlot(slot: int) {
    0 <= slot < NUM_SAMPLE_SLOTS
  }

  /** What the card yields for a file that exists: either `SD.open` fails,
      or it opens with a reported size, the allocation of the read buffer
      succeeds or not, and `contents` are the bytes a read can deliver (fewer
      than the reported size models a short read). */
  datatype FileProbe =
    | OpenFails
    | Opens(fileSize: u32, allocationSucceeds: bool, contents: seq<byte>)

  type Card = map<string, FileProbe>

  /** The constructor: every slot empty. */
  function NewLoader(): (s: Slots)
    ensures SlotsOk(s)
    ensures forall i | ValidSlot(i) :: !s[i].loaded
  {
    seq(NUM_SAMPLE_SLOTS, _ => EmptySlot())
  }

  /** A file's reported size, capped at 32768: a longer file is truncated,
      not rejected. */
  function CappedSize(fileSize: u32): (n: u32)
    ensures n <= MAX_SAMPLE_SIZE && n <= fileSize
    ensures n == fileSize || n == MAX_SAMPLE_SIZE
  {
    if fileSize > MAX_SAMPLE_SIZE then MAX_SAMPLE_SIZE else fileSize
  }

  /** The conditions under which loading `filename` succeeds, one per error
      path of `loadSample`: the file exists, opens, is not empty, the buffer
      is allocated, and the read delivers every byte asked for. */
  predicate LoadSucceeds(card: Card, filename: string) {
    && filename in card
    && card[filename].Opens?
    && card[filename].fileSize > 0
    && card[filename].allocationSucceeds
    && |card[filename].contents| >= CappedSize(card[filename].fileSize)
  }

  /** `freeSample`: the slot is left empty; an out-of-range slot is ignored. */
  function FreeSample(s: Slots, slot: int): (r: Slots)
    ensures !ValidSlot(slot) ==> r == s
    ensures ValidSlot(slot) ==> !r[slot].loaded && r[slot].size == 0 && r[slot].data.None?
    ensures forall i | ValidSlot(i) && i != slot :: r[i] == s[i]
    ensures SlotsOk(s) ==> SlotsOk(r)
  {
    if slot < 0 || slot >= NUM_SAMPLE_SLOTS then s
    else s[slot := s[slot].(data := None).(size := 0, loaded := false)]
  }

  /** `loadSample`. The slot is freed first, so every failure after the
      range check leaves it empty even if it held a sample before. On
      success the slot holds the first `min(size, 32768)` bytes of the file.
      No other slot changes. */
  function LoadSample(s: Slots, slot: int, card: Card, filename: string): (r: (Slots, bool))
    ensures r.1 <==> ValidSlot(slot) && LoadSucceeds(card, filename)
    ensures !ValidSlot(slot) ==> r.0 == s
    ensures ValidSlot(slot) && !r.1 ==> r.0[slot] == EmptySlot()
    ensures r.1 ==>
      var n := CappedSize(card[filename].fileSize);
      r.0[slot] == Slot(Some(card[filename].contents[..n]), n, true)
    ensures forall i | ValidSlot(i) && i != slot :: r.0[i] == s[i]
    ensures SlotsOk(s) ==> SlotsOk(r.0)
  {
    if slot < 0 || slot >= NUM_SAMPLE_SLOTS then (s, false)
    else
      var freed := FreeSample(s, slot);
      if filename !in card then (freed, false)
      else match card[filename]
        case OpenFails => (freed, false)
        case Opens(fileSize, allocationSucceeds, contents) =>
          if fileSize == 0 then (freed, false)
          else
            var size := CappedSize(fileSize);
            if !allocationSucceeds then (freed, false)
            else
              var bytesRead := Min(size, |contents|);
              var withBuffer := freed[slot := freed[slot].(data := Some(contents[..bytesRead]))];
              if bytesRead != size then (FreeSample(withBuffer, slot), false)
              else (withBuffer[slot := withBuffer[slot].(size := size, loaded := true)], true)
  }

  /** A file longer than 32768 bytes is loaded truncated to its first 32768
      bytes. */
  lemma LongFileTruncated(s: Slots, slot: int, card: Card, filename: string)
    requires ValidSlot(slot) && filename in card && card[filename].Opens?
    requires card[filename].fileSize > MAX_SAMPLE_SIZE && card[filename].allocationSucceeds
    requires |card[filename].contents| >= MAX_SAMPLE_SIZE
    ensures LoadSample(s, slot, card, filename).1
    ensures LoadSample(s, slot, card, filename).0[slot].size == MAX_SAMPLE_SIZE
    ensures LoadSample(s, slot, card, filename).0[slot].data == Some(card[filename].contents[..MAX_SAMPLE_SIZE])
  {
  }

  /** `loadCustomSample`: the same range check, then `loadSample`. */
  function LoadCustomSample(s: Slots, slot: int, card: Card, filename: string): (r: (Slots, bool))
    ensures r == LoadSample(s, slot, card, filename)
  {
    if slot < 0 || slot >= NUM_SAMPLE_SLOTS then (s, false)
    else LoadSample(s, slot, card, filename)
  }

  /** The slot a single load attempt of `filename` leaves behind. */
  function Attempted(card: Card, filename: string): (sl: Slot)
    ensures sl.Ok()
  {
    if LoadSucceeds(card, filename) then
      var n := CappedSize(card[filename].fileSize);
      Slot(Some(card[filename].contents[..n]), n, true)
    else EmptySlot()
  }

  /** The loop of `loadAllSamples` from slot `start` on: every slot is
      attempted, and the result is true iff every attempt succeeded. */
  function LoadAllFrom(s: Slots, card: Card, start: nat): (r: (Slots, bool))
    requires start <= NUM_SAMPLE_SLOTS
    ensures r.1 <==> forall j | start <= j < NUM_SAMPLE_SLOTS :: LoadSucceeds(card, SAMPLE_FILES[j])
    ensures forall j | 0 <= j < start :: r.0[j] == s[j]
    ensures forall j | start <= j < NUM_SAMPLE_SLOTS :: r.0[j] == Attempted(card, SAMPLE_FILES[j])
    decreases NUM_SAMPLE_SLOTS - start
  {
    if start == NUM_SAMPLE_SLOTS then (s, true)
    else
      var first := LoadSample(s, start, card, SAMPLE_FILES[start]);
      var rest := LoadAllFrom(first.0, card, start + 1);
      (rest.0, first.1 && rest.1)
  }

  /** `loadAllSamples`: each slot ends as its own file's load attempt left
      it, and the result reports whether all six loads succeeded. */
  function LoadAllSamples(s: Slots, card: Card): (r: (Slots, bool))
    ensures r.1 <==> forall j | ValidSlot(j) :: LoadSucceeds(card, SAMPLE_FILES[j])
    ensures forall j | ValidSlot(j) :: r.0[j] == Attempted(card, SAMPLE_FILES[j])
    ensures SlotsOk(r.0)
    ensures r.1 ==> forall j | ValidSlot(j) :: r.0[j].loaded
  {
    LoadAllFrom(s, card, 0)
  }

  /** The loop of `unloadAllSamples` from slot `start` on. */
  function UnloadFrom(s: Slots, start: nat): (r: Slots)
    requires start <= NUM_SAMPLE_SLOTS
    ensures forall j | 0 <= j < start :: r[j] == s[j]
    ensures forall j | start <= j < NUM_SAMPLE_SLOTS :: !r[j].loaded && r[j].size == 0 && r[j].data.None?
    decreases NUM_SAMPLE_SLOTS - start
  {
    if start == NUM_SAMPLE_SLOTS then s
    else UnloadFrom(FreeSample(s, start), start + 1)
  }

  /** `unloadAllSamples`: every slot empty. */
  function UnloadAllSamples(s: Slots): (r: Slots)
    ensures forall j | ValidSlot(j) :: r[j] == EmptySlot()
    ensures SlotsOk(r)
  {
    UnloadFrom(s, 0)
  }

  /** `getSampleData`: the slot's buffer, null for an out-of-range or
      unloaded slot. */
  function GetSampleData(s: Slots, slot: int): Option<seq<byte>> {
    if slot < 0 || slot >= NUM_SAMPLE_SLOTS || !s[slot].loaded then None
    else s[slot].data
  }

  /** `getSampleSize`: the slot's size, 0 for an out-of-range or unloaded
      slot. */
  function GetSampleSize(s: Slots, slot: int): u32 {
    if slot < 0 || slot >= NUM_SAMPLE_SLOTS || !s[slot].loaded then 0
    else s[slot].size
  }

  /** `isSampleLoaded`: the slot's flag, false for an out-of-range slot. */
  function IsSampleLoaded(s: Slots, slot: int): bool {
    if slot < 0 || slot >= NUM_SAMPLE_SLOTS then false
    else s[slot].loaded
  }

  /** The getters fail closed: an out-of-range or unloaded slot yields
      null and 0, and a loaded slot its own buffer and size. */
  lemma GettersFailClosed(s: Slots, slot: int)
    ensures !ValidSlot(slot) || !s[slot].loaded ==> GetSampleData(s, slot).None? && GetSampleSize(s, slot) == 0
    ensures ValidSlot(slot) && s[slot].loaded ==> GetSampleData(s, slot) == s[slot].data && GetSampleSize(s, slot) == s[slot].size
    ensures IsSampleLoaded(s, slot) <==> ValidSlot(slot) && s[slot].loaded
  {
  }

  /** The getters fail closed and agree with each other: a slot yields a
      non-null buffer iff it yields a non-zero size iff it is loaded, and the
      size is then the buffer's length, at most 32768. */
  lemma GettersAgree(s: Slots, slot: int)
    requires SlotsOk(s)
    ensures GetSampleData(s, slot).Some? <==> IsSampleLoaded(s, slot)
    ensures GetSampleSize(s, slot) > 0 <==> IsSampleLoaded(s, slot)
    ensures GetSampleData(s, slot).Some? ==>
      GetSampleSize(s, slot) == |GetSampleData(s, slot).value| <= MAX_SAMPLE_SIZE
  {
  }
}
