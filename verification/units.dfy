/** Machine-level types shared by every component of the drum machine:
    8-bit samples, 32-bit unsigned timestamps, and a null-or-value wrapper
    standing for the C pointers that may be null. */
module Units {

  /** An 8-bit unsigned sample value (`uint8_t`). */
  newtype byte = x: int | 0 <= x < 256

  const U32_MODULUS: int := 0x1_0000_0000

  /** A 32-bit unsigned value (`uint32_t`, and `unsigned long` on the ESP32). */
  type u32 = x: int | 0 <= x < U32_MODULUS

  /** A pointer that may be null: `None` is the null pointer. */
  datatype Option<+T> = None | Some(value: T)

  /** `now - last` computed in 32-bit unsigned arithmetic, as the firmware's
      `currentTime - lastStepTime` and `currentTime - lastSampleTime` are:
      the clock may have wrapped around between the two readings. The
      result is the distance forward from `last` to `now`: added to `last`
      it reaches `now`, directly or after one wrap. */
  function Elapsed(now: u32, last: u32): (r: u32)
    ensures last + r == now || last + r == now + U32_MODULUS
  {
    if last <= now then now - last else now - last + U32_MODULUS
  }

  /** `Elapsed` is subtraction modulo 2^32, and it is the unique 32-bit
      distance that, added to `last`, wraps around to `now`. */
  lemma ElapsedIsWrappingSubtraction(now: u32, last: u32, d: u32)
    ensures Elapsed(now, last) == (now - last) % U32_MODULUS
    ensures (last + Elapsed(now, last)) % U32_MODULUS == now
    ensures (last + d) % U32_MODULUS == now ==> d == Elapsed(now, last)
  {
  }

  function Min(a: int, b: int): (r: int)
    ensures r <= a && r <= b
    ensures r == a || r == b
  {
    if a < b then a else b
  }
}
