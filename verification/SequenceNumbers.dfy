/** The unsigned C integers the agent stores, and the sequence-number arithmetic on them. */
module SequenceNumbers {
  type u8 = x: int | 0 <= x < 0x100
  type u32 = x: int | 0 <= x < 0x1_0000_0000

  /** Counting up and down in one byte. */
  function Next(b: u8): u8 {
    if b == 0xFF then 0 else b + 1
  }

  function Previous(b: u8): u8 {
    if b == 0 then 0xFF else b - 1
  }

  const HALF: int := 0x8000_0000
  const RANGE: int := 0x1_0000_0000

  /** The cast `(int32_t) s` that every freshness comparison applies first. */
  function Int32(s: u32): int {
    if s < HALF then s else s - RANGE
  }

  /** The macro `seqno_incr`: zero stays zero, the largest number wraps to one. */
  function Incr(s: u32): u32 {
    if s == 0 then 0 else if s == RANGE - 1 then 1 else s + 1
  }

  /** Addition of one to a `u_int32_t` without the macro: it wraps to zero. */
  function PlusOne(s: u32): u32 {
    if s == RANGE - 1 then 0 else s + 1
  }

  /** The cast keeps the number modulo the range, as two's complement does. */
  lemma Int32Means(s: u32)
    ensures -HALF <= Int32(s) < HALF && (Int32(s) - s) % RANGE == 0
  {
  }

  /** Zero, which stands for an unknown number, is never left and never reached by counting up. */
  lemma IncrMeans(s: u32)
    ensures (Incr(s) == 0 <==> s == 0) && (s != 0 && s + 1 < RANGE ==> Incr(s) == s + 1) && Incr(RANGE - 1) == 1
    ensures PlusOne(s) == (s + 1) % RANGE
  {
  }
}
