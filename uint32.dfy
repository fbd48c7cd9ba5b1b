/** Unsigned 32-bit arithmetic as the firmware's `uint32_t` performs it. */
module Uint32 {

  const Modulus: int := 0x1_0000_0000

  /** A `uint32_t` value. */
  type U32 = x: int | 0 <= x < Modulus

  /** The largest `uint32_t` (and, on the 32-bit target, `ULONG_MAX`). */
  const Max: U32 := Modulus - 1

  /** `now - since` evaluated in `uint32_t`, which wraps around modulo 2^32. */
  function Elapsed(now: U32, since: U32): (d: U32)
    ensures d == (now - since) % Modulus
    ensures now >= since ==> d == now - since
  {
    if now >= since then now - since else now - since + Modulus
  }

}
