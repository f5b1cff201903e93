/** Fixed-width unsigned integers of the Arduino platform and the wrap-safe
    millisecond arithmetic the button relies on. */
module Uint {

  const UINT16_MODULUS: int := 0x1_0000
  const UINT32_MODULUS: int := 0x1_0000_0000

  type uint8 = x: int | 0 <= x < 0x100
  type uint16 = x: int | 0 <= x < 0x1_0000
  type uint32 = x: int | 0 <= x < 0x1_0000_0000

  /** `now - since` computed on `uint32_t`: the number of milliseconds that
      lead from the timestamp `since` to the timestamp `now`, across a
      wrap-around of the clock if there was one. */
  function Elapsed(now: uint32, since: uint32): (d: uint32)
    ensures since <= now ==> d == now - since
  {
    if since <= now then now - since else now + UINT32_MODULUS - since
  }

  /** The elapsed time leads from `since` to `now` on the wrapping clock. */
  lemma ElapsedReachesNow(now: uint32, since: uint32)
    ensures (since + Elapsed(now, since)) % UINT32_MODULUS == now
  {
  }

  /** Wrap-safety: whatever the starting timestamp, `d` milliseconds later
      (modulo 2^32) the elapsed time reads back as exactly `d`. */
  lemma ElapsedAfter(since: uint32, d: uint32)
    ensures Elapsed((since + d) % UINT32_MODULUS, since) == d
  {
  }

  /** Durations measured from a common origin `t0` subtract: if `y` lies no
      later than `x` after `t0`, the time from `y` to `x` is the difference. */
  lemma ElapsedChain(x: uint32, y: uint32, t0: uint32)
    requires Elapsed(y, t0) <= Elapsed(x, t0)
    ensures Elapsed(x, y) == Elapsed(x, t0) - Elapsed(y, t0)
  {
  }

  /** Assigning a `uint32_t` to a `uint16_t` keeps the low 16 bits. */
  function Low16(x: uint32): (r: uint16)
    ensures r <= x
    ensures x < UINT16_MODULUS ==> r == x
    ensures (x - r) % UINT16_MODULUS == 0
  {
    x % UINT16_MODULUS
  }
}
