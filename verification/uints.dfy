/** Fixed-width unsigned and signed integers of the game, as subset types of
    the unbounded `int`.  Overflow is never modelled as wrap-around: every
    operation that could leave its range carries a precondition instead, so a
    verified caller is one that never overflows. */
module Uints {

  const U8_LIMIT: int := 0x100
  const U16_LIMIT: int := 0x1_0000
  const U32_LIMIT: int := 0x1_0000_0000

  type u8 = x: int | 0 <= x < U8_LIMIT
  type u16 = x: int | 0 <= x < U16_LIMIT
  type u32 = x: int | 0 <= x < U32_LIMIT
  type i16 = x: int | -0x8000 <= x < 0x8000

  function Min16(a: u16, b: u16): (r: u16)
    ensures r <= a && r <= b
    ensures r == a || r == b
  {
    if a <= b then a else b
  }

  /** `u16::saturating_sub`: the difference, clamped at zero instead of
      wrapping below it. */
  function SaturatingSub16(a: u16, b: u16): (r: u16)
    ensures b <= a ==> b + r == a
    ensures a <= b ==> r == 0
    ensures r <= a
  {
    if b <= a then a - b else 0
  }

  /** The plain `-` on `u16`: it panics (debug) or wraps (release) when the
      subtrahend is larger, so the model demands that it is not. */
  function CheckedSub16(a: u16, b: u16): (r: u16)
    requires b <= a
    ensures r + b == a
  {
    a - b
  }

  function Max32(a: u32, b: u32): (r: u32)
    ensures a <= r && b <= r
    ensures r == a || r == b
  {
    if a < b then b else a
  }
}
