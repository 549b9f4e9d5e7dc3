/** Integer widths and time units used throughout the gateway. */
module Numeric {

  /** One `DateTime` tick is 100 ns. */
  const TicksPerMillisecond: int := 10_000
  const TicksPerSecond: int := 10_000_000

  const Int32Min: int := -0x8000_0000
  const Int32Max: int := 0x7FFF_FFFF
  const Int64Min: int := -0x8000_0000_0000_0000
  const Int64Max: int := 0x7FFF_FFFF_FFFF_FFFF

  type Byte = x: int | 0 <= x < 0x100
  type Word = x: int | 0 <= x < 0x1_0000
  type Int32 = x: int | Int32Min <= x <= Int32Max

  /** C#'s unchecked 32-bit wrap-around of an integer result. */
  function Wrap32(x: int): (r: Int32)
    ensures (r - x) % 0x1_0000_0000 == 0
    ensures Int32Min <= x <= Int32Max ==> r == x
  {
    var m := x % 0x1_0000_0000;
    if m > Int32Max then m - 0x1_0000_0000 else m
  }

  /**
   * C#'s integer division, which truncates toward zero: the quotient is the one whose
   * remainder has the sign of the dividend and is smaller than the divisor.
   */
  function TruncDiv(a: int, b: int): (q: int)
    requires b > 0
    ensures a >= 0 ==> 0 <= q && b * q <= a < b * (q + 1)
    ensures a < 0 ==> q <= 0 && b * (q - 1) < a <= b * q
  {
    if a >= 0 then a / b else -((-a) / b)
  }
}
