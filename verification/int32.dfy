/**
 * The C++ `int` arithmetic the viewer performs on its dimensions: 32-bit
 * signed values whose overflow is undefined (so callers must avoid it), and
 * division that rounds toward zero.
 */
module Int32 {

  const MIN: int := -0x8000_0000
  const MAX: int := 0x7fff_ffff

  /** `x` is representable as a 32-bit signed `int`. */
  predicate IsInt32(x: int) {
    MIN <= x <= MAX
  }

  /**
   * C++ integer division `a / d` for a positive divisor: the quotient is
   * rounded toward zero, unlike Dafny's Euclidean `/`, which rounds a
   * negative dividend down.
   */
  function TruncDiv(a: int, d: int): (q: int)
    requires d > 0
    ensures 0 <= a ==> 0 <= q && q * d <= a < q * d + d
    ensures a < 0 ==> q <= 0 && q * d - d < a <= q * d
  {
    if a >= 0 then a / d else -((-a) / d)
  }
}
