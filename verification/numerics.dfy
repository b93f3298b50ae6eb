/** Truncation of a real toward zero, shared by every module that models a
    conversion from a floating-point value to a whole number: Python's
    `int()` on a float, Java's `(long)` cast and `Number.longValue()` of a
    double all drop the fractional part and keep the sign.
 */
module Numerics {

  /** The whole number obtained by dropping the fractional part of `x`. */
  function Trunc(x: real): (n: int)
    ensures 0.0 <= x ==> 0 <= n && n as real <= x < n as real + 1.0
    ensures x < 0.0 ==> n <= 0 && n as real - 1.0 < x <= n as real
  {
    if x >= 0.0 then x.Floor else -((-x).Floor)
  }
}
