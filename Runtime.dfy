/**
 * Stand-ins for the parts of the C# runtime and the Unity engine that the
 * game scripts lean on: nullable references, 32-bit `int` arithmetic and
 * `Mathf.Clamp` for integers.
 */
module Runtime {

  /** A reference that may be missing (`null` in C#). */
  datatype Option<+T> = None | Some(value: T)

  const INT32_MIN: int := -0x8000_0000
  const INT32_MAX: int := 0x7FFF_FFFF

  /** The values of a C# `int`. */
  type Int32 = x: int | INT32_MIN <= x <= INT32_MAX

  /** C#'s unchecked `int` arithmetic: the mathematical result reduced modulo 2^32 into the signed range. */
  function Wrap32(x: int): (r: Int32)
    ensures INT32_MIN <= x <= INT32_MAX ==> r == x
    ensures x > INT32_MAX && x <= 2 * INT32_MAX + 1 ==> r == x - 0x1_0000_0000
    ensures x < INT32_MIN && x >= 2 * INT32_MIN ==> r == x + 0x1_0000_0000
  {
    (x - INT32_MIN) % 0x1_0000_0000 + INT32_MIN
  }

  /**
   * Unity's `Mathf.Clamp(int value, int min, int max)`: below `min` gives
   * `min`, otherwise above `max` gives `max`, otherwise `value`. When
   * `min > max` the first test wins for values below `min` and every other
   * value is sent to `max`.
   */
  function Clamp(value: int, min: int, max: int): (r: int)
    ensures min <= max ==> min <= r <= max
    ensures min <= value <= max ==> r == value
    ensures r == value || r == min || r == max
    ensures value < min ==> r == min
  {
    if value < min then min
    else if value > max then max
    else value
  }
}
