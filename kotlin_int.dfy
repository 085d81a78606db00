/**
 * The integer arithmetic of the Kotlin/JVM runtime that the launcher relies on:
 * 32-bit `Int` with two's-complement wrap-around, `Float.toInt()` (which clamps
 * to the `Int` range) and `Long` division (which truncates toward zero).
 */
module KotlinInt {

  const INT_MIN: int := -0x8000_0000
  const INT_MAX: int := 0x7fff_ffff
  const INT_MODULUS: int := 0x1_0000_0000

  /** A value of Kotlin's `Int`. */
  type Int32 = x: int | INT_MIN <= x <= INT_MAX

  /** `Int` addition and subtraction: the mathematical result reduced modulo 2^32. */
  function Wrap32(x: int): (r: Int32)
    ensures (x - r) % INT_MODULUS == 0
    ensures INT_MIN <= x <= INT_MAX ==> r == x
  {
    (x - INT_MIN) % INT_MODULUS + INT_MIN
  }

  /** Wrapping an intermediate sum does not change the wrapped total. */
  lemma WrapAddLeft(a: int, b: int)
    ensures Wrap32(Wrap32(a) + b) == Wrap32(a + b)
  {
    var q := (a - INT_MIN) / INT_MODULUS;
    assert Wrap32(a) + b - INT_MIN == (a + b - INT_MIN) - q * INT_MODULUS;
    ModShift(a + b - INT_MIN, q);
  }

  lemma ModShift(x: int, q: int)
    ensures (x - q * INT_MODULUS) % INT_MODULUS == x % INT_MODULUS
  {
    var r := x % INT_MODULUS;
    var d := x / INT_MODULUS;
    assert x == d * INT_MODULUS + r;
    assert x - q * INT_MODULUS == (d - q) * INT_MODULUS + r;
  }

  /** `Float.toInt()`: rounds toward zero (the model already holds an integer) and clamps to `Int`. */
  function SaturateToInt(x: int): (r: Int32)
    ensures INT_MIN <= x <= INT_MAX ==> r == x
    ensures x > INT_MAX ==> r == INT_MAX
    ensures x < INT_MIN ==> r == INT_MIN
  {
    if x > INT_MAX then INT_MAX else if x < INT_MIN then INT_MIN else x
  }

  /** JVM `long` division by a positive divisor: the quotient is truncated toward zero. */
  function TruncDiv(a: int, b: int): (q: int)
    requires b > 0
    ensures a >= 0 ==> q >= 0 && q * b <= a < q * b + b
    ensures a < 0 ==> q <= 0 && q * b - b < a <= q * b
  {
    if a >= 0 then a / b else -((-a) / b)
  }
}
