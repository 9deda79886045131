/**
  C arithmetic that differs from Dafny's: the float-to-int cast truncates toward zero, integer
  `/` truncates toward zero and `%` takes the sign of the dividend (Dafny's `/` and `%` are
  Euclidean), and `fmod` keeps the sign of the dividend.
 */
module CArith {

  /** `(int)r`: drops the fractional part, rounding toward zero. */
  function Trunc(r: real): (n: int)
    ensures 0.0 <= r ==> n as real <= r < n as real + 1.0
    ensures r < 0.0 ==> n as real - 1.0 < r <= n as real
  {
    if r >= 0.0 then r.Floor else -((-r).Floor)
  }

  /** C's `a / b` on int for a positive divisor: the quotient rounded toward zero. */
  function TDiv(a: int, b: int): (q: int)
    requires b > 0
    ensures 0 <= a ==> 0 <= a - b * q < b
    ensures a < 0 ==> -b < a - b * q <= 0
  {
    if a >= 0 then a / b else -((-a) / b)
  }

  /** C's `a % b` on int for a positive divisor: the remainder takes the sign of `a`. */
  function TRem(a: int, b: int): (m: int)
    requires b > 0
    ensures -b < m < b
    ensures m == 0 || (m < 0 <==> a < 0)
  {
    a - b * TDiv(a, b)
  }

  /** A C remainder by 2 is nonzero exactly when the number is odd. */
  lemma TRemTwo(n: int)
    ensures TRem(n, 2) != 0 <==> n % 2 == 1
  {
  }

  /** C's `fmod(a, 2.0)`: `a - 2n` with `n` the quotient `a / 2` truncated toward zero. */
  function FModTwo(a: real): (r: real)
    ensures 0.0 <= a ==> 0.0 <= r < 2.0
    ensures a < 0.0 ==> -2.0 < r <= 0.0
    ensures ((a - r) / 2.0).Floor as real == (a - r) / 2.0
  {
    a - 2.0 * Trunc(a / 2.0) as real
  }
}
