/**
 * Integer division as Rust's `i32` (and Java's `int`) operators compute
 * it: the quotient rounds towards zero and the remainder takes the sign
 * of the dividend.  Dafny's own `/` and `%` are Euclidean, so they agree
 * only on non-negative dividends.
 */
module RustInt {

  /**
   * `a / b` for a positive divisor: the quotient rounded towards zero,
   * so `r * b` never passes `a` on the way from zero.
   */
  function TruncDiv(a: int, b: int): (r: int)
    requires b > 0
    ensures a >= 0 ==> 0 <= r && r * b <= a < r * b + b
    ensures a < 0 ==> r <= 0 && r * b - b < a <= r * b
  {
    if a >= 0 then a / b else -((-a) / b)
  }

  /**
   * `a % b` for a positive divisor: it has the sign of the dividend, is
   * smaller than the divisor in size, and recombines with the quotient
   * to the dividend.
   */
  function TruncRem(a: int, b: int): (r: int)
    requires b > 0
    ensures a >= 0 ==> 0 <= r < b
    ensures a < 0 ==> -b < r <= 0
    ensures TruncDiv(a, b) * b + r == a
  {
    if a >= 0 then a % b
    else
      assert (-a) / b * b + (-a) % b == -a;
      -((-a) % b)
  }
}
