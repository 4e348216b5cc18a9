/**
 * Swift's integer `/` and `%` on `Int`. Unlike Dafny's Euclidean operators they
 * truncate toward zero, so the remainder takes the sign of the dividend. Every
 * divisor the timer code uses is a positive literal (1000 or 60000).
 */
module SwiftInt {

  /** `a / b` in Swift: the quotient rounded toward zero, so it has the sign of `a`. */
  function Div(a: int, b: int): (q: int)
    requires b > 0
    ensures 0 <= a ==> 0 <= q
    ensures a <= 0 ==> q <= 0
  {
    if a >= 0 then a / b else -((-a) / b)
  }

  /** `a % b` in Swift: the remainder has the sign of `a` and is smaller than `b` in size. */
  function Rem(a: int, b: int): (r: int)
    requires b > 0
    ensures 0 <= a ==> 0 <= r < b
    ensures a < 0 ==> -b < r <= 0
  {
    if a >= 0 then a % b else -((-a) % b)
  }

  /** Quotient and remainder rebuild the dividend, whatever its sign. */
  lemma DivRem(a: int, b: int)
    requires b > 0
    ensures Div(a, b) * b + Rem(a, b) == a
  {
    if a >= 0 {
      assert a == (a / b) * b + a % b;
    } else {
      var n := -a;
      assert n == (n / b) * b + n % b;
      assert Div(a, b) * b == -((n / b) * b);
    }
  }

  /** On a non-negative dividend Swift and Dafny agree. */
  lemma AgreesOnNonNegative(a: int, b: int)
    requires a >= 0 && b > 0
    ensures Div(a, b) == a / b && Rem(a, b) == a % b
  {
  }
}
