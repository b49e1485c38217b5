/** Integer division facts shared by the register codec and the brightness conversion. */
module Arithmetic {

  lemma DivMod(n: int, d: int)
    requires d > 0
    ensures n == d * (n / d) + n % d && 0 <= n % d < d
  {
  }

  /** Division by d is determined by any quotient and remainder in 0..d-1. */
  lemma DivModUnique(n: int, d: int, q: int, r: int)
    requires d > 0 && 0 <= r < d && n == q * d + r
    ensures n / d == q && n % d == r
  {
    DivMod(n, d);
    var q', r' := n / d, n % d;
    assert (q - q') * d == r' - r;
    if q > q' {
      MulAtLeast(q - q', d);
    } else if q < q' {
      MulAtLeast(q' - q, d);
    }
  }

  lemma MulAtLeast(k: int, d: int)
    requires k >= 1 && d > 0
    ensures k * d >= d
  {
  }

  lemma ModOfShift(n: int, k: int, d: int)
    requires d > 0 && 0 <= n + k * d < d
    ensures n % d == n + k * d
  {
    DivModUnique(n, d, -k, n + k * d);
  }
}
