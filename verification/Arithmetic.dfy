/** Facts about numbers that several parts need. */
module Arithmetic {
  function Abs(x: real): (r: real)
    ensures r >= 0.0 && (r == x || r == -x)
  {
    if x < 0.0 then -x else x
  }

  lemma NonNegativeProduct(a: real, b: real)
    requires a >= 0.0 && b >= 0.0
    ensures a * b >= 0.0
  {
  }

  /** Quotient and remainder are unique. */
  lemma RemainderIs(n: int, q: int, m: int, r: int)
    requires 0 <= r < m && n == r + q * m
    ensures n % m == r
  {
    var d := n / m - q;
    assert n % m - r == -d * m;
    if d >= 1 {
      AtLeastOnce(d, m);
    } else if d <= -1 {
      AtLeastOnce(-d, m);
    }
  }

  lemma AtLeastOnce(d: int, m: int)
    requires d >= 1 && m >= 0
    ensures d * m >= m
  {
  }
}
