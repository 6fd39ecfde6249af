/** Powers of two, and division by any number, not only a constant. */
module Arithmetic {

  function Pow2(n: nat): (p: nat)
    ensures p > 0
  {
    if n == 0 then 1 else 2 * Pow2(n - 1)
  }

  lemma Products(a: int, b: int, n: nat)
    requires a < b
    ensures a * n + n <= b * n
    decreases b - a
  {
    if a + 1 < b {
      Products(a, b - 1, n);
    } else {
      assert (a + 1) * n == a * n + n;
    }
  }

  /** A quotient and a remainder are the only ones. */
  lemma Divides(x: nat, n: nat, q: int, r: nat)
    requires r < n && x == q * n + r
    ensures x % n == r && x / n == q
  {
    var d, m := x / n, x % n;
    assert x == d * n + m;
    if d < q {
      Products(d, q, n);
    } else if q < d {
      Products(q, d, n);
    }
  }
}
