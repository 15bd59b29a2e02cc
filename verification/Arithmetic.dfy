/** Facts about division and finite sets that the solver needs to be told. */
module Arithmetic {

  /** Quotient and remainder are unique. */
  lemma ModUnique(x: int, m: int, q: int, r: int)
    requires 0 <= r < m && x == m * q + r
    ensures x % m == r
  {
    var p := x / m;
    assert x == m * p + x % m;
    if p < q {
      MulMonotone(m, p + 1, q);
    } else if q < p {
      MulMonotone(m, q + 1, p);
    }
  }

  lemma QuotientUnique(x: int, m: int, q: int, r: int)
    requires 0 <= r < m && x == m * q + r
    ensures x / m == q
  {
    ModUnique(x, m, q, r);
    var p := x / m;
    assert m * p == m * q;
    if p < q {
      MulMonotone(m, p + 1, q);
    } else {
      MulMonotone(m, q + 1, p + 1);
    }
  }

  lemma MulMonotone(m: int, a: int, b: int)
    requires 0 <= m && a <= b
    ensures m * a <= m * b
  {}

  lemma MulNext(m: int, a: int)
    ensures m * (a + 1) == m * a + m
  {}

  /** The numbers under n. */
  function Below(n: nat): (s: set<nat>)
    ensures |s| == n && forall i: nat :: i in s <==> i < n
  {
    if n == 0 then {} else Below(n - 1) + {n - 1}
  }

  lemma SubsetOfSameSize(a: set<nat>, b: set<nat>)
    requires a <= b && |a| >= |b|
    ensures a == b
  {
    assert b == a + (b - a);
  }
}
