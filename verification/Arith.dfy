/** Facts about division, each proved once without the solver's non-linear search. */
module Arith {
  lemma Grows(x: int, m: int)
    requires m > 0
    ensures x >= 1 ==> x * m >= m
    ensures x <= -1 ==> x * m <= -m
  {
    if x >= 1 { assert (x - 1) * m >= 0; }
    if x <= -1 { assert (-1 - x) * m >= 0; }
  }

  lemma SameQuotient(d: int, e: int, q: int, r: int, m: nat)
    requires d * m + e == q * m + r && 0 <= e < m && 0 <= r < m
    ensures d == q && e == r
  {
    assert (d - q) * m == r - e;
    Grows(d - q, m);
  }

  lemma QuotientUnique(n: nat, m: nat, q: int, r: nat)
    requires m > 0 && n == q * m + r && r < m
    ensures n / m == q && n % m == r
  {
    var d, e := n / m, n % m;
    assert n == d * m + e;
    SameQuotient(d, e, q, r, m);
  }

  lemma MonotoneTimes(a: int, b: int, m: nat)
    requires a <= b
    ensures a * m <= b * m
  {
    assert (b - a) * m >= 0;
  }

  lemma Associate(a: int, b: int, c: int)
    ensures a * b * c == a * (b * c)
  {
  }

  lemma Distribute(a: int, b: int, c: int)
    ensures (a + b) * c == a * c + b * c
  {
  }
}
