/** The few facts about products and quotients the proofs need. */
module Arithmetic {

  lemma TimesSucc(a: int, n: int)
    ensures a * (n + 1) == a * n + a
  {
  }

  lemma CancelFactor(a: int, b: int, c: int)
    requires c > 0 && a * c < b * c
    ensures a < b
  {
  }

  lemma DivisionBound(n: nat, c: int, d: int)
    requires c > 0 && (n - 1) * c <= d
    ensures n <= d / c + 1
  {
    var q := d / c;
    assert d < (q + 1) * c by { TimesSucc(c, q); }
    CancelFactor(n - 1, q + 1, c);
  }

  lemma TimesMonotone(a: nat, m: int, n: int)
    requires m <= n
    ensures a * m <= a * n
  {
  }

  lemma QuotientIs(x: int, p: int, q: int)
    requires p > 0 && q * p <= x < q * p + p
    ensures x / p == q
  {
    var r := x / p;
    assert r * p <= x < r * p + p;
    TimesSucc(p, q);
    TimesSucc(p, r);
    CancelFactor(r, q + 1, p);
    CancelFactor(q, r + 1, p);
  }

  lemma TimesDistribute(a: int, b: int, n: int)
    ensures (a + b) * n == a * n + b * n
  {
  }
}
