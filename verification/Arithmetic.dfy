/** Facts about multiples, quotients and remainders that the closed forms rest on. */
module Arithmetic {

  lemma MulLe(a: int, b: int, c: nat)
    requires a <= b
    ensures a * c <= b * c
  {}

  lemma NoMultiple(d: int, n: nat, x: int)
    requires d * n == x && 0 - n < x < n
    ensures d == 0
  {
    if d > 0 { MulLe(1, d, n); } else if d < 0 { MulLe(d, -1, n); }
  }

  /** Quotient and remainder are determined by where they put the number. */
  lemma QuotientIs(k: nat, n: nat, q: nat, m: nat)
    requires n > 0 && k == q * n + m && m < n
    ensures k / n == q && k % n == m
  {
    var d := k / n - q;
    assert d * n == k / n * n - q * n;
    NoMultiple(d, n, m - k % n);
  }

  /** Counting on by one either stays in the same group of `n` or opens the next. */
  lemma Next(k: nat, n: nat)
    requires n > 0
    ensures k % n + 1 < n ==> (k + 1) / n == k / n && (k + 1) % n == k % n + 1
    ensures k % n + 1 == n ==> (k + 1) / n == k / n + 1 && (k + 1) % n == 0 && (k + 1) / n * n == k + 1
  {
    var q, m := k / n, k % n;
    if m + 1 < n {
      QuotientIs(k + 1, n, q, m + 1);
    } else {
      assert (q + 1) * n == q * n + n;
      QuotientIs(k + 1, n, q + 1, 0);
    }
  }

  lemma QuotientsLe(q1: nat, m1: nat, q2: nat, m2: nat, n: nat)
    requires m2 < n && q1 * n + m1 <= q2 * n + m2
    ensures q1 <= q2
  {
    if q1 > q2 { MulLe(q2 + 1, q1, n); }
  }

  lemma DivLe(a: nat, b: nat, n: nat)
    requires n > 0 && a <= b
    ensures a / n <= b / n
  {
    QuotientsLe(a / n, a % n, b / n, b % n, n);
  }
}
