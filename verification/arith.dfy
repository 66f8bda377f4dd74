/** Integer helpers: minimum, maximum and the facts about floor division
    that the run and group counts need. */
module Arith {

  function Min(a: int, b: int): int {
    if a <= b then a else b
  }

  function Max(a: int, b: int): int {
    if a <= b then b else a
  }

  /** Integer division is determined by quotient and remainder. */
  lemma DivUnique(x: int, m: int, q: int, r: int)
    requires m >= 1 && 0 <= r < m && x == q * m + r
    ensures x / m == q
  {
    var q', r' := x / m, x % m;
    assert x == q' * m + r' && 0 <= r' < m;
    assert (q - q') * m == r' - r;
    if q > q' {
      MulAtLeast(q - q', m);
    } else if q < q' {
      MulAtLeast(q' - q, m);
    }
  }

  lemma MulAtLeast(a: int, m: int)
    requires a >= 1 && m >= 1
    ensures a * m >= m
  {
    assert a * m == (a - 1) * m + m;
  }

  /** `(n + m - 1) / m` is the number of slices of size `m` needed to
      cover `n` items: one more than for `n - m` items. */
  lemma CeilDivStep(n: int, m: int)
    requires n > m >= 1
    ensures (n + m - 1) / m == (n - m + m - 1) / m + 1
  {
    var x := n - 1;
    var q, r := x / m, x % m;
    assert x == q * m + r;
    assert x + m == (q + 1) * m + r;
    DivUnique(x + m, m, q + 1, r);
  }

  /** Multiplying by a positive number keeps order. */
  lemma MulMono(k: nat, n: nat, B: int)
    requires k <= n && B >= 1
    ensures k * B <= n * B
  {
    assert n * B == k * B + (n - k) * B;
  }

}
