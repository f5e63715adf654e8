/** Division by a positive number. */
module Arith {

  lemma DivModUnique(x: int, n: int, q: int, r: int)
    requires n > 0 && x == q * n + r && 0 <= r < n
    ensures x / n == q && x % n == r
  {
    var q', r' := x / n, x % n;
    assert x == q' * n + r';
    assert (q - q') * n == r' - r;
    if q > q' {
      assert (q - q') * n >= n by { AtLeastOnce(q - q', n); }
    } else if q < q' {
      assert (q' - q) * n >= n by { AtLeastOnce(q' - q, n); }
    }
  }

  lemma AtLeastOnce(k: int, n: int)
    requires k >= 1 && n > 0
    ensures k * n >= n
  {
    assert k * n == n + (k - 1) * n;
    assert (k - 1) * n >= 0;
  }

  /** Adding a multiple of n does not change the residue. */
  lemma ModShift(x: int, n: int, k: int)
    requires n > 0
    ensures (x + k * n) % n == x % n
  {
    assert x + k * n == (x / n + k) * n + x % n;
    DivModUnique(x + k * n, n, x / n + k, x % n);
  }

  lemma MultipleHasNoRest(k: int, n: int)
    requires n > 0
    ensures (k * n) % n == 0 && (k * n) / n == k
  {
    DivModUnique(k * n, n, k, 0);
  }

  /** Division loses nothing, and does not grow. */
  lemma DivModSplits(x: int, n: int)
    requires n > 0 && x >= 0
    ensures x == x / n * n + x % n && 0 <= x % n < n && 0 <= x / n <= x
  {
    ProductAtLeast(x / n, n);
  }

  lemma ProductAtLeast(q: int, n: int)
    requires q >= 0 && n > 0
    ensures q * n >= q
  {
    assert q * n == q + q * (n - 1);
    assert q * (n - 1) >= 0;
  }
}
