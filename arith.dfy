/** Facts about Euclidean division that the solver does not find on its own. */
module Arith {

  lemma {:induction false} MulAtLeast(d: nat, k: int)
    requires k > 0 && d >= 1
    ensures d * k >= k
  {
    if d > 1 {
      MulAtLeast(d - 1, k);
      assert d * k == (d - 1) * k + k;
    }
  }

  lemma MulSign(d: int, k: int)
    requires k > 0
    ensures d >= 1 ==> d * k >= k
    ensures d == 0 ==> d * k == 0
    ensures d <= -1 ==> d * k <= -k
  {
    if d >= 1 {
      MulAtLeast(d, k);
    }
    if d <= -1 {
      MulAtLeast(-d, k);
      assert d * k == -((-d) * k);
    }
  }

  /** Quotient and remainder are the only pair that rebuilds `n`. */
  lemma DivModUnique(n: int, k: int, q: int, r: int)
    requires k > 0 && 0 <= r < k && n == q * k + r
    ensures n / k == q && n % k == r
  {
    var d := q - n / k;
    assert n == (n / k) * k + n % k;
    assert d * k == n % k - r by {
      assert q * k - (n / k) * k == (q - n / k) * k;
    }
    MulSign(d, k);
  }

  lemma MultipleOf(q: int, k: int)
    requires k > 0
    ensures (q * k) % k == 0
  {
    DivModUnique(q * k, k, q, 0);
  }

  /** A multiple of `k` is its quotient times `k`. */
  lemma MultipleQuotient(a: int, k: int)
    requires k > 0 && a % k == 0
    ensures a == (a / k) * k
  {
  }

  /** Two distinct multiples of `k` are at least `k` apart. */
  lemma MultiplesApart(a: int, b: int, k: int)
    requires k > 0 && a % k == 0 && b % k == 0 && a < b
    ensures a + k <= b
  {
    MultipleQuotient(a, k);
    MultipleQuotient(b, k);
    var d := b / k - a / k;
    assert d * k == b - a by {
      assert (b / k) * k - (a / k) * k == (b / k - a / k) * k;
    }
    MulSign(d, k);
  }

  /** A multiple of `k` is a multiple of every divisor of `k`. */
  lemma MultipleOfDivisor(a: int, k: int, d: int)
    requires d > 0 && k > 0 && a % k == 0 && k % d == 0
    ensures a % d == 0
  {
    MultipleQuotient(a, k);
    MultipleQuotient(k, d);
    var q := (a / k) * (k / d);
    assert a == q * d by {
      assert a == (a / k) * ((k / d) * d);
    }
    MultipleOf(q, d);
  }
}
