/** Facts about Euclidean division and remainder that the solver does not
    find on its own when the divisor is a large constant. */
module Arith {

  /** A multiple of n strictly between -n and n is zero. */
  lemma MultipleInRange(k: int, n: int)
    requires n > 0 && -n < k * n < n
    ensures k == 0
  {
    assert k * n == (k - 1) * n + n == (k + 1) * n - n;
    assert k >= 1 ==> (k - 1) * n >= 0;
    assert k <= -1 ==> (k + 1) * n <= 0;
  }

  /** Division with remainder has one answer. */
  lemma DivModUnique(x: int, n: int, q: int, r: int)
    requires n > 0 && 0 <= r < n && x == q * n + r
    ensures x / n == q && x % n == r
  {
    var q0, r0 := x / n, x % n;
    assert x == q0 * n + r0;
    assert (q - q0) * n == r0 - r;
    MultipleInRange(q - q0, n);
  }

  /** Two numbers less than n apart have different remainders modulo n. */
  lemma ModDistinct(a: int, b: int, n: int)
    requires 0 <= a < b < a + n
    ensures a % n != b % n
  {
    var qa, qb := a / n, b / n;
    assert a == qa * n + a % n && b == qb * n + b % n;
    if a % n == b % n {
      assert (qb - qa) * n == b - a;
      MultipleInRange(qb - qa, n);
    }
  }

  /** Adding n keeps the remainder modulo n. */
  lemma ModShift(a: int, n: int)
    requires 0 <= a && 0 < n
    ensures (a + n) % n == a % n
  {
    assert a == (a / n) * n + a % n;
    assert a + n == (a / n + 1) * n + a % n;
    DivModUnique(a + n, n, a / n + 1, a % n);
  }

  /** A number below n is its own remainder. */
  lemma ModSmall(x: int, n: int)
    requires 0 <= x < n
    ensures x % n == x
  {
    DivModUnique(x, n, 0, x);
  }
}
