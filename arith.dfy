/** Facts about Euclidean `%` with a variable divisor, which the solver does not find alone. */
module Arith {

  lemma {:induction false} MulAtLeast(d: int, n: int)
    requires d >= 1 && n > 0
    ensures d * n >= n
    decreases d
  {
    if d > 1 {
      MulAtLeast(d - 1, n);
      Distrib(d, d - 1, n);
    }
  }

  lemma Distrib(a: int, b: int, n: int)
    ensures a * n == b * n + (a - b) * n
  {
  }

  lemma ModUnique(a: int, n: int, q: int, r: int)
    requires n > 0 && 0 <= r < n && a == q * n + r
    ensures a % n == r && a / n == q
  {
    var q0, r0 := a / n, a % n;
    assert a == q0 * n + r0;
    Distrib(q0, q, n);
    Distrib(q, q0, n);
    if q0 > q {
      MulAtLeast(q0 - q, n);
    } else if q0 < q {
      MulAtLeast(q - q0, n);
    }
  }

  lemma ModStep(a: nat, n: nat)
    requires n >= 1
    ensures (a % n + 1) % n == (a + 1) % n
  {
    var q, r := a / n, a % n;
    if r + 1 < n {
      ModUnique(r + 1, n, 0, r + 1);
      ModUnique(a + 1, n, q, r + 1);
    } else {
      ModUnique(r + 1, n, 1, 0);
      assert a + 1 == q * n + n;
      Distrib(q + 1, q, n);
      ModUnique(a + 1, n, q + 1, 0);
    }
  }

  lemma ModPlusPeriod(i: nat, n: nat)
    requires 0 <= i < n
    ensures (i + n) % n == i
  {
    ModUnique(i + n, n, 1, i);
  }
}
