/**
 Facts about Euclidean division and remainder that the cursor proofs use.
 Dafny's solver does not derive them on its own for a variable divisor.
 */
module Arith {

  lemma MulAtLeast(d: int, n: int)
    requires n > 0 && d >= 1
    ensures d * n >= n
  {
    assert d * n == n + (d - 1) * n;
  }

  lemma MulMono(a: nat, b: nat, f: nat)
    requires a <= b
    ensures a * f <= b * f
  {
    assert b * f == a * f + (b - a) * f;
  }

  /** `k * f` built by repeated addition, so that inductions over `k` stay linear. */
  function Times(k: nat, f: nat): nat
  {
    if k == 0 then 0 else Times(k - 1, f) + f
  }

  lemma {:induction false} TimesIsMul(k: nat, f: nat)
    ensures Times(k, f) == k * f
  {
    if k > 0 {
      TimesIsMul(k - 1, f);
      assert (k - 1) * f + f == k * f;
    }
  }

  /** Quotient and remainder are determined by `x == q * n + r` with `0 <= r < n`. */
  lemma DivModUnique(x: int, n: int, q: int, r: int)
    requires n > 0 && 0 <= r < n && x == q * n + r
    ensures x % n == r && x / n == q
  {
    var q', r' := x / n, x % n;
    assert (q - q') * n == r' - r;
    if q - q' >= 1 {
      MulAtLeast(q - q', n);
    } else if q' - q >= 1 {
      assert (q' - q) * n == -((q - q') * n);
      MulAtLeast(q' - q, n);
    }
  }

  lemma ModBelow(a: nat, n: nat)
    requires a < n
    ensures a % n == a
  {
    DivModUnique(a, n, 0, a);
  }

  lemma ModOfShift(a: nat, n: nat)
    requires n > 0 && n <= a < 2 * n
    ensures a % n == a - n
  {
    DivModUnique(a, n, 1, a - n);
  }

  lemma ModAddMod(a: nat, f: nat, n: nat)
    requires n > 0
    ensures (a % n + f) % n == (a + f) % n
  {
    var q := a / n;
    var b := a % n + f;
    var q2, r2 := b / n, b % n;
    assert a + f == (q + q2) * n + r2 by {
      assert a == q * n + a % n;
      assert b == q2 * n + r2;
      assert (q + q2) * n == q * n + q2 * n;
    }
    DivModUnique(a + f, n, q + q2, r2);
  }

  /** `k` fits in `n / f` exactly when `k` blocks of `f` fit in `n`. */
  lemma DivBound(k: nat, n: nat, f: nat)
    requires f >= 1
    ensures k <= n / f <==> k * f <= n
  {
    var q := n / f;
    assert n == q * f + n % f;
    if k <= q {
      MulMono(k, q, f);
    } else {
      MulMono(q + 1, k, f);
      assert (q + 1) * f == q * f + f;
    }
  }
}
