/** Integer facts the two models share: exact division and divisibility. */
module Arith {
  /** Multiplication behind a name, so that divisibility has a trigger. */
  function Mul(x: int, y: int): int { x * y }

  /** d divides n. */
  ghost predicate Divides(d: int, n: int) {
    exists k :: Mul(d, k) == n
  }

  /** Euclidean division is determined by its defining equation. */
  lemma DivModUnique(x: int, n: int, q: int, r: int)
    requires n > 0 && 0 <= r < n && x == q * n + r
    ensures x / n == q && x % n == r
  {
    var q', r' := x / n, x % n;
    assert (q - q') * n == r' - r;
    if q - q' >= 1 {
      assert false;
    } else if q - q' <= -1 {
      assert false;
    }
  }

  /** The quotient and remainder of Euclidean division recompose the dividend. */
  lemma DivMod(a: int, b: int)
    requires b > 0
    ensures (a / b) * b + a % b == a
  {
  }

  /** Dividing a non-negative number by a positive one gives no more than the number. */
  lemma DivBounded(a: int, g: int)
    requires a >= 0 && g >= 1
    ensures 0 <= a / g <= a
  {
    DivMod(a, g);
    var q := a / g;
    assert q >= 0;
    assert q * g == q + q * (g - 1);
  }

  /** Scaling two numbers by a common factor keeps their cross-products equal. */
  lemma CrossMultiply(a: int, b: int, g: int)
    ensures a * (b * g) == b * (a * g)
  {
  }

  lemma ModShift(n: nat, k: nat)
    requires n > 0
    ensures (n + k) % n == k % n
  {
    var q, r := k / n, k % n;
    assert n + k == (q + 1) * n + r;
    DivModUnique(n + k, n, q + 1, r);
  }

  /** Dividing a multiple of d by d is exact. */
  lemma DivExact(d: int, k: int)
    requires d > 0
    ensures Mul(d, k) / d == k && Mul(d, k) % d == 0
  {
    DivModUnique(d * k, d, k, 0);
  }

  /** A common divisor of x and y divides q * x + y. */
  lemma DividesCombination(d: int, x: int, y: int, q: int)
    requires Divides(d, x) && Divides(d, y)
    ensures Divides(d, q * x + y)
  {
    var kx :| Mul(d, kx) == x;
    var ky :| Mul(d, ky) == y;
    assert Mul(d, q * kx + ky) == q * x + y;
  }
}
