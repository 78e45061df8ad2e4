/** Residues modulo an arbitrary positive size. Dafny proves little about `%` on its own when the
    modulus is a variable, so the few facts the ring buffer needs are collected here. */
module Modulo {

  /** A multiple of `n` other than zero is at least `n` in size. */
  lemma MultipleSize(d: int, n: int)
    requires n > 0
    ensures d >= 1 ==> d * n >= n
    ensures d <= -1 ==> d * n <= -n
  {
    assert d >= 1 ==> (d - 1) * n >= 0;
    assert d <= -1 ==> (-d - 1) * n >= 0;
  }

  lemma Residue(a: int, n: int, q: int, r: int)
    requires 0 <= r < n
    requires a == q * n + r
    ensures a % n == r
  {
    assert (q - a / n) * n == q * n - (a / n) * n;
    assert a == (a / n) * n + a % n;
    MultipleSize(q - a / n, n);
  }

  lemma Small(a: int, n: int)
    requires 0 <= a < n
    ensures a % n == a
  {
    Residue(a, n, 0, a);
  }

  /** Reducing the minuend first changes nothing. */
  lemma Difference(a: int, b: int, n: int)
    requires n > 0
    ensures (a % n - b) % n == (a - b) % n
  {
    var q := (a - b) / n;
    assert a == (a / n) * n + a % n;
    assert a - b == q * n + (a - b) % n;
    assert (q - a / n) * n == q * n - (a / n) * n;
    Residue(a % n - b, n, q - a / n, (a - b) % n);
  }

  /** Reducing a summand first changes nothing. */
  lemma Sum(a: int, b: int, n: int)
    requires n > 0
    ensures (a % n + b) % n == (a + b) % n
  {
    Difference(a, -b, n);
  }

  /** Two positions less than one lap apart share a residue only when they are equal. */
  lemma Distinct(a: int, b: int, n: int)
    requires n > 0 && a % n == b % n && -n < a - b < n
    ensures a == b
  {
    assert a == (a / n) * n + a % n && b == (b / n) * n + b % n;
    assert (a / n - b / n) * n == (a / n) * n - (b / n) * n;
    MultipleSize(a / n - b / n, n);
  }

  /** The residue of a difference, from the two residues. */
  lemma Offset(a: int, b: int, n: int)
    requires n > 0
    ensures (a - b) % n == if a % n >= b % n then a % n - b % n else a % n - b % n + n
  {
    Difference(a, b, n);
    var x, y, k := a % n, b % n, b / n;
    assert b == k * n + y;
    if x >= y {
      assert x - b == (-k) * n + (x - y);
      Residue(x - b, n, -k, x - y);
    } else {
      assert (-k - 1) * n == -(k * n) - n;
      Residue(x - b, n, -k - 1, x - y + n);
    }
  }
}
