/** Sequence-number comparison modulo the buffer size (the macros of `cbuffer.h`). */
module Window {
  import Modulo

  /** `cbuf_cmp`: -1, 0 or 1 as `a` is before, at or after `b` on a circle of `size` positions. */
  function Cmp(size: nat, a: nat, b: nat): int
    requires size > 0
  {
    var x, y := a % size, b % size;
    if x == y then 0
    else if (x < y && y - x < size / 2) || (x > y && x - y > size / 2) then -1
    else 1
  }

  /** `cbuf_lt` */
  predicate Lt(size: nat, a: nat, b: nat)
    requires size > 0
  {
    Cmp(size, a, b) == -1
  }

  /** `cbuf_btm_contains`: `n` is at or after `lo` and before `hi`. */
  predicate BtmContains(size: nat, lo: nat, hi: nat, n: nat)
    requires size > 0
  {
    (Cmp(size, lo, n) == -1 || Cmp(size, lo, n) == 0) && Cmp(size, hi, n) == 1
  }

  /** How far past `lo` the position `n` lies on the circle. */
  function Ahead(size: nat, n: int, lo: int): (d: nat)
    requires size > 0
    ensures d < size
  {
    (n - lo) % size
  }

  /** The comparison, in terms of how far `a` is ahead of `b`: the two halves of an even circle, the
      position diametrically opposite counting as after. */
  lemma CmpByDistance(size: nat, a: nat, b: nat)
    requires size > 0 && size % 2 == 0
    ensures Cmp(size, a, b) == 0 <==> Ahead(size, a, b) == 0
    ensures Cmp(size, a, b) == 1 <==> 0 < Ahead(size, a, b) <= size / 2
    ensures Cmp(size, a, b) == -1 <==> Ahead(size, a, b) > size / 2
  {
    Modulo.Offset(a, b, size);
  }

  /** The same distance seen from the other end. */
  lemma AheadReversed(size: nat, a: nat, b: nat)
    requires size > 0
    ensures Ahead(size, a, b) == 0 ==> Ahead(size, b, a) == 0
    ensures Ahead(size, a, b) > 0 ==> Ahead(size, b, a) == size - Ahead(size, a, b)
  {
    Modulo.Offset(a, b, size);
    Modulo.Offset(b, a, size);
  }

  /** On an even circle, with a window no longer than half of it, the containment test is exact. */
  lemma WindowIsExact(size: nat, lo: nat, hi: nat, n: nat)
    requires size > 0 && size % 2 == 0
    requires 0 <= hi - lo <= size / 2
    ensures BtmContains(size, lo, hi, n) <==> Ahead(size, n, lo) < hi - lo
  {
    var d, w := Ahead(size, n, lo), hi - lo;
    CmpByDistance(size, lo, n);
    CmpByDistance(size, hi, n);
    AheadReversed(size, n, lo);
    // hi is w - d positions ahead of n
    Modulo.Difference(n - lo, w, size);
    assert (n - lo) - w == n - hi;
    assert (d - w) % size == (n - hi) % size;
    AheadReversed(size, n, hi);
    if d < w {
      Modulo.Residue(d - w, size, -1, d - w + size);
    } else {
      Modulo.Small(d - w, size);
    }
  }

  /** Half the circle is the longest window the test recognises: it is exact for every position if and
      only if the window is no longer than that. The buffer is twice the window, and two cells, for
      this reason. */
  lemma ExactIffHalf(size: nat, lo: nat, hi: nat)
    requires size > 0 && size % 2 == 0
    requires 0 <= hi - lo <= size
    ensures (forall n: nat :: BtmContains(size, lo, hi, n) <==> Ahead(size, n, lo) < hi - lo)
            <==> hi - lo <= size / 2
  {
    if hi - lo <= size / 2 {
      forall n: nat
        ensures BtmContains(size, lo, hi, n) <==> Ahead(size, n, lo) < hi - lo
      {
        WindowIsExact(size, lo, hi, n);
      }
    } else {
      var n := lo + size / 2;
      Modulo.Small(size / 2, size);
      AheadReversed(size, n, lo);
      CmpByDistance(size, lo, n);
      assert Ahead(size, n, lo) < hi - lo && !BtmContains(size, lo, hi, n);
    }
  }
}
