/**
 * Facts about products, Euclidean quotients and remainders that the
 * layout of banner sections, the wrapping dropdown cursor and the frame
 * subsampling rest on.
 */
module Arith {

  /** Multiplying by the same factor keeps the order. */
  lemma {:induction false} MulLe(a: nat, b: nat, c: nat)
    requires a <= b
    ensures a * c <= b * c
  {
    assert b * c == a * c + (b - a) * c;
  }

  lemma MulSucc(a: nat, c: nat)
    ensures (a + 1) * c == a * c + c
  {
  }

  /** `x // c` is the number of whole `c`s in `x`. */
  lemma DivBounds(x: nat, c: nat)
    requires c >= 1
    ensures (x / c) * c <= x < (x / c) * c + c
  {
    assert x == (x / c) * c + x % c;
  }

  lemma {:induction false} DivLe(x: nat, y: nat, d: nat)
    requires x <= y && d > 0
    ensures x / d <= y / d
  {
    assert x == (x / d) * d + x % d;
    assert y == (y / d) * d + y % d;
    if x / d > y / d {
      MulLe(y / d + 1, x / d, d);
      assert false;
    }
  }

  /** Adding at least the divisor to the dividend raises the quotient. */
  lemma {:induction false} DivStep(a: nat, e: nat, d: nat)
    requires d > 0 && e >= d
    ensures (a + e) / d > a / d
  {
    var q := a / d;
    assert a == q * d + a % d;
    assert (q + 1) * d == q * d + d;
    DivLe((q + 1) * d, a + e, d);
    MulDivCancel(q + 1, d);
  }

  lemma {:induction false} MulDivCancel(q: nat, d: nat)
    requires d > 0
    ensures q * d / d == q
  {
    DivUnique(q * d, d, q, 0);
  }

  /** Euclidean division has one quotient. */
  lemma {:induction false} DivUnique(x: nat, d: nat, q: int, r: int)
    requires d > 0 && 0 <= r < d && x == q * d + r
    ensures x / d == q
  {
    var p := x / d;
    var s := x % d;
    assert x == p * d + s && 0 <= s < d;
    MulSign(q - p, d);
    assert (q - p) * d == s - r;
  }

  /** A nonzero multiple of `d` is at least `d` away from zero. */
  lemma {:induction false} MulSign(e: int, d: nat)
    ensures e >= 1 ==> e * d >= d
    ensures e <= -1 ==> e * d + d <= 0
  {
    if e >= 1 {
      MulLe(1, e as nat, d);
    } else if e <= -1 {
      MulLe(1, -e, d);
      assert (-e) * d == 0 - e * d;
    }
  }

  lemma ModSmall(x: int, n: int)
    requires 0 <= x < n
    ensures x % n == x
  {
  }

  lemma ModMinusOne(n: int)
    requires n > 0
    ensures (-1) % n == n - 1
  {
    assert -1 == (-1) * n + (n - 1);
  }

  lemma ModN(n: int)
    requires n > 0
    ensures n % n == 0
  {
    assert n == 1 * n + 0;
  }
}
