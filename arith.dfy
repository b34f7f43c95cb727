/** Facts about division, remainder and alignment on naturals, proved once
    and used wherever the drivers round or align a size. */
module Arith {

  lemma MulMono(a: nat, b: nat, d: nat)
    requires a <= b
    ensures a * d <= b * d
  {
  }

  /** Division and remainder are determined by any decomposition
      `x == q * d + r` with `0 <= r < d`. */
  lemma DivModUnique(x: int, d: int, q: int, r: int)
    requires d > 0 && 0 <= r < d && x == q * d + r
    ensures x / d == q && x % d == r
  {
    var q', r' := x / d, x % d;
    assert x == q' * d + r' && 0 <= r' < d;
    if q' > q {
      MulMono(1, q' - q, d);
    } else if q' < q {
      MulMono(1, q - q', d);
    }
  }

  lemma DivBetween(x: nat, d: nat, q: nat)
    requires d > 0 && q * d <= x < (q + 1) * d
    ensures x / d == q && x % d == x - q * d
  {
    DivModUnique(x, d, q, x - q * d);
  }

  /** `x` lies in the `d`-block its quotient names. */
  lemma DivBounds(x: nat, d: nat)
    requires d > 0
    ensures (x / d) * d <= x < (x / d + 1) * d
  {
    assert x == (x / d) * d + x % d;
  }

  lemma DivBelow(x: nat, d: nat, n: nat)
    requires d > 0 && x < n * d
    ensures x / d < n
  {
    var q := x / d;
    assert q * d <= x;
    if q >= n {
      MulMono(n, q, d);
    }
  }

  lemma DivMono(x: nat, y: nat, d: nat)
    requires d > 0 && x <= y
    ensures x / d <= y / d
  {
    if x / d > y / d {
      MulMono(y / d + 1, x / d, d);
    }
  }

  lemma MulDiv(q: nat, d: nat)
    requires d > 0
    ensures (q * d) / d == q && (q * d) % d == 0
  {
    DivModUnique(q * d, d, q, 0);
  }

  /** The largest multiple of `a` not above `x`. */
  function RoundDown(x: nat, a: nat): (r: nat)
    requires a > 0
    ensures r <= x && r % a == 0 && x - r < a && r == (x / a) * a
  {
    var r := x - x % a;
    assert r == (x / a) * a;
    MulDiv(x / a, a);
    r
  }

  /** The least multiple of `a` not below `x`. */
  function RoundUp(x: nat, a: nat): (r: nat)
    requires a > 0
    ensures r >= x && r % a == 0 && r - x < a
    ensures x % a == 0 ==> r == x
  {
    if x % a == 0 then x
    else
      var r := x + (a - x % a);
      assert r == (x / a + 1) * a;
      MulDiv(x / a + 1, a);
      r
  }

  /** Any multiple of `a` at least `x` is at least RoundUp(x, a). */
  lemma RoundUpLeast(x: nat, a: nat, m: nat)
    requires a > 0 && m % a == 0 && m >= x
    ensures RoundUp(x, a) <= m
  {
    var r := RoundUp(x, a);
    if m < r {
      var qm := m / a;
      assert m == qm * a;
      var qr := r / a;
      assert r == qr * a;
      assert qm < qr by {
        if qm >= qr { MulMono(qr, qm, a); }
      }
      MulMono(qm + 1, qr, a);
    }
  }

  /** Cutting a multiple of `a` down modulo a multiple of `a` leaves a
      multiple of `a`. */
  lemma MultipleCut(x: nat, a: nat, m: nat)
    requires a > 0 && m > 0 && m % a == 0 && x % a == 0
    ensures x % m % a == 0
  {
    var q, k, p := x / m, m / a, x / a;
    assert m == k * a;
    assert x == p * a;
    assert q * m == (q * k) * a;
    assert x % m == (p - q * k) * a;
    assert p - q * k >= 0 by {
      if p - q * k < 0 {
        MulMono(1, q * k - p, a);
      }
    }
    DivModUnique(x % m, a, p - q * k, 0);
  }
}
