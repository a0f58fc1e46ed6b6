/** Products and floor quotients of naturals, named so that proofs can treat them as opaque terms. */
module Arith {

  function Mul(a: int, b: int): int { a * b }

  function Quot(n: nat, a: nat): nat
    requires a > 0
  {
    n / a
  }

  lemma MulMonotone(a: int, b: int, s: nat)
    requires a <= b
    ensures Mul(a, s) <= Mul(b, s) && Mul(s, a) <= Mul(s, b)
  {
  }

  lemma MulCancel(a: int, b: int, s: nat)
    requires Mul(a, s) < Mul(b, s)
    ensures a < b
  {
  }

  lemma MulDistributes(a: int, b: int, s: int)
    ensures Mul(a + b, s) == Mul(a, s) + Mul(b, s) && Mul(s, a + b) == Mul(s, a) + Mul(s, b)
  {
  }

  lemma MulCommutes(a: int, b: int)
    ensures Mul(a, b) == Mul(b, a)
    ensures Mul(1, a) == a == Mul(a, 1)
  {
  }

  lemma QuotBounds(n: nat, a: nat)
    requires a > 0
    ensures Mul(Quot(n, a), a) <= n < Mul(Quot(n, a) + 1, a)
  {
    assert n == n / a * a + n % a;
    assert (n / a + 1) * a == n / a * a + a;
  }

  /** A quotient is the greatest multiplier that fits. */
  lemma QuotAtLeast(n: nat, a: nat, q: nat)
    requires a > 0
    ensures q <= Quot(n, a) <==> Mul(q, a) <= n
  {
    hide Mul, Quot;
    QuotBounds(n, a);
    if Mul(q, a) <= n {
      MulCancel(q, Quot(n, a) + 1, a);
    }
    if q <= Quot(n, a) {
      MulMonotone(q, Quot(n, a), a);
    }
  }

  lemma QuotAntitone(n: nat, a: nat, b: nat)
    requires 0 < a <= b
    ensures Quot(n, b) <= Quot(n, a)
  {
    hide Mul, Quot;
    QuotBounds(n, b);
    MulMonotone(a, b, Quot(n, b));
    QuotAtLeast(n, a, Quot(n, b));
  }

  lemma QuotMonotone(n: nat, m: nat, a: nat)
    requires n <= m && a > 0
    ensures Quot(n, a) <= Quot(m, a)
  {
    hide Mul, Quot;
    QuotBounds(n, a);
    QuotAtLeast(m, a, Quot(n, a));
  }

  lemma QuotExact(a: nat, b: nat)
    requires a > 0
    ensures Mul(b, a) >= 0 && Quot(Mul(b, a), a) == b
  {
    assert b * a >= 0;
    hide Quot;
    QuotAtLeast(b * a, a, b);
    QuotBounds(b * a, a);
    hide Mul;
    MulCancel(Quot(Mul(b, a), a), b + 1, a) by { MulDistributes(b, 1, a); MulCommutes(1, a); }
  }

  /** The gap between two floors, bounded by what it is worth at a shallower point. */
  lemma GapCore(a: nat, b: nat, c: nat, near: nat, deep: nat, deeper: nat, v: nat)
    requires 0 < a <= b && Mul(near, c) <= Mul(v, a)
    requires Mul(deep, b) < Mul(deeper + 1, b + c) && deeper <= near && deep <= near + v
    ensures deep <= deeper + v
  {
    hide Mul;
    if deeper < near {
      MulMonotone(deeper + 1, near, c);
      MulMonotone(a, b, v);
      MulDistributes(b, c, deeper + 1);
      MulDistributes(deeper + 1, v, b);
      MulCancel(deep, deeper + 1 + v, b);
    }
  }

  /**
   `n / x - n / (x + c)` at a deeper `x` exceeds its value nearer by at most one, and not at all
   when the nearer quotient is exact.
   */
  lemma FloorGap(n: nat, a: nat, b: nat, c: nat)
    requires 0 < a <= b
    ensures Quot(n, b) - Quot(n, b + c) <= Quot(n, a) - Quot(n, a + c) + 1
    ensures Mul(Quot(n, a), a) == n ==> Quot(n, b) - Quot(n, b + c) <= Quot(n, a) - Quot(n, a + c)
  {
    hide Mul, Quot;
    var q, near, deep, deeper := Quot(n, a), Quot(n, a + c), Quot(n, b), Quot(n, b + c);
    QuotBounds(n, a);
    QuotBounds(n, a + c);
    QuotBounds(n, b);
    QuotBounds(n, b + c);
    QuotAntitone(n, a, b);
    QuotAntitone(n, a + c, b + c);
    QuotAntitone(n, a, a + c);
    MulDistributes(a, c, near);
    MulDistributes(q + 1 - near, near, a);
    GapCore(a, b, c, near, deep, deeper, q + 1 - near);
    if Mul(q, a) == n {
      MulDistributes(q - near, near, a);
      GapCore(a, b, c, near, deep, deeper, q - near);
    }
  }
}
