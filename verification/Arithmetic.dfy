/** 32-bit numbers, and facts about products and quotients that several components
    need. */
module Arithmetic {
  /** A 32-bit unsigned number. */
  type u32 = n: nat | n < 0x1_0000_0000

  lemma MulStep(a: nat, b: nat, d: nat)
    requires a < b
    ensures a * d + d <= b * d
  {
    assert b * d == (b - 1) * d + d;
    if a < b - 1 {
      MulStep(a, b - 1, d);
    }
  }

  lemma MulUp(a: nat, b: nat, c: nat)
    requires a <= b
    ensures a * c <= b * c
  {
    if a < b {
      MulStep(a, b, c);
    }
  }

  lemma DivModUnique(q: nat, r: nat, d: nat)
    requires r < d
    ensures (q * d + r) / d == q && (q * d + r) % d == r
  {
    var n := q * d + r;
    assert n == n / d * d + n % d;
    if n / d < q {
      MulStep(n / d, q, d);
    } else if q < n / d {
      MulStep(q, n / d, d);
    }
  }

  lemma DivBelow(d: nat, n: nat, b: nat)
    requires b > 0 && d < n * b
    ensures d / b < n
  {
    assert d == d / b * b + d % b;
    if n < d / b {
      MulStep(n, d / b, b);
    }
  }

  lemma Regrouped(q: nat, b: nat, r: nat, a: nat)
    ensures (q * b + r) * a == q * (a * b) + r * a
  {
  }

  lemma NestedParts(q: nat, r: nat, t: nat, a: nat, b: nat)
    requires r < b && t < a
    ensures a * b > 0 && ((q * b + r) * a + t) / (a * b) == q
  {
    MulStep(r, b, a);
    Regrouped(q, b, r, a);
    DivModUnique(q, r * a + t, a * b);
  }

  lemma NestedDiv(n: nat, a: nat, b: nat)
    requires a > 0 && b > 0
    ensures a * b > 0 && n / (a * b) == n / a / b
  {
    Divides(n, a);
    Divides(n / a, b);
    NestedParts(n / a / b, n / a % b, n % a, a, b);
  }

  lemma Divides(n: nat, d: nat)
    requires d > 0
    ensures n == n / d * d + n % d && n % d < d
  {
  }
}
