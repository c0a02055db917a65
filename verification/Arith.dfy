// Small facts about products and quotients.
module Arith {

  lemma MulNonNeg(a: nat, b: nat)
    ensures a * b >= 0
  {
  }

  lemma MulMono(a: int, b: int, c: nat)
    requires a <= b
    ensures a * c <= b * c
  {
    MulNonNeg(b - a, c);
    assert b * c == a * c + (b - a) * c;
  }

  lemma MulStep(a: int, b: int, c: nat)
    requires a < b
    ensures a * c + c <= b * c
  {
    MulMono(a + 1, b, c);
    assert (a + 1) * c == a * c + c;
  }

  lemma DivMod(x: int, p: nat)
    requires p > 0
    ensures x == (x / p) * p + x % p && 0 <= x % p < p
  {
  }

  // The quotient and remainder are determined by x == q * p + r with r < p.
  lemma DivUnique(x: int, p: nat, q: int, r: int)
    requires 0 <= r < p && x == q * p + r
    ensures x / p == q && x % p == r
  {
    DivMod(x, p);
    if x / p < q {
      MulStep(x / p, q, p);
    } else if x / p > q {
      MulStep(q, x / p, p);
    }
  }

  lemma QuotientBound(x: nat, p: nat)
    requires p > 0
    ensures 0 <= x / p <= x
  {
    DivMod(x, p);
    if x / p < 0 {
      MulStep(x / p, 0, p);
    } else {
      MulMono(1, p, x / p);
    }
  }

  lemma QuotientBelow(x: nat, p: nat, top: nat)
    requires p > 0 && x < p * top
    ensures x / p < top
  {
    DivMod(x, p);
    if x / p >= top {
      MulMono(top, x / p, p);
    }
  }

  lemma QuotientAtLeast(x: nat, p: nat, h: nat)
    requires p > 0 && x >= h * p
    ensures x / p >= h
  {
    DivMod(x, p);
    if x / p < h {
      MulStep(x / p, h, p);
    }
  }

  // Subtracting a multiple of the divisor lowers the quotient by the factor.
  lemma DivSubMultiple(x: int, p: nat, k: int)
    requires p > 0
    ensures (x - k * p) / p == x / p - k && (x - k * p) % p == x % p
  {
    DivMod(x, p);
    assert (x / p - k) * p == (x / p) * p - k * p;
    DivUnique(x - k * p, p, x / p - k, x % p);
  }
}
