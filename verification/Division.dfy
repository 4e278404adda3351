/** Facts about Euclidean division that the solver does not find by itself. */
module Division {
  /** Quotient and remainder are determined by their equation. */
  lemma DivUnique(a: int, p: int, q: int, r: int)
    requires 0 <= r < p && a == p * q + r
    ensures a / p == q && a % p == r
  {
    var k := a / p - q;
    assert p * (a / p) - p * q == p * k by { Distribute(p, a / p, q); }
    if k >= 1 {
      Grow(p, k);
    } else if k <= -1 {
      Grow(p, -k);
    }
  }

  lemma Distribute(p: int, a: int, b: int)
    ensures p * a - p * b == p * (a - b)
  {
  }

  lemma Grow(p: int, k: int)
    requires p > 0 && k >= 1
    ensures p * k >= p && p * -k <= -p
  {
  }

  lemma DivStep(a: int, p: int)
    requires 0 < p
    ensures a / p == (a - p) / p + 1 && a % p == (a - p) % p
  {
    var q, r := (a - p) / p, (a - p) % p;
    assert p * (q + 1) == p * q + p;
    DivUnique(a, p, q + 1, r);
  }
}
