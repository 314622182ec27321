/** Quotient and remainder, as unique. */
module Division {

  lemma RemainderOf(q: nat, p: nat, r: nat)
    requires r < p
    ensures (q * p + r) % p == r
  {
    var d, m := (q * p + r) / p, (q * p + r) % p;
    if d < q {
      MulGap(d, q, p);
    } else if q < d {
      MulGap(q, d, p);
    }
  }

  lemma {:induction false} MulGap(a: nat, b: nat, p: nat)
    requires a < b
    ensures a * p + p <= b * p
  {
    if b > a + 1 {
      MulGap(a, b - 1, p);
    }
    assert b * p == (b - 1) * p + p;
  }

  lemma SmallQuotient(x: nat, p: nat)
    requires x < p
    ensures x / p == 0
  {
  }

  lemma QuotientStep(x: nat, p: nat)
    requires p >= 1
    ensures (x + p) / p * p == x / p * p + p
  {
    var q, r := x / p, x % p;
    assert x + p == (q + 1) * p + r;
    RemainderOf(q + 1, p, r);
    RemainderOf(q, p, r);
  }
}
