/** Quotient and remainder are what the division with remainder says. */
module Division {

  lemma OnlyZero(k: int, d: int)
    requires 0 < d && -d < k * d < d
    ensures k == 0
  {
  }

  lemma RemainderIs(v: nat, d: nat, q: nat, m: nat)
    requires d > 0 && m < d && v == q * d + m
    ensures v % d == m
  {
    assert v == v / d * d + v % d;
    OnlyZero(v / d - q, d);
  }
}
