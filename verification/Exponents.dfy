/** Powers of a positive number. */
module Exponents {

  function Pow(b: nat, n: nat): (p: nat)
    requires b > 0
    ensures p > 0
  {
    if n == 0 then 1 else b * Pow(b, n - 1)
  }

  lemma PowNext(b: nat, n: nat)
    requires b > 0 && n > 0
    ensures Pow(b, n) == b * Pow(b, n - 1)
    ensures n == 1 ==> Pow(b, n) == b
  {
  }

  lemma {:induction false} PowMonotone(b: nat, m: nat, n: nat)
    requires b > 0 && m <= n
    ensures Pow(b, m) <= Pow(b, n)
  {
    if m == n {
    } else {
      PowMonotone(b, m, n - 1);
    }
  }

  lemma {:induction false} PowDouble(b: nat, n: nat)
    requires b > 0
    ensures Pow(b, 2 * n) == Pow(b, n) * Pow(b, n)
  {
    if n == 0 {
    } else {
      PowDouble(b, n - 1);
      var p := Pow(b, n - 1);
      calc {
        Pow(b, 2 * n);
        b * Pow(b, 2 * n - 1);
        { assert 2 * n - 2 == 2 * (n - 1); }
        b * (b * Pow(b, 2 * (n - 1)));
        b * (b * (p * p));
        (b * p) * (b * p);
      }
    }
  }

  lemma SquareMonotone(m: nat, n: nat)
    requires m <= n
    ensures m * m <= n * n
  {
    assert m * m <= m * n;
    assert m * n <= n * n;
  }
}
