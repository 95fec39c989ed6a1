/** Numbers in base 10 and base 16 as the formatter of src/nc_string.c writes them. */
module Numerals {
  import opened Division
  import opened Exponents

  const HEX: seq<char> := "0123456789abcdef"

  function Digit(d: nat): (c: char)
    requires d < 16
    ensures c != '\0'
  {
    HEX[d]
  }

  function DigitValue(c: char): (d: nat)
    ensures d < 16
  {
    if '0' <= c <= '9' then (c - '0') as nat
    else if 'a' <= c <= 'f' then (c - 'a') as nat + 10
    else 0
  }

  lemma DigitValueBack(d: nat)
    requires d < 16
    ensures DigitValue(Digit(d)) == d
  {
  }

  /** The shortest numeral of a number. */
  function Digits(base: nat, v: nat): (s: seq<char>)
    requires 2 <= base <= 16
    ensures |s| > 0
  {
    (if v < base then [] else Digits(base, v / base)) + [Digit(v % base)]
  }

  /** Exactly n hexadecimal digits of a number. */
  function Fixed(n: nat, v: nat): (s: seq<char>)
    ensures |s| == n
  {
    if n == 0 then [] else Fixed(n - 1, v / 16) + [Digit(v % 16)]
  }

  /** What a numeral stands for. */
  function Value(base: nat, s: seq<char>): nat
  {
    if s == [] then 0 else Value(base, s[..|s| - 1]) * base + DigitValue(s[|s| - 1])
  }

  lemma WholeIs(v: nat, base: nat)
    requires base > 0
    ensures v / base * base + v % base == v
  {
  }

  /** A numeral is the numeral of the quotient and a last digit. */
  lemma Split(base: nat, v: nat) returns (q: nat, r: nat)
    requires 2 <= base <= 16
    ensures v == q * base + r && r < base && (v < base ==> q == 0) && (v >= base ==> q < v)
    ensures Digits(base, v) == (if v < base then [] else Digits(base, q)) + [Digit(r)]
  {
    q, r := v / base, v % base;
    WholeIs(v, base);
  }

  lemma ValueOfNone(base: nat)
    ensures Value(base, []) == 0
  {
  }

  lemma ValueLast(base: nat, s: seq<char>, c: char)
    ensures Value(base, s + [c]) == Value(base, s) * base + DigitValue(c)
  {
    assert (s + [c])[..|s|] == s;
  }

  lemma {:induction false} DigitsParse(base: nat, v: nat)
    requires 2 <= base <= 16
    ensures Value(base, Digits(base, v)) == v
  {
    hide Digit, DigitValue, Value, Digits;
    var q, r := Split(base, v);
    DigitValueBack(r);
    ValueOfNone(base);
    if v < base {
      ValueLast(base, [], Digit(r));
    } else {
      DigitsParse(base, q);
      ValueLast(base, Digits(base, q), Digit(r));
    }
  }

  lemma DigitsLength(base: nat, v: nat)
    requires 2 <= base <= 16
    ensures |Digits(base, v)| == if v < base then 1 else |Digits(base, v / base)| + 1
  {
  }

  lemma Times(b: nat, x: nat, y: nat)
    ensures x >= y ==> b * x >= b * y
  {
  }

  lemma QuotientBelow(v: nat, base: nat, p: nat)
    requires base > 0 && v < base * p
    ensures v / base < p
  {
    Times(base, v / base, p);
  }

  lemma {:induction false} DigitsFit(base: nat, v: nat, n: nat)
    requires 2 <= base <= 16 && n > 0 && v < Pow(base, n)
    ensures |Digits(base, v)| <= n
  {
    hide Pow, Digits;
    PowNext(base, n);
    DigitsLength(base, v);
    if v < base {
    } else {
      QuotientBelow(v, base, Pow(base, n - 1));
      DigitsFit(base, v / base, n - 1);
    }
  }

  lemma {:induction false} DigitsNoNul(base: nat, v: nat)
    requires 2 <= base <= 16
    ensures '\0' !in Digits(base, v)
  {
    if v < base {
    } else {
      DigitsNoNul(base, v / base);
    }
  }

  lemma {:induction false} FixedParse(n: nat, v: nat)
    requires v < Pow(16, n)
    ensures Value(16, Fixed(n, v)) == v
  {
    if n == 0 {
    } else {
      QuotientBelow(v, 16, Pow(16, n - 1));
      FixedParse(n - 1, v / 16);
      DigitValueBack(v % 16);
      var s := Fixed(n, v);
      assert s[..|s| - 1] == Fixed(n - 1, v / 16);
    }
  }

  function Zeros(n: nat): (z: seq<char>)
    ensures |z| == n && forall i :: 0 <= i < n ==> z[i] == '0'
  {
    seq(n, i => '0')
  }

  lemma {:induction false} FixedZero(n: nat)
    ensures Fixed(n, 0) == Zeros(n)
  {
    if n == 0 {
    } else {
      FixedZero(n - 1);
    }
  }

  /** A numeral over a field of zeros is the number in full width. */
  lemma {:induction false} FixedIsPadded(n: nat, v: nat)
    requires |Digits(16, v)| <= n
    ensures Fixed(n, v) == Zeros(n - |Digits(16, v)|) + Digits(16, v)
  {
    if v < 16 {
      FixedZero(n - 1);
    } else {
      FixedIsPadded(n - 1, v / 16);
    }
  }

  lemma ModSplits(v: nat, p: nat)
    requires p > 0
    ensures v % (16 * p) / 16 == v / 16 % p
    ensures v % (16 * p) % 16 == v % 16
  {
    var q, r := v / 16 / p, v / 16 % p;
    var m := 16 * r + v % 16;
    assert v / 16 == q * p + r;
    assert v == q * (16 * p) + m by {
      assert 16 * (q * p + r) == q * (16 * p) + 16 * r;
    }
    assert 0 <= m < 16 * p;
    RemainderIs(v, 16 * p, q, m);
  }

  /** The low k of n digits. */
  lemma {:induction false} FixedTail(n: nat, k: nat, v: nat)
    requires k <= n
    ensures Fixed(n, v)[n - k..] == Fixed(k, v % Pow(16, k))
  {
    if k == 0 {
    } else {
      FixedTail(n - 1, k - 1, v / 16);
      ModSplits(v, Pow(16, k - 1));
      assert Fixed(n, v)[n - k..] == Fixed(n - 1, v / 16)[(n - 1) - (k - 1)..] + [Digit(v % 16)];
    }
  }

  // ---- the ones' complement of a numeral ----

  function Flip(c: char): char
  {
    match c
    case '0' => 'f' case '1' => 'e' case '2' => 'd' case '3' => 'c'
    case '4' => 'b' case '5' => 'a' case '6' => '9' case '7' => '8'
    case '8' => '7' case '9' => '6' case 'a' => '5' case 'b' => '4'
    case 'c' => '3' case 'd' => '2' case 'e' => '1' case 'f' => '0'
    case _ => c
  }

  function Flipped(s: seq<char>): (r: seq<char>)
    ensures |r| == |s| && forall i :: 0 <= i < |s| ==> r[i] == Flip(s[i])
  {
    seq(|s|, i requires 0 <= i < |s| => Flip(s[i]))
  }

  lemma FlipDigit(d: nat)
    requires d < 16
    ensures Flip(Digit(d)) == Digit(15 - d)
  {
  }

  /** Flipping every digit of m gives the digits of 16^n - 1 - m. */
  lemma {:induction false} FlippedIsComplement(n: nat, m: nat)
    requires m < Pow(16, n)
    ensures Flipped(Fixed(n, m)) == Fixed(n, Pow(16, n) - 1 - m)
  {
    if n == 0 {
    } else {
      var p := Pow(16, n - 1);
      QuotientBelow(m, 16, p);
      FlippedIsComplement(n - 1, m / 16);
      FlipDigit(m % 16);
      var c := Pow(16, n) - 1 - m;
      assert c == 16 * (p - 1 - m / 16) + (15 - m % 16);
      assert c / 16 == p - 1 - m / 16 && c % 16 == 15 - m % 16;
      assert Flipped(Fixed(n, m)) == Flipped(Fixed(n - 1, m / 16)) + [Flip(Digit(m % 16))];
    }
  }
}
