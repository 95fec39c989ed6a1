/** The signal-safe formatter of src/nc_string.c. */
module SafeFormat {
  import opened Division
  import opened Exponents
  import opened Numerals

  lemma Powers()
    ensures Pow(16, 8) == 0x1_0000_0000 && Pow(16, 16) == 0x1_0000_0000_0000_0000
    ensures Pow(10, 19) == 10_000_000_000_000_000_000 && Pow(10, 20) == 100_000_000_000_000_000_000
  {
    assert Pow(16, 2) == 0x100;
    assert Pow(16, 4) == 0x1_0000;
    assert Pow(16, 6) == 0x100_0000;
    assert Pow(16, 8) == 0x1_0000_0000;
    assert Pow(16, 10) == 0x100_0000_0000;
    assert Pow(16, 12) == 0x1_0000_0000_0000;
    assert Pow(16, 14) == 0x100_0000_0000_0000;
    assert Pow(10, 2) == 100;
    assert Pow(10, 4) == 10_000;
    assert Pow(10, 6) == 1_000_000;
    assert Pow(10, 8) == 100_000_000;
    assert Pow(10, 10) == 10_000_000_000;
    assert Pow(10, 12) == 1_000_000_000_000;
    assert Pow(10, 14) == 100_000_000_000_000;
    assert Pow(10, 16) == 10_000_000_000_000_000;
    assert Pow(10, 18) == 1_000_000_000_000_000_000;
  }

  // ---- what is written for a number ----

  /** A signed number: a sign and the magnitude in base 10, two's complement in base 16. */
  function SignedText(base: nat, v: int): (s: seq<char>)
    requires base == 10 || base == 16
    requires -0x8000_0000_0000_0000 < v < 0x8000_0000_0000_0000
  {
    if v >= 0 then Digits(base, v)
    else if base == 10 then ['-'] + Digits(10, -v)
    else Fixed(16, v + 0x1_0000_0000_0000_0000)
  }

  lemma Quotient(v: nat, base: nat, q: nat, r: nat)
    requires base > 0 && r < base && v == q * base + r
    ensures v / base == q && v % base == r
    ensures v < base <==> q == 0
  {
    RemainderIs(v, base, q, r);
    assert v == v / base * base + v % base;
    OnlyZero(v / base - q, base);
  }

  /** One digit and what is left of the number. */
  method LastDigit(base: nat, v: nat) returns (d: char, q: nat)
    requires 2 <= base <= 16
    ensures Digits(base, v) == (if q == 0 then [] else Digits(base, q)) + [d]
    ensures q == 0 || q < v
  {
    d := HEX[v % base];
    q := v / base;
    ghost var q', r := Split(base, v);
    Quotient(v, base, q', r);
  }

  lemma Regroup(s: seq<char>, d: char, t: seq<char>)
    ensures (s + [d]) + t == s + ([d] + t)
  {
  }

  /** *buf-- = d */
  method PutLeft(buff: array<char>, start: nat, at: nat, d: char)
    requires 0 < start <= at < buff.Length
    modifies buff
    ensures buff[start - 1..at] == [d] + old(buff[start..at])
    ensures forall i :: 0 <= i < buff.Length && i != start - 1 ==> buff[i] == old(buff[i])
  {
    buff[start - 1] := d;
  }

  /** The do-while of both functions: digits leftwards from position at - 1. */
  method PutDigits(base: nat, val: nat, buff: array<char>, at: nat) returns (start: nat)
    requires 2 <= base <= 16 && |Digits(base, val)| <= at < buff.Length
    modifies buff
    ensures start == at - |Digits(base, val)| && buff[start..at] == Digits(base, val)
    ensures forall i :: 0 <= i < buff.Length && !(start <= i < at) ==> buff[i] == old(buff[i])
  {
    hide Digits;
    var v: nat := val;
    start := at;
    var more := true;
    while more
      invariant start <= at
      invariant Digits(base, val) == (if more then Digits(base, v) else []) + buff[start..at]
      invariant forall i :: 0 <= i < buff.Length && !(start <= i < at) ==> buff[i] == old(buff[i])
      decreases more, v
    {
      var d, q := LastDigit(base, v);
      ghost var done := buff[start..at];
      assert |Digits(base, v)| > 0 && |done| == at - start;
      PutLeft(buff, start, at, d);
      start := start - 1;
      Regroup(if q == 0 then [] else Digits(base, q), d, done);
      v := q;
      more := v != 0;
    }
  }

  method Utoa(base: nat, val: nat, buff: array<char>, at: nat) returns (start: nat)
    requires 2 <= base <= 16 && |Digits(base, val)| <= at < buff.Length
    modifies buff
    ensures start <= at && buff[start..at] == Digits(base, val) && buff[at] == '\0'
  {
    buff[at] := '\0';
    start := PutDigits(base, val, buff, at);
  }

  lemma SignedFits(base: nat, v: int)
    requires base == 10 || base == 16
    requires -0x8000_0000_0000_0000 < v < 0x8000_0000_0000_0000
    ensures var m := if v >= 0 then v else if base == 10 then -v else -v - 1;
      |Digits(base, m)| <= if base == 10 then 19 else 16
  {
    Powers();
    var m := if v >= 0 then v else if base == 10 then -v else -v - 1;
    DigitsFit(base, m, if base == 10 then 19 else 16);
  }

  /** Flipping the sixteen digits of -v - 1 gives two's complement. */
  lemma FlippedIsNegative(v: int)
    requires -0x8000_0000_0000_0000 < v < 0
    ensures Flipped(Fixed(16, -v - 1)) == Fixed(16, v + 0x1_0000_0000_0000_0000)
  {
    Powers();
    FlippedIsComplement(16, -v - 1);
  }

  // Lines 137-138 and 150-173: sixteen positions below at, first zeros, at the end flipped.
  method ZeroField(buff: array<char>, at: nat)
    requires 16 <= at < buff.Length
    modifies buff
    ensures forall i :: at - 16 <= i < at ==> buff[i] == '0'
    ensures forall i :: at <= i < buff.Length ==> buff[i] == old(buff[i])
  {
    for ix := 0 to 16
      invariant forall i :: at - ix <= i < at ==> buff[i] == '0'
      invariant forall i :: at <= i < buff.Length ==> buff[i] == old(buff[i])
    {
      buff[at - 1 - ix] := '0';
    }
  }

  method FlipField(buff: array<char>, at: nat)
    requires 16 <= at < buff.Length
    modifies buff
    ensures buff[at - 16..at] == Flipped(old(buff[at - 16..at]))
    ensures forall i :: at <= i < buff.Length ==> buff[i] == old(buff[i])
  {
    hide Flip;
    for ix := 0 to 16
      invariant forall i :: at - ix <= i < at ==> buff[i] == Flip(old(buff[i]))
      invariant forall i :: 0 <= i < buff.Length && !(at - ix <= i < at) ==> buff[i] == old(buff[i])
    {
      buff[at - 1 - ix] := Flip(buff[at - 1 - ix]);
    }
  }

  method Itoa(base: nat, val: int, buff: array<char>, at: nat) returns (start: nat)
    requires (base == 10 || base == 16) && 20 <= at < buff.Length
    requires -0x8000_0000_0000_0000 < val < 0x8000_0000_0000_0000
    modifies buff
    ensures start <= at && buff[start..at] == SignedText(base, val) && buff[at] == '\0'
  {
    hide Digits, Fixed;
    SignedFits(base, val);
    var isNeg := val < 0;
    buff[at] := '\0';
    var v := if isNeg then -val else val;
    if isNeg && base == 16 {
      v := v - 1;
      ZeroField(buff, at);
    }
    start := PutDigits(base, v, buff, at);
    if isNeg && base == 10 {
      start := start - 1;
      buff[start] := '-';
      assert buff[start..at] == ['-'] + buff[start + 1..at];
    }
    if isNeg && base == 16 {
      FixedIsPadded(16, v);
      assert buff[at - 16..start] == Zeros(16 - |Digits(16, v)|);
      assert buff[at - 16..at] == buff[at - 16..start] + buff[start..at];
      FlipField(buff, at);
      FlippedIsNegative(val);
      start := at - 16;
    }
  }

  // ---- the format ----

  /** Whether long and pointers have 64 bits. */
  datatype Machine = Machine(long64: bool, pointer64: bool)

  datatype Arg = Number(v: int) | Null | Text(s: seq<char>)

  /** How many characters a length modifier has, and whether it means 64 bits. The character after
      the last is NUL. */
  function CheckLongLong(m: Machine, format: seq<char>): (r: (nat, bool))
    ensures r.0 <= |format| && r.0 <= 2
  {
    if |format| == 0 || format[0] != 'l' then (0, false)
    else if |format| == 1 || format[1] != 'l' then (1, m.long64)
    else (2, true)
  }

  predicate IsNumber(c: char)
  {
    c == 'd' || c == 'i' || c == 'u' || c == 'x' || c == 'p'
  }

  predicate Fits(c: char, wide: bool, v: int)
  {
    if c == 'u' then 0 <= v < if wide then 0x1_0000_0000_0000_0000 else 0x1_0000_0000
    else if wide then -0x8000_0000_0000_0000 < v < 0x8000_0000_0000_0000
    else -0x8000_0000 <= v < 0x8000_0000
  }

  function NumberText(c: char, wide: bool, v: int): (s: seq<char>)
    requires IsNumber(c) && Fits(c, wide, v)
  {
    if c == 'u' then Digits(10, v)
    else if c == 'x' && !wide && v < 0 then Fixed(8, v + 0x1_0000_0000)
    else SignedText(if c == 'x' || c == 'p' then 16 else 10, v)
  }

  /** The text of a number stands for it: in hexadecimal a negative number comes back modulo 2^64,
      or modulo 2^32 when it was given as 32 bits to 'x'. */
  lemma NumberParsesBack(c: char, wide: bool, v: int)
    requires IsNumber(c) && Fits(c, wide, v)
    ensures var text := NumberText(c, wide, v);
      if c == 'x' || c == 'p' then
        Value(16, text) ==
        if v >= 0 then v else v + if c == 'x' && !wide then 0x1_0000_0000 else 0x1_0000_0000_0000_0000
      else if v >= 0 then Value(10, text) == v
      else |text| > 0 && text[0] == '-' && Value(10, text[1..]) == -v
  {
    hide Digits, Fixed, Value;
    if v >= 0 {
      DigitsParse(10, v);
      DigitsParse(16, v);
    } else {
      DigitsParse(10, -v);
      Powers();
      FixedParse(16, v + 0x1_0000_0000_0000_0000);
      if -0x8000_0000 <= v {
        FixedParse(8, v + 0x1_0000_0000);
      }
      assert (['-'] + Digits(10, -v))[1..] == Digits(10, -v);
    }
  }

  function Wide(m: Machine, c: char, wide: bool): bool
  {
    if c == 'p' then m.pointer64 else wide
  }

  /** Every '%' is followed by a conversion, and the arguments are there with the right types. */
  predicate WellFormed(m: Machine, format: seq<char>, args: seq<Arg>)
  {
    if format == [] then true
    else if format[0] != '%' then format[0] != '\0' && WellFormed(m, format[1..], args)
    else
      var (n, wide) := CheckLongLong(m, format[1..]);
      1 + n < |format| &&
      (var c, rest := format[1 + n], format[2 + n..];
       if IsNumber(c) then
         |args| > 0 && args[0].Number? && Fits(c, Wide(m, c, wide), args[0].v) && WellFormed(m, rest, args[1..])
       else if c == 's' then
         |args| > 0 && !args[0].Number? && (args[0].Text? ==> '\0' !in args[0].s) && WellFormed(m, rest, args[1..])
       else
         c != '\0' && WellFormed(m, rest, args))
  }

  function StringText(a: Arg): seq<char>
    requires !a.Number?
  {
    if a.Null? then "(null)" else a.s
  }

  /** The whole text of a format, with no limit on its length. */
  function Render(m: Machine, format: seq<char>, args: seq<Arg>): seq<char>
    requires WellFormed(m, format, args)
  {
    if format == [] then []
    else if format[0] != '%' then [format[0]] + Render(m, format[1..], args)
    else
      var (n, wide) := CheckLongLong(m, format[1..]);
      var c, rest := format[1 + n], format[2 + n..];
      if IsNumber(c) then NumberText(c, Wide(m, c, wide), args[0].v) + Render(m, rest, args[1..])
      else if c == 's' then StringText(args[0]) + Render(m, rest, args[1..])
      else Render(m, rest, args)
  }

  // ---- what the conversions render ----

  /** An ordinary character stands for itself. */
  lemma RenderPlain(m: Machine, c: char, rest: seq<char>, args: seq<Arg>)
    requires c != '%' && c != '\0' && WellFormed(m, rest, args)
    ensures WellFormed(m, [c] + rest, args) && Render(m, [c] + rest, args) == [c] + Render(m, rest, args)
  {
    assert ([c] + rest)[1..] == rest;
  }

  /** %s renders the string, and a null pointer as (null). */
  lemma RenderString(m: Machine, modifier: seq<char>, s: seq<char>, rest: seq<char>, args: seq<Arg>)
    requires modifier == "" || modifier == "l" || modifier == "ll"
    requires '\0' !in s && WellFormed(m, rest, args)
    ensures var f := "%" + modifier + "s" + rest;
      && WellFormed(m, f, [Text(s)] + args) && WellFormed(m, f, [Null] + args)
      && Render(m, f, [Text(s)] + args) == s + Render(m, rest, args)
      && Render(m, f, [Null] + args) == "(null)" + Render(m, rest, args)
  {
    var f, n := "%" + modifier + "s" + rest, |modifier|;
    assert f[0] == '%' && f[1 + n] == 's' && f[2 + n..] == rest;
    assert f[1..] == modifier + "s" + rest;
    assert CheckLongLong(m, f[1..]).0 == n;
    assert ([Text(s)] + args)[1..] == args && ([Null] + args)[1..] == args;
  }

  /** Whether a conversion takes 64 bits: p by the size of a pointer, the others by their modifier. */
  predicate SixtyFour(m: Machine, modifier: seq<char>, c: char)
  {
    if c == 'p' then m.pointer64 else modifier == "ll" || (modifier == "l" && m.long64)
  }

  /** The values of the C type that a conversion takes, but for INT64_MIN. */
  predicate InRange(c: char, wide: bool, v: int)
  {
    var half := if wide then 0x8000_0000_0000_0000 else 0x8000_0000;
    if c == 'u' then 0 <= v < 2 * half else -half <= v < half && v != -0x8000_0000_0000_0000
  }

  /** What a format with one numeric conversion in front renders. */
  lemma RenderConversion(m: Machine, modifier: seq<char>, c: char, v: int, rest: seq<char>, args: seq<Arg>)
    requires modifier == "" || modifier == "l" || modifier == "ll"
    requires c in "diuxp" && InRange(c, SixtyFour(m, modifier, c), v) && WellFormed(m, rest, args)
    ensures IsNumber(c) && Fits(c, SixtyFour(m, modifier, c), v)
    ensures var f, a := "%" + modifier + [c] + rest, [Number(v)] + args;
      && WellFormed(m, f, a)
      && Render(m, f, a) == NumberText(c, SixtyFour(m, modifier, c), v) + Render(m, rest, args)
  {
    hide NumberText;
    var f, a, n := "%" + modifier + [c] + rest, [Number(v)] + args, |modifier|;
    assert a[1..] == args && f[0] == '%' && f[1 + n] == c && f[2 + n..] == rest;
    assert f[1..] == modifier + [c] + rest;
    assert CheckLongLong(m, f[1..]) == (n, modifier == "ll" || (modifier == "l" && m.long64));
  }

  /** %d and %i render the decimal numeral, with a sign if the number is negative. */
  lemma RenderDecimal(m: Machine, modifier: seq<char>, c: char, v: int, rest: seq<char>, args: seq<Arg>)
    requires modifier == "" || modifier == "l" || modifier == "ll"
    requires c in "di" && InRange(c, SixtyFour(m, modifier, c), v) && WellFormed(m, rest, args)
    ensures var f, a := "%" + modifier + [c] + rest, [Number(v)] + args;
      && WellFormed(m, f, a)
      && Render(m, f, a) == (if v < 0 then "-" + Digits(10, -v) else Digits(10, v)) + Render(m, rest, args)
  {
    hide Digits, WellFormed, Render;
    RenderConversion(m, modifier, c, v, rest, args);
  }

  /** %u renders the decimal numeral of an unsigned number. */
  lemma RenderUnsigned(m: Machine, modifier: seq<char>, v: int, rest: seq<char>, args: seq<Arg>)
    requires modifier == "" || modifier == "l" || modifier == "ll"
    requires InRange('u', SixtyFour(m, modifier, 'u'), v) && WellFormed(m, rest, args)
    ensures var f, a := "%" + modifier + "u" + rest, [Number(v)] + args;
      WellFormed(m, f, a) && Render(m, f, a) == Digits(10, v) + Render(m, rest, args)
  {
    hide Digits, WellFormed, Render;
    RenderConversion(m, modifier, 'u', v, rest, args);
  }

  /** %x renders the hexadecimal numeral; of a negative number, its two's complement in as many bits as it was
      given in. */
  lemma RenderHex(m: Machine, modifier: seq<char>, v: int, rest: seq<char>, args: seq<Arg>)
    requires modifier == "" || modifier == "l" || modifier == "ll"
    requires InRange('x', SixtyFour(m, modifier, 'x'), v) && WellFormed(m, rest, args)
    ensures var f, a := "%" + modifier + "x" + rest, [Number(v)] + args;
      var wide := modifier == "ll" || (modifier == "l" && m.long64);
      && WellFormed(m, f, a)
      && Render(m, f, a) ==
           (if v >= 0 then Digits(16, v)
            else if wide then Fixed(16, v + 0x1_0000_0000_0000_0000)
            else Fixed(8, v + 0x1_0000_0000)) + Render(m, rest, args)
  {
    hide Digits, Fixed, WellFormed, Render;
    RenderConversion(m, modifier, 'x', v, rest, args);
  }

  /** %p renders a pointer in hexadecimal, whatever the modifier. */
  lemma RenderPointer(m: Machine, modifier: seq<char>, v: int, rest: seq<char>, args: seq<Arg>)
    requires modifier == "" || modifier == "l" || modifier == "ll"
    requires InRange('p', m.pointer64, v) && WellFormed(m, rest, args)
    ensures var f, a := "%" + modifier + "p" + rest, [Number(v)] + args;
      && WellFormed(m, f, a)
      && Render(m, f, a) ==
           (if v >= 0 then Digits(16, v) else Fixed(16, v + 0x1_0000_0000_0000_0000)) + Render(m, rest, args)
  {
    hide Digits, Fixed, WellFormed, Render;
    RenderConversion(m, modifier, 'p', v, rest, args);
  }

  /** Any other conversion renders nothing and takes no argument; so does %%. */
  lemma RenderUnknown(m: Machine, modifier: seq<char>, c: char, rest: seq<char>, args: seq<Arg>)
    requires modifier == "" || modifier == "l" || modifier == "ll"
    requires c !in "diuxps" && (c == 'l' ==> modifier == "ll") && c != '\0' && WellFormed(m, rest, args)
    ensures var f := "%" + modifier + [c] + rest;
      WellFormed(m, f, args) && Render(m, f, args) == Render(m, rest, args)
  {
    var f, n := "%" + modifier + [c] + rest, |modifier|;
    assert f[0] == '%' && f[1 + n] == c && f[2 + n..] == rest;
    assert f[1..] == modifier + [c] + rest;
    assert CheckLongLong(m, f[1..]).0 == n;
  }

  // ---- the bounded output ----

  function Min(a: int, b: int): int
  {
    if a < b then a else b
  }

  /** What is in the output when the text so far is out: all of it that fits. */
  ghost predicate Holds(to: array<char>, t: int, end: int, out: seq<char>)
    requires 0 <= end < to.Length
    reads to
  {
    t == Min(|out|, end) && to[..t] == out[..t]
  }

  lemma {:induction false} FixedNoNul(n: nat, v: nat)
    ensures '\0' !in Fixed(n, v)
  {
    if n == 0 {
    } else {
      FixedNoNul(n - 1, v / 16);
    }
  }

  lemma NumberNoNul(c: char, wide: bool, v: int)
    requires IsNumber(c) && Fits(c, wide, v)
    ensures '\0' !in NumberText(c, wide, v)
  {
    hide Digits, Fixed;
    DigitsNoNul(10, if v >= 0 then v else -v);
    DigitsNoNul(16, if v >= 0 then v else 0);
    FixedNoNul(8, if v < 0 && -0x8000_0000 <= v then v + 0x1_0000_0000 else 0);
    FixedNoNul(16, if v < 0 then v + 0x1_0000_0000_0000_0000 else 0);
  }

  /** The last eight of the sixteen digits of a negative 32-bit number are its own. */
  lemma StripIsNarrow(v: int)
    requires -0x8000_0000 <= v < 0
    ensures SignedText(16, v)[8..] == Fixed(8, v + 0x1_0000_0000)
  {
    hide Fixed, Pow;
    Powers();
    FixedTail(16, 8, v + 0x1_0000_0000_0000_0000);
    assert v + 0x1_0000_0000_0000_0000 == 0xffff_ffff * 0x1_0000_0000 + (v + 0x1_0000_0000);
  }

  lemma UnsignedFits(v: nat)
    requires v < 0x1_0000_0000_0000_0000
    ensures |Digits(10, v)| <= 20
  {
    Powers();
    DigitsFit(10, v, 20);
  }

  /** Lines 238-250: the number's text in a local buffer of 22, from start up to the NUL. */
  method NumberBuffer(c: char, wide: bool, v: int) returns (buff: array<char>, start: nat)
    requires IsNumber(c) && Fits(c, wide, v)
    ensures fresh(buff) && buff.Length == 22 && start <= 21
    ensures buff[start..21] == NumberText(c, wide, v) && buff[21] == '\0'
  {
    hide Digits, Fixed;
    buff := new char[22];
    var base := if c == 'x' || c == 'p' then 16 else 10;
    if c == 'u' {
      UnsignedFits(v);
      start := Utoa(base, v, buff, 21);
    } else {
      start := Itoa(base, v, buff, 21);
      if c == 'x' && !wide && v < 0 {
        StripIsNarrow(v);
        start := start + 8;
        assert buff[start..21] == buff[start - 8..21][8..];
      }
    }
  }

  /** Lines 252-254. */
  method CopyNumber(to: array<char>, t0: nat, end: nat, buff: array<char>, start: nat) returns (t: nat)
    requires t0 <= end < to.Length && buff != to && buff.Length == 22 && start <= 21
    requires buff[21] == '\0' && '\0' !in buff[start..21]
    modifies to
    ensures t == Min(t0 + (21 - start), end) && to[..t] == old(to[..t0]) + buff[start..start + (t - t0)]
    ensures forall i :: t <= i < to.Length ==> to[i] == old(to[i])
  {
    t := t0;
    var p := start;
    while buff[p] != '\0' && t < end
      invariant start <= p <= 21 && t0 <= t <= end && t - t0 == p - start
      invariant to[..t] == old(to[..t0]) + buff[start..p]
      invariant forall i :: t <= i < to.Length ==> to[i] == old(to[i])
      decreases 21 - p
    {
      to[t] := buff[p];
      t := t + 1;
      p := p + 1;
    }
    if p < 21 {
      assert buff[p] == buff[start..21][p - start];
    }
  }

  /** Lines 264-266. */
  method CopyText(to: array<char>, t0: nat, end: nat, val: seq<char>) returns (t: nat)
    requires t0 <= end < to.Length
    modifies to
    ensures t == Min(t0 + |val|, end) && to[..t] == old(to[..t0]) + val[..t - t0]
    ensures forall i :: t <= i < to.Length ==> to[i] == old(to[i])
  {
    t := t0;
    var p := 0;
    while p < |val| && t < end
      invariant 0 <= p <= |val| && t0 <= t <= end && t - t0 == p
      invariant to[..t] == old(to[..t0]) + val[..p]
      invariant forall i :: t <= i < to.Length ==> to[i] == old(to[i])
    {
      to[t] := val[p];
      t := t + 1;
      p := p + 1;
    }
  }

  /** A conversion writes as much of its text as there is room for. */
  method PutNumber(to: array<char>, t0: nat, end: nat, c: char, wide: bool, v: int, ghost out: seq<char>)
    returns (t: nat)
    requires end < to.Length && Holds(to, t0, end, out) && IsNumber(c) && Fits(c, wide, v)
    modifies to
    ensures Holds(to, t, end, out + NumberText(c, wide, v)) && t0 <= t
    ensures forall i :: t <= i < to.Length ==> to[i] == old(to[i])
  {
    hide NumberText;
    var buff, start := NumberBuffer(c, wide, v);
    NumberNoNul(c, wide, v);
    t := CopyNumber(to, t0, end, buff, start);
  }

  method PutText(to: array<char>, t0: nat, end: nat, val: seq<char>, ghost out: seq<char>) returns (t: nat)
    requires end < to.Length && Holds(to, t0, end, out)
    modifies to
    ensures Holds(to, t, end, out + val) && t0 <= t
    ensures forall i :: t <= i < to.Length ==> to[i] == old(to[i])
  {
    t := CopyText(to, t0, end, val);
  }

  /** What a conversion at position f writes, and where the format goes on. */
  lemma RenderStep(m: Machine, format: seq<char>, f: nat, args: seq<Arg>, k: nat)
    requires f < |format| && k <= |args| && WellFormed(m, format[f..], args[k..])
    ensures format[f] != '%' ==>
      && WellFormed(m, format[f + 1..], args[k..])
      && Render(m, format[f..], args[k..]) == [format[f]] + Render(m, format[f + 1..], args[k..])
    ensures format[f] == '%' ==> var (n, wide) := CheckLongLong(m, format[f + 1..]);
      var g := f + 1 + n;
      && g < |format|
      && (IsNumber(format[g]) ==>
            && k < |args| && args[k].Number? && Fits(format[g], Wide(m, format[g], wide), args[k].v)
            && WellFormed(m, format[g + 1..], args[k + 1..])
            && Render(m, format[f..], args[k..]) ==
               NumberText(format[g], Wide(m, format[g], wide), args[k].v) + Render(m, format[g + 1..], args[k + 1..]))
      && (format[g] == 's' ==>
            && k < |args| && !args[k].Number? && WellFormed(m, format[g + 1..], args[k + 1..])
            && Render(m, format[f..], args[k..]) == StringText(args[k]) + Render(m, format[g + 1..], args[k + 1..]))
      && (!IsNumber(format[g]) && format[g] != 's' ==>
            && WellFormed(m, format[g + 1..], args[k..])
            && Render(m, format[f..], args[k..]) == Render(m, format[g + 1..], args[k..]))
  {
    hide NumberText, StringText, Fits, Wide;
    var s, a := format[f..], args[k..];
    assert s[1..] == format[f + 1..];
    assert |a| > 0 ==> a[0] == args[k] && a[1..] == args[k + 1..];
    if s[0] == '%' {
      var n := CheckLongLong(m, s[1..]).0;
      assert s[2 + n..] == format[f + 2 + n..];
    }
  }

  /** What is still to be rendered from position f, with the arguments from k on. */
  ghost predicate Left(m: Machine, format: seq<char>, f: int, args: seq<Arg>, k: int, out: seq<char>, text: seq<char>)
  {
    && 0 <= f <= |format| && 0 <= k <= |args| && WellFormed(m, format[f..], args[k..])
    && text == out + Render(m, format[f..], args[k..])
  }

  /** Lines 208-268: one conversion. */
  method Conversion(m: Machine, to: array<char>, t0: nat, end: nat, format: seq<char>, f0: nat, args: seq<Arg>, k0: nat,
                    ghost out0: seq<char>, ghost text: seq<char>)
    returns (t: nat, f: nat, k: nat, ghost out: seq<char>)
    requires f0 < |format| && format[f0] == '%' && Left(m, format, f0, args, k0, out0, text)
    requires end < to.Length && Holds(to, t0, end, out0)
    modifies to
    ensures Holds(to, t, end, out) && Left(m, format, f, args, k, out, text) && f0 < f && t0 <= t
    ensures forall i :: t <= i < to.Length ==> to[i] == old(to[i])
  {
    hide WellFormed, Render, NumberText, StringText, Fits, CheckLongLong;
    RenderStep(m, format, f0, args, k0);
    t, f, k, out := t0, f0 + 1, k0, out0;
    var (skip, long) := CheckLongLong(m, format[f..]);
    f := f + skip;
    var c := format[f];
    f := f + 1;
    if IsNumber(c) {
      var wide := Wide(m, c, long);
      t := PutNumber(to, t, end, c, wide, args[k].v, out);
      out := out + NumberText(c, wide, args[k].v);
      k := k + 1;
    } else if c == 's' {
      t := PutText(to, t, end, StringText(args[k]), out);
      out := out + StringText(args[k]);
      k := k + 1;
    }
  }

  /** Lines 202-206: an ordinary character, when there is room for it. */
  method Ordinary(m: Machine, to: array<char>, t0: nat, end: nat, format: seq<char>, f0: nat, args: seq<Arg>, k: nat,
                  ghost out0: seq<char>, ghost text: seq<char>)
    returns (t: nat, f: nat, ghost out: seq<char>)
    requires f0 < |format| && format[f0] != '%' && Left(m, format, f0, args, k, out0, text)
    requires t0 < end < to.Length && Holds(to, t0, end, out0)
    modifies to
    ensures Holds(to, t, end, out) && Left(m, format, f, args, k, out, text) && f == f0 + 1 && t0 <= t
    ensures forall i :: t <= i < to.Length ==> to[i] == old(to[i])
  {
    hide WellFormed, Render;
    RenderStep(m, format, f0, args, k);
    to[t0] := format[f0];
    t, f, out := t0 + 1, f0 + 1, out0 + [format[f0]];
  }

  lemma RenderNothing(m: Machine, args: seq<Arg>)
    ensures WellFormed(m, [], args) && Render(m, [], args) == []
  {
  }

  /** As much of the rendering as fits in size - 1 characters, and a NUL, which is not counted. */
  method SafeVsnprintf(m: Machine, to: array<char>, size: nat, format: seq<char>, args: seq<Arg>) returns (n: nat)
    requires 1 <= size <= to.Length && WellFormed(m, format, args)
    modifies to
    ensures var text := Render(m, format, args);
      n == Min(|text|, size - 1) && to[..n] == text[..n] && to[n] == '\0'
    ensures forall i :: n < i < to.Length ==> to[i] == old(to[i])
  {
    hide WellFormed, Render;
    ghost var text, out := Render(m, format, args), [];
    var t: nat, end := 0, size - 1;
    var f: nat, k: nat := 0, 0;
    assert format[0..] == format && args[0..] == args;
    while f < |format|
      invariant Left(m, format, f, args, k, out, text) && Holds(to, t, end, out)
      invariant forall i :: t <= i < to.Length ==> to[i] == old(to[i])
      decreases |format| - f
    {
      if format[f] != '%' {
        if t == end {
          break;
        }
        t, f, out := Ordinary(m, to, t, end, format, f, args, k, out, text);
        continue;
      }
      t, f, k, out := Conversion(m, to, t, end, format, f, args, k, out, text);
    }
    RenderNothing(m, args[k..]);
    assert f == |format| ==> format[f..] == [] && text == out;
    assert text[..t] == out[..t];
    to[t] := '\0';
    n := t;
  }
}
