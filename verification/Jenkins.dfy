/** Bob Jenkins' hash in src/hashkit/nc_jenkins.c: one hash, three ways to read the key. The 32-bit
    words are numbers, so that `+=` is a sum modulo 2^32 and a mask of low bits a remainder. */
module Jenkins {

  type Byte = b: int | 0 <= b < 0x100
  type Word = w: int | 0 <= w < 0x1_0000_0000

  datatype Abc = Abc(a: Word, b: Word, c: Word)

  /** The sum modulo 2^32. */
  function Plus(x: Word, y: Word): Word
  {
    if x + y < 0x1_0000_0000 then x + y else x + y - 0x1_0000_0000
  }

  /** The difference modulo 2^32. */
  function Minus(x: Word, y: Word): Word
  {
    if x >= y then x - y else x - y + 0x1_0000_0000
  }

  lemma PlusPlus(x: Word, y: Word, z: Word)
    requires y + z < 0x1_0000_0000
    ensures Plus(Plus(x, y), z) == Plus(x, y + z)
  {
  }

  function Xor(x: Word, y: Word): Word
  {
    ((x as bv32) ^ (y as bv32)) as int
  }

  function Rot(x: Word, k: nat): Word
    requires 0 < k < 32
  {
    (((x as bv32) << k) | ((x as bv32) >> (32 - k))) as int
  }

  /** One line of mix: x -= y; x ^= rot(y, k). */
  function MixLine(x: Word, y: Word, k: nat): Word
    requires 0 < k < 32
  {
    Xor(Minus(x, y), Rot(y, k))
  }

  function Mix(s: Abc): Abc
  {
    var a := MixLine(s.a, s.c, 4);
    var c := Plus(s.c, s.b);
    var b := MixLine(s.b, a, 6);
    var a1 := Plus(a, c);
    var c1 := MixLine(c, b, 8);
    var b1 := Plus(b, a1);
    var a2 := MixLine(a1, c1, 16);
    var c2 := Plus(c1, b1);
    var b2 := MixLine(b1, a2, 19);
    var a3 := Plus(a2, c2);
    var c3 := MixLine(c2, b2, 4);
    var b3 := Plus(b2, a3);
    Abc(a3, b3, c3)
  }

  /** One line of final: x ^= y; x -= rot(y, k). */
  function FinalLine(x: Word, y: Word, k: nat): Word
    requires 0 < k < 32
  {
    Minus(Xor(x, y), Rot(y, k))
  }

  function Final(s: Abc): Abc
  {
    var c := FinalLine(s.c, s.b, 14);
    var a := FinalLine(s.a, c, 11);
    var b := FinalLine(s.b, a, 25);
    var c1 := FinalLine(c, b, 16);
    var a1 := FinalLine(a, c1, 4);
    var b1 := FinalLine(b, a1, 14);
    var c2 := FinalLine(c1, b1, 24);
    Abc(a1, b1, c2)
  }

  const INITVAL: Word := 13

  function Start(length: nat, initval: Word): Abc
  {
    var x := (0xdeadbeef + length % 0x1_0000_0000 + initval) % 0x1_0000_0000;
    Abc(x, x, x)
  }

  // ---- what the hash is: the key as little-endian words, the last ones filled up with zeros ----

  function LeWord(b0: Byte, b1: Byte, b2: Byte, b3: Byte): Word
  {
    b0 + 0x100 * b1 + 0x1_0000 * b2 + 0x100_0000 * b3
  }

  function At(key: seq<Byte>, i: nat): Byte
  {
    if i < |key| then key[i] else 0
  }

  function KeyWord(key: seq<Byte>, i: nat): Word
  {
    LeWord(At(key, i), At(key, i + 1), At(key, i + 2), At(key, i + 3))
  }

  function Block(s: Abc, key: seq<Byte>): Abc
  {
    Abc(Plus(s.a, KeyWord(key, 0)), Plus(s.b, KeyWord(key, 4)), Plus(s.c, KeyWord(key, 8)))
  }

  function Blocks(s: Abc, key: seq<Byte>): Abc
    decreases |key|
  {
    if |key| <= 12 then Block(s, key) else Blocks(Mix(Block(s, key)), key[12..])
  }

  function HashFrom(initval: Word, key: seq<Byte>): Word
  {
    if key == [] then Start(0, initval).c else Final(Blocks(Start(|key|, initval), key)).c
  }

  function Hash(key: seq<Byte>): Word
  {
    HashFrom(INITVAL, key)
  }

  // ---- every mix can be undone ----

  function Cat(h: bv16, l: bv16): bv32 { ((h as bv32) << 16) | (l as bv32) }

  function Pair(h: bv8, l: bv8): bv16 { ((h as bv16) << 8) | (l as bv16) }

  function Number8(b: bv8): int { b as int }

  function Number16(b: bv16): int { b as int }

  function Number(b: bv32): int { b as int }

  function Bits(x: Word): bv32 { x as bv32 }

  lemma ByteBack(x: Byte)
    ensures Number8(x as bv8) == x
  {
  }

  lemma PairIs(h: bv8, l: bv8)
    ensures Number16(Pair(h, l)) == 0x100 * Number8(h) + Number8(l)
  {
  }

  lemma CatIs(h: bv16, l: bv16)
    ensures Number(Cat(h, l)) == 0x1_0000 * Number16(h) + Number16(l)
  {
  }

  lemma BitsBack(b: bv32)
    ensures 0 <= Number(b) < 0x1_0000_0000 && Bits(Number(b)) == b
  {
  }

  lemma InBytes(x: Word) returns (b0: Byte, b1: Byte, b2: Byte, b3: Byte)
    ensures x == 0x1_0000 * (0x100 * b3 + b2) + (0x100 * b1 + b0)
  {
    b0, b1, b2, b3 := x % 0x100, x / 0x100 % 0x100, x / 0x1_0000 % 0x100, x / 0x100_0000;
  }

  /** A word is the number of its bits. */
  lemma WordBack(x: Word)
    ensures Number(Bits(x)) == x
  {
    var b0, b1, b2, b3 := InBytes(x);
    var h, l := Pair(b3 as bv8, b2 as bv8), Pair(b1 as bv8, b0 as bv8);
    ByteBack(b0); ByteBack(b1); ByteBack(b2); ByteBack(b3);
    hide *;
    PairIs(b3 as bv8, b2 as bv8);
    PairIs(b1 as bv8, b0 as bv8);
    CatIs(h, l);
    BitsBack(Cat(h, l));
  }

  function XorBits(x: bv32, y: bv32): bv32 { x ^ y }

  lemma XorBitsBack(x: bv32, y: bv32)
    ensures XorBits(XorBits(x, y), y) == x
  {
  }

  lemma XorIs(x: Word, y: Word)
    ensures Xor(x, y) == Number(XorBits(Bits(x), Bits(y)))
  {
  }

  lemma XorBack(x: Word, y: Word)
    ensures Xor(Xor(x, y), y) == x
  {
    hide *;
    XorIs(x, y);
    XorIs(Xor(x, y), y);
    BitsBack(XorBits(Bits(x), Bits(y)));
    XorBitsBack(Bits(x), Bits(y));
    WordBack(x);
  }

  lemma SumBack(x: Word, y: Word)
    ensures Minus(Plus(x, y), y) == x && Plus(Minus(x, y), y) == x
  {
  }

  function UnmixLine(x: Word, y: Word, k: nat): Word
    requires 0 < k < 32
  {
    Plus(Xor(x, Rot(y, k)), y)
  }

  function UnfinalLine(x: Word, y: Word, k: nat): Word
    requires 0 < k < 32
  {
    Xor(Plus(x, Rot(y, k)), y)
  }

  lemma LinesBack(x: Word, y: Word, k: nat)
    requires 0 < k < 32
    ensures UnmixLine(MixLine(x, y, k), y, k) == x
    ensures UnfinalLine(FinalLine(x, y, k), y, k) == x
  {
    hide Xor, Plus, Minus, Rot;
    XorBack(Minus(x, y), Rot(y, k));
    SumBack(x, y);
    XorBack(x, y);
    SumBack(Xor(x, y), Rot(y, k));
  }

  /** The lines of mix undone, the last one first. */
  function Unmix(s: Abc): Abc
  {
    var b := Minus(s.b, s.a);
    var c := UnmixLine(s.c, b, 4);
    var a := Minus(s.a, c);
    var b1 := UnmixLine(b, a, 19);
    var c1 := Minus(c, b1);
    var a1 := UnmixLine(a, c1, 16);
    var b2 := Minus(b1, a1);
    var c2 := UnmixLine(c1, b2, 8);
    var a2 := Minus(a1, c2);
    var b3 := UnmixLine(b2, a2, 6);
    var c3 := Minus(c2, b3);
    var a3 := UnmixLine(a2, c3, 4);
    Abc(a3, b3, c3)
  }

  lemma MixBack(s: Abc)
    ensures Unmix(Mix(s)) == s
  {
    hide MixLine, UnmixLine, Plus, Minus;
    var a := MixLine(s.a, s.c, 4);
    var c := Plus(s.c, s.b);
    var b := MixLine(s.b, a, 6);
    var a1 := Plus(a, c);
    var c1 := MixLine(c, b, 8);
    var b1 := Plus(b, a1);
    var a2 := MixLine(a1, c1, 16);
    var c2 := Plus(c1, b1);
    var b2 := MixLine(b1, a2, 19);
    var a3 := Plus(a2, c2);
    LinesBack(s.a, s.c, 4); SumBack(s.c, s.b); LinesBack(s.b, a, 6); SumBack(a, c);
    LinesBack(c, b, 8); SumBack(b, a1); LinesBack(a1, c1, 16); SumBack(c1, b1);
    LinesBack(b1, a2, 19); SumBack(a2, c2); LinesBack(c2, b2, 4); SumBack(b2, a3);
  }

  /** The lines of final undone, the last one first. */
  function Unfinal(s: Abc): Abc
  {
    var c := UnfinalLine(s.c, s.b, 24);
    var b := UnfinalLine(s.b, s.a, 14);
    var a := UnfinalLine(s.a, c, 4);
    var c1 := UnfinalLine(c, b, 16);
    var b1 := UnfinalLine(b, a, 25);
    var a1 := UnfinalLine(a, c1, 11);
    var c2 := UnfinalLine(c1, b1, 14);
    Abc(a1, b1, c2)
  }

  lemma FinalBack(s: Abc)
    ensures Unfinal(Final(s)) == s
  {
    hide FinalLine, UnfinalLine;
    var c := FinalLine(s.c, s.b, 14);
    var a := FinalLine(s.a, c, 11);
    var b := FinalLine(s.b, a, 25);
    var c1 := FinalLine(c, b, 16);
    var a1 := FinalLine(a, c1, 4);
    var b1 := FinalLine(b, a1, 14);
    LinesBack(s.c, s.b, 14); LinesBack(s.a, c, 11); LinesBack(s.b, a, 25); LinesBack(c, b, 16);
    LinesBack(a, c1, 4); LinesBack(b, a1, 14); LinesBack(c1, b1, 24);
  }

  /** Words that follow never bring two different states together. */
  lemma {:induction false} BlocksInjective(s: Abc, t: Abc, key: seq<Byte>)
    requires Blocks(s, key) == Blocks(t, key)
    ensures s == t
    decreases |key|
  {
    hide Mix, Plus, KeyWord;
    SumBack(s.a, KeyWord(key, 0)); SumBack(s.b, KeyWord(key, 4)); SumBack(s.c, KeyWord(key, 8));
    SumBack(t.a, KeyWord(key, 0)); SumBack(t.b, KeyWord(key, 4)); SumBack(t.c, KeyWord(key, 8));
    if |key| <= 12 {
    } else {
      BlocksInjective(Mix(Block(s, key)), Mix(Block(t, key)), key[12..]);
      MixBack(Block(s, key));
      MixBack(Block(t, key));
    }
  }

  // ---- one byte at a time ----

  /** The bytes of a word in their places. */
  function Shifted(b: Byte, places: nat): Word
    requires places < 4
  {
    if places == 0 then b else if places == 1 then 0x100 * b else if places == 2 then 0x1_0000 * b else 0x100_0000 * b
  }

  /** Lines 188-191, 192-195 or 196-199. */
  method AddBytes(x: Word, k: seq<Byte>, i: nat) returns (y: Word)
    requires i + 4 <= |k|
    ensures y == Plus(x, KeyWord(k, i))
  {
    hide Plus;
    y := Plus(x, Shifted(k[i], 0));
    y := Plus(y, Shifted(k[i + 1], 1));
    y := Plus(y, Shifted(k[i + 2], 2));
    y := Plus(y, Shifted(k[i + 3], 3));
    PlusPlus(x, Shifted(k[i], 0), Shifted(k[i + 1], 1));
    PlusPlus(x, Shifted(k[i], 0) + Shifted(k[i + 1], 1), Shifted(k[i + 2], 2));
    PlusPlus(x, Shifted(k[i], 0) + Shifted(k[i + 1], 1) + Shifted(k[i + 2], 2), Shifted(k[i + 3], 3));
  }

  lemma NothingIs(x: Word)
    ensures Plus(x, 0) == x
  {
  }

  /** The cases of lines 208-211, 212-215 or 216-219, which fall through. */
  method FallThrough(x: Word, k: seq<Byte>, i: nat) returns (y: Word)
    ensures y == Plus(x, KeyWord(k, i))
  {
    hide Plus;
    y := x;
    if |k| >= i + 4 { y := Plus(y, Shifted(k[i + 3], 3)); }
    if |k| >= i + 3 { y := Plus(y, Shifted(k[i + 2], 2)); }
    if |k| >= i + 2 { y := Plus(y, Shifted(k[i + 1], 1)); }
    if |k| >= i + 1 { y := Plus(y, Shifted(k[i], 0)); }
    var b0, b1 := Shifted(At(k, i), 0), Shifted(At(k, i + 1), 1);
    var b2, b3 := Shifted(At(k, i + 2), 2), Shifted(At(k, i + 3), 3);
    NothingIs(x);
    PlusPlus(x, b3, b2);
    PlusPlus(x, b3 + b2, b1);
    PlusPlus(x, b3 + b2 + b1, b0);
  }

  method HashBytes(key: seq<Byte>) returns (hash: Word)
    ensures hash == Hash(key)
  {
    hide Mix, Final, KeyWord, Plus, Start;
    var s := Start(|key|, INITVAL);
    var k := key;
    while |k| > 12
      invariant key == [] ==> k == [] && s == Start(0, INITVAL)
      invariant key != [] ==> k != [] && Blocks(s, k) == Blocks(Start(|key|, INITVAL), key)
      decreases |k|
    {
      var a := AddBytes(s.a, k, 0);
      var b := AddBytes(s.b, k, 4);
      var c := AddBytes(s.c, k, 8);
      s := Mix(Abc(a, b, c));
      k := k[12..];
    }
    if |k| == 0 {
      return s.c;
    }
    var c := FallThrough(s.c, k, 8);
    var b := FallThrough(s.b, k, 4);
    var a := FallThrough(s.a, k, 0);
    hash := Final(Abc(a, b, c)).c;
  }

  // ---- 32 bits at a time, from memory that goes on behind the key ----

  function MemWord(mem: seq<Byte>, i: nat): Word
    requires i + 4 <= |mem|
  {
    LeWord(mem[i], mem[i + 1], mem[i + 2], mem[i + 3])
  }

  lemma MaskIs(b0: Byte, b1: Byte, b2: Byte, b3: Byte)
    ensures LeWord(b0, b1, b2, b3) % 0x100_0000 == LeWord(b0, b1, b2, 0)
    ensures LeWord(b0, b1, b2, b3) % 0x1_0000 == LeWord(b0, b1, 0, 0)
    ensures LeWord(b0, b1, b2, b3) % 0x100 == LeWord(b0, 0, 0, 0)
  {
  }

  /** What the cases of lines 113-124 add of one word of the last block, which has n bytes: all of
      it, only the bytes of it that are in the key, or nothing, and then it is not read. */
  method AddMasked(x: Word, mem: seq<Byte>, i: nat, n: nat) returns (y: Word)
    requires n <= |mem| && (n > i ==> i + 4 <= |mem|)
    ensures y == Plus(x, KeyWord(mem[..n], i))
  {
    hide Plus;
    y := x;
    NothingIs(x);
    if n > i {
      MaskIs(mem[i], mem[i + 1], mem[i + 2], mem[i + 3]);
    }
    if n >= i + 4 {
      y := Plus(x, MemWord(mem, i));
    } else if n == i + 3 {
      y := Plus(x, MemWord(mem, i) % 0x100_0000);
    } else if n == i + 2 {
      y := Plus(x, MemWord(mem, i) % 0x1_0000);
    } else if n == i + 1 {
      y := Plus(x, MemWord(mem, i) % 0x100);
    }
  }

  /** The aligned reader. The memory's last word may hold bytes that are not in the key. */
  method HashWords(mem: seq<Byte>, length: nat) returns (hash: Word)
    requires length <= |mem| && |mem| % 4 == 0
    ensures hash == Hash(mem[..length])
  {
    hide Mix, Final, Plus, Start, LeWord;
    var s := Start(length, INITVAL);
    var k, n: nat := mem, length;
    while n > 12
      invariant n <= |k| && |k| % 4 == 0
      invariant length == 0 ==> n == 0 && s == Start(0, INITVAL)
      invariant length != 0 ==> n != 0 && Blocks(s, k[..n]) == Blocks(Start(length, INITVAL), mem[..length])
      decreases n
    {
      ghost var key := k[..n];
      assert key[12..] == k[12..][..n - 12];
      s := Mix(Abc(Plus(s.a, MemWord(k, 0)), Plus(s.b, MemWord(k, 4)), Plus(s.c, MemWord(k, 8))));
      n := n - 12;
      k := k[12..];
    }
    if n == 0 {
      return s.c;
    }
    var c := AddMasked(s.c, k, 8, n);
    var b := AddMasked(s.b, k, 4, n);
    var a := AddMasked(s.a, k, 0, n);
    hash := Final(Abc(a, b, c)).c;
  }

  // ---- 16 bits at a time ----

  function Half(k: seq<Byte>, i: nat): Word
    requires 2 * i + 2 <= |k|
  {
    (k[2 * i] as int) + 0x100 * (k[2 * i + 1] as int)
  }

  /** k[i] + (((uint32_t)k[i + 1]) << 16), lines 138-140. */
  function TwoHalves(k: seq<Byte>, i: nat): Word
    requires 2 * i + 4 <= |k|
  {
    Half(k, i) + 0x1_0000 * Half(k, i + 1)
  }

  /** What the cases of lines 150-174 add for bytes 2i to 2i + 3 of the last block. */
  method AddHalves(x: Word, k: seq<Byte>, i: nat) returns (y: Word)
    ensures y == Plus(x, KeyWord(k, 2 * i))
  {
    hide Plus;
    y := x;
    NothingIs(x);
    if |k| >= 2 * i + 4 {
      y := Plus(x, TwoHalves(k, i));
    } else if |k| == 2 * i + 3 {
      y := Plus(x, Shifted(k[2 * i + 2], 2));
      y := Plus(y, Half(k, i));
      PlusPlus(x, Shifted(k[2 * i + 2], 2), Half(k, i));
    } else if |k| == 2 * i + 2 {
      y := Plus(x, Half(k, i));
    } else if |k| == 2 * i + 1 {
      y := Plus(x, k[2 * i]);
    }
  }

  method HashHalves(key: seq<Byte>) returns (hash: Word)
    ensures hash == Hash(key)
  {
    hide Mix, Final, Plus, Start;
    var s := Start(|key|, INITVAL);
    var k := key;
    while |k| > 12
      invariant key == [] ==> k == [] && s == Start(0, INITVAL)
      invariant key != [] ==> k != [] && Blocks(s, k) == Blocks(Start(|key|, INITVAL), key)
      decreases |k|
    {
      s := Mix(Abc(Plus(s.a, TwoHalves(k, 0)), Plus(s.b, TwoHalves(k, 2)), Plus(s.c, TwoHalves(k, 4))));
      k := k[12..];
    }
    if |k| == 0 {
      return s.c;
    }
    var c := AddHalves(s.c, k, 4);
    var b := AddHalves(s.b, k, 2);
    var a := AddHalves(s.a, k, 0);
    hash := Final(Abc(a, b, c)).c;
  }

  /** The three readers, chosen by the alignment of the key in memory. */
  method HashJenkins(mem: seq<Byte>, length: nat, address: nat) returns (hash: Word)
    requires length <= |mem| && |mem| % 4 == 0
    ensures hash == Hash(mem[..length])
  {
    if address % 4 == 0 {
      hash := HashWords(mem, length);
    } else if address % 2 == 0 {
      hash := HashHalves(mem[..length]);
    } else {
      hash := HashBytes(mem[..length]);
    }
  }

  // ---- Known answers ----

  /** "Four score and seven years ago". */
  const FOUR_SCORE: seq<Byte> := [
    0x46, 0x6f, 0x75, 0x72, 0x20, 0x73, 0x63, 0x6f, 0x72, 0x65,
    0x20, 0x61, 0x6e, 0x64, 0x20, 0x73, 0x65, 0x76, 0x65, 0x6e,
    0x20, 0x79, 0x65, 0x61, 0x72, 0x73, 0x20, 0x61, 0x67, 0x6f
  ]

  lemma AtInside(key: seq<Byte>, i: nat)
    ensures At(key, i) == if i < |key| then key[i] else 0
  {
  }

  lemma FourScoreLe0()
    ensures LeWord(0x46, 0x6f, 0x75, 0x72) == 0x72756f46
    ensures LeWord(0x20, 0x73, 0x63, 0x6f) == 0x6f637320
    ensures LeWord(0x72, 0x65, 0x20, 0x61) == 0x61206572
  {
  }

  lemma FourScoreWords0()
    ensures KeyWord(FOUR_SCORE, 0) == 0x72756f46
    ensures KeyWord(FOUR_SCORE, 4) == 0x6f637320
    ensures KeyWord(FOUR_SCORE, 8) == 0x61206572
  {
    hide At, LeWord;
    FourScoreLe0();
    AtInside(FOUR_SCORE, 0); AtInside(FOUR_SCORE, 1); AtInside(FOUR_SCORE, 2); AtInside(FOUR_SCORE, 3);
    AtInside(FOUR_SCORE, 4); AtInside(FOUR_SCORE, 5); AtInside(FOUR_SCORE, 6); AtInside(FOUR_SCORE, 7);
    AtInside(FOUR_SCORE, 8); AtInside(FOUR_SCORE, 9); AtInside(FOUR_SCORE, 10); AtInside(FOUR_SCORE, 11);
  }

  lemma FourScoreLe1()
    ensures LeWord(0x6e, 0x64, 0x20, 0x73) == 0x7320646e
    ensures LeWord(0x65, 0x76, 0x65, 0x6e) == 0x6e657665
    ensures LeWord(0x20, 0x79, 0x65, 0x61) == 0x61657920
  {
  }

  lemma FourScoreWords1()
    ensures KeyWord(FOUR_SCORE, 12) == 0x7320646e
    ensures KeyWord(FOUR_SCORE, 16) == 0x6e657665
    ensures KeyWord(FOUR_SCORE, 20) == 0x61657920
  {
    hide At, LeWord;
    FourScoreLe1();
    AtInside(FOUR_SCORE, 12); AtInside(FOUR_SCORE, 13); AtInside(FOUR_SCORE, 14); AtInside(FOUR_SCORE, 15);
    AtInside(FOUR_SCORE, 16); AtInside(FOUR_SCORE, 17); AtInside(FOUR_SCORE, 18); AtInside(FOUR_SCORE, 19);
    AtInside(FOUR_SCORE, 20); AtInside(FOUR_SCORE, 21); AtInside(FOUR_SCORE, 22); AtInside(FOUR_SCORE, 23);
  }

  lemma FourScoreLe2()
    ensures LeWord(0x72, 0x73, 0x20, 0x61) == 0x61207372
    ensures LeWord(0x67, 0x6f, 0x00, 0x00) == 0x00006f67
    ensures LeWord(0x00, 0x00, 0x00, 0x00) == 0x00000000
  {
  }

  lemma FourScoreWords2()
    ensures KeyWord(FOUR_SCORE, 24) == 0x61207372
    ensures KeyWord(FOUR_SCORE, 28) == 0x00006f67
    ensures KeyWord(FOUR_SCORE, 32) == 0x00000000
  {
    hide At, LeWord;
    FourScoreLe2();
    AtInside(FOUR_SCORE, 24); AtInside(FOUR_SCORE, 25); AtInside(FOUR_SCORE, 26); AtInside(FOUR_SCORE, 27);
    AtInside(FOUR_SCORE, 28); AtInside(FOUR_SCORE, 29); AtInside(FOUR_SCORE, 30); AtInside(FOUR_SCORE, 31);
    AtInside(FOUR_SCORE, 32); AtInside(FOUR_SCORE, 33); AtInside(FOUR_SCORE, 34); AtInside(FOUR_SCORE, 35);
  }

  lemma WordsBehind(key: seq<Byte>, m: nat, i: nat)
    requires m <= |key|
    ensures KeyWord(key[m..], i) == KeyWord(key, m + i)
  {
  }

  /** The blocks of a key of 25 to 36 bytes. */
  lemma ThreeBlocks(s: Abc, key: seq<Byte>)
    requires 24 < |key| <= 36
    ensures var s1 := Mix(Abc(Plus(s.a, KeyWord(key, 0)), Plus(s.b, KeyWord(key, 4)), Plus(s.c, KeyWord(key, 8))));
      var s2 := Mix(Abc(Plus(s1.a, KeyWord(key, 12)), Plus(s1.b, KeyWord(key, 16)), Plus(s1.c, KeyWord(key, 20))));
      Blocks(s, key) == Abc(Plus(s2.a, KeyWord(key, 24)), Plus(s2.b, KeyWord(key, 28)), Plus(s2.c, KeyWord(key, 32)))
  {
    hide Mix, Plus, KeyWord;
    var k1, k2 := key[12..], key[24..];
    var s1 := Mix(Block(s, key));
    var s2 := Mix(Block(s1, k1));
    assert k1[12..] == k2;
    WordsBehind(key, 12, 0);
    WordsBehind(key, 12, 4);
    WordsBehind(key, 12, 8);
    WordsBehind(key, 24, 0);
    WordsBehind(key, 24, 4);
    WordsBehind(key, 24, 8);
    assert Blocks(s, key) == Blocks(s1, k1);
    assert Blocks(s1, k1) == Blocks(s2, k2);
    assert Blocks(s2, k2) == Block(s2, k2);
  }

  lemma StartIs(length: nat, initval: Word)
    requires length < 0x1_0000 && initval < 0x100
    ensures var x := 0xdeadbeef + length + initval; Start(length, initval) == Abc(x, x, x)
  {
    assert length % 0x1_0000_0000 == length;
  }

  lemma HashOfBlocks(initval: Word, key: seq<Byte>)
    requires key != []
    ensures HashFrom(initval, key) == Final(Blocks(Start(|key|, initval), key)).c
  {
    hide Final, Blocks, Start;
  }

  lemma FourScore0Mix1A()
    ensures Minus(0x51232e53, 0x3fce247f) == 0x115509d4 && Rot(0x3fce247f, 4) == 0xfce247f3
    ensures Xor(0x115509d4, 0xfce247f3) == 0xedb74e27
    ensures Minus(0x4e11322d, 0xedb74e27) == 0x6059e406 && Rot(0xedb74e27, 6) == 0x6dd389fb
    ensures Xor(0x6059e406, 0x6dd389fb) == 0x0d8a6dfd
    ensures Minus(0x8ddf56ac, 0x0d8a6dfd) == 0x8054e8af && Rot(0x0d8a6dfd, 8) == 0x8a6dfd0d
    ensures Xor(0x8054e8af, 0x8a6dfd0d) == 0x0a3915a2
  {
  }

  lemma FourScore0Mix1B()
    ensures Minus(0x7b96a4d3, 0x0a3915a2) == 0x715d8f31 && Rot(0x0a3915a2, 16) == 0x15a20a39
    ensures Xor(0x715d8f31, 0x15a20a39) == 0x64ff8508
    ensures Minus(0x892112d0, 0x64ff8508) == 0x24218dc8 && Rot(0x64ff8508, 19) == 0x284327fc
    ensures Xor(0x24218dc8, 0x284327fc) == 0x0c62aa34
    ensures Minus(0x935a2872, 0x0c62aa34) == 0x86f77e3e && Rot(0x0c62aa34, 4) == 0xc62aa340
    ensures Xor(0x86f77e3e, 0xc62aa340) == 0x40dddd7e
  {
  }

  lemma FourScore0Mix1()
    ensures Mix(Abc(0x51232e53, 0x4e11322d, 0x3fce247f)) == Abc(0xf859ad7a, 0x04bc57ae, 0x40dddd7e)
  {
    hide Minus, Rot, Xor;
    FourScore0Mix1A();
    FourScore0Mix1B();
  }

  lemma FourScore0Mix2A()
    ensures Minus(0x6b7a11e8, 0xa243569e) == 0xc936bb4a && Rot(0xa243569e, 4) == 0x243569ea
    ensures Xor(0xc936bb4a, 0x243569ea) == 0xed03d2a0
    ensures Minus(0x7321ce13, 0xed03d2a0) == 0x861dfb73 && Rot(0xed03d2a0, 6) == 0x40f4a83b
    ensures Xor(0x861dfb73, 0x40f4a83b) == 0xc6e95348
    ensures Minus(0x156524b1, 0xc6e95348) == 0x4e7bd169 && Rot(0xc6e95348, 8) == 0xe95348c6
    ensures Xor(0x4e7bd169, 0xe95348c6) == 0xa72899af
  {
  }

  lemma FourScore0Mix2B()
    ensures Minus(0x0268f751, 0xa72899af) == 0x5b405da2 && Rot(0xa72899af, 16) == 0x99afa728
    ensures Xor(0x5b405da2, 0x99afa728) == 0xc2effa8a
    ensures Minus(0xc9524a99, 0xc2effa8a) == 0x0662500f && Rot(0xc2effa8a, 19) == 0xd456177f
    ensures Xor(0x0662500f, 0xd456177f) == 0xd2344770
    ensures Minus(0x707ae448, 0xd2344770) == 0x9e469cd8 && Rot(0xd2344770, 4) == 0x2344770d
    ensures Xor(0x9e469cd8, 0x2344770d) == 0xbd02ebd5
  {
  }

  lemma FourScore0Mix2()
    ensures Mix(Abc(0x6b7a11e8, 0x7321ce13, 0xa243569e)) == Abc(0x336aded2, 0x059f2642, 0xbd02ebd5)
  {
    hide Minus, Rot, Xor;
    FourScore0Mix2A();
    FourScore0Mix2B();
  }

  lemma FourScore0FinalA()
    ensures FinalLine(0xbd02ebd5, 0x059f95a9, 14) == 0xd3333d15
    ensures FinalLine(0x948b5244, 0xd3333d15, 11) == 0xadcfc0b8
    ensures FinalLine(0x059f95a9, 0xadcfc0b8, 25) == 0x36f4b590
    ensures FinalLine(0xd3333d15, 0x36f4b590, 16) == 0x30375191
  {
  }

  lemma FourScore0FinalB()
    ensures FinalLine(0xadcfc0b8, 0x30375191, 4) == 0x9a837816
    ensures FinalLine(0x36f4b590, 0x9a837816, 14) == 0xce7226e6
    ensures FinalLine(0x30375191, 0xce7226e6, 24) == 0x17770551
  {
  }

  lemma FourScore0Final()
    ensures Final(Abc(0x948b5244, 0x059f95a9, 0xbd02ebd5)) == Abc(0x9a837816, 0xce7226e6, 0x17770551)
  {
    hide FinalLine;
    FourScore0FinalA();
    FourScore0FinalB();
  }

  /** The published answer for the initial value 0. */
  lemma FourScore0()
    ensures HashFrom(0, FOUR_SCORE) == 0x17770551
  {
    hide Mix, Final, KeyWord, Start, Blocks, HashFrom;
    FourScoreWords0();
    FourScoreWords1();
    FourScoreWords2();
    HashOfBlocks(0, FOUR_SCORE);
    StartIs(30, 0);
    ThreeBlocks(Start(30, 0), FOUR_SCORE);
    FourScore0Mix1();
    FourScore0Mix2();
    FourScore0Final();
  }

  lemma FourScore1Mix1A()
    ensures Minus(0x51232e54, 0x3fce2480) == 0x115509d4 && Rot(0x3fce2480, 4) == 0xfce24803
    ensures Xor(0x115509d4, 0xfce24803) == 0xedb741d7
    ensures Minus(0x4e11322e, 0xedb741d7) == 0x6059f057 && Rot(0xedb741d7, 6) == 0x6dd075fb
    ensures Xor(0x6059f057, 0x6dd075fb) == 0x0d8985ac
    ensures Minus(0x8ddf56ae, 0x0d8985ac) == 0x8055d102 && Rot(0x0d8985ac, 8) == 0x8985ac0d
    ensures Xor(0x8055d102, 0x8985ac0d) == 0x09d07d0f
  {
  }

  lemma FourScore1Mix1B()
    ensures Minus(0x7b969885, 0x09d07d0f) == 0x71c61b76 && Rot(0x09d07d0f, 16) == 0x7d0f09d0
    ensures Xor(0x71c61b76, 0x7d0f09d0) == 0x0cc912a6
    ensures Minus(0x89201e31, 0x0cc912a6) == 0x7c570b8b && Rot(0x0cc912a6, 19) == 0x95306648
    ensures Xor(0x7c570b8b, 0x95306648) == 0xe9676dc3
    ensures Minus(0x92f09b40, 0xe9676dc3) == 0xa9892d7d && Rot(0xe9676dc3, 4) == 0x9676dc3e
    ensures Xor(0xa9892d7d, 0x9676dc3e) == 0x3ffff143
  {
  }

  lemma FourScore1Mix1()
    ensures Mix(Abc(0x51232e54, 0x4e11322e, 0x3fce2480)) == Abc(0x9fb9ade6, 0x89211ba9, 0x3ffff143)
  {
    hide Minus, Rot, Xor;
    FourScore1Mix1A();
    FourScore1Mix1B();
  }

  lemma FourScore1Mix2A()
    ensures Minus(0x12da1254, 0xa1656a63) == 0x7174a7f1 && Rot(0xa1656a63, 4) == 0x1656a63a
    ensures Xor(0x7174a7f1, 0x1656a63a) == 0x672201cb
    ensures Minus(0xf786920e, 0x672201cb) == 0x90649043 && Rot(0x672201cb, 6) == 0xc88072d9
    ensures Xor(0x90649043, 0xc88072d9) == 0x58e4e29a
    ensures Minus(0x98ebfc71, 0x58e4e29a) == 0x400719d7 && Rot(0x58e4e29a, 8) == 0xe4e29a58
    ensures Xor(0x400719d7, 0xe4e29a58) == 0xa4e5838f
  {
  }

  lemma FourScore1Mix2B()
    ensures Minus(0x000dfe3c, 0xa4e5838f) == 0x5b287aad && Rot(0xa4e5838f, 16) == 0x838fa4e5
    ensures Xor(0x5b287aad, 0x838fa4e5) == 0xd8a7de48
    ensures Minus(0x58f2e0d6, 0xd8a7de48) == 0x804b028e && Rot(0xd8a7de48, 19) == 0xf246c53e
    ensures Xor(0x804b028e, 0xf246c53e) == 0x720dc7b0
    ensures Minus(0xfdd86465, 0x720dc7b0) == 0x8bca9cb5 && Rot(0x720dc7b0, 4) == 0x20dc7b07
    ensures Xor(0x8bca9cb5, 0x20dc7b07) == 0xab16e7b2
  {
  }

  lemma FourScore1Mix2()
    ensures Mix(Abc(0x12da1254, 0xf786920e, 0xa1656a63)) == Abc(0xd68042ad, 0x488e0a5d, 0xab16e7b2)
  {
    hide Minus, Rot, Xor;
    FourScore1Mix2A();
    FourScore1Mix2B();
  }

  lemma FourScore1FinalA()
    ensures FinalLine(0xab16e7b2, 0x488e79c4, 14) == 0x45278c53
    ensures FinalLine(0x37a0b61f, 0x45278c53, 11) == 0x3624a023
    ensures FinalLine(0x488e79c4, 0x3624a023, 25) == 0x383e90a7
    ensures FinalLine(0x45278c53, 0x383e90a7, 16) == 0xec71e4b6
  {
  }

  lemma FourScore1FinalB()
    ensures FinalLine(0x3624a023, 0xec71e4b6, 4) == 0x1336f927
    ensures FinalLine(0x383e90a7, 0x1336f927, 14) == 0x6cbea4b3
    ensures FinalLine(0xec71e4b6, 0x6cbea4b3, 24) == 0xcd628161
  {
  }

  lemma FourScore1Final()
    ensures Final(Abc(0x37a0b61f, 0x488e79c4, 0xab16e7b2)) == Abc(0x1336f927, 0x6cbea4b3, 0xcd628161)
  {
    hide FinalLine;
    FourScore1FinalA();
    FourScore1FinalB();
  }

  /** The published answer for the initial value 1. */
  lemma FourScore1()
    ensures HashFrom(1, FOUR_SCORE) == 0xcd628161
  {
    hide Mix, Final, KeyWord, Start, Blocks, HashFrom;
    FourScoreWords0();
    FourScoreWords1();
    FourScoreWords2();
    HashOfBlocks(1, FOUR_SCORE);
    StartIs(30, 1);
    ThreeBlocks(Start(30, 1), FOUR_SCORE);
    FourScore1Mix1();
    FourScore1Mix2();
    FourScore1Final();
  }

  lemma AbcFinalA()
    ensures FinalLine(0xdeadbeff, 0xdeadbeff, 14) == 0x90400855
    ensures FinalLine(0xdf112160, 0x90400855, 11) == 0x4f0e7cb3
    ensures FinalLine(0xdeadbeff, 0x4f0e7cb3, 25) == 0x2b05a553
    ensures FinalLine(0x90400855, 0x2b05a553, 16) == 0x15f28201
  {
  }

  lemma AbcFinalB()
    ensures FinalLine(0x4f0e7cb3, 0x15f28201, 4) == 0xfbd4dea1
    ensures FinalLine(0x2b05a553, 0xfbd4dea1, 14) == 0x9928fcfd
    ensures FinalLine(0x15f28201, 0x9928fcfd, 24) == 0x8f415600
  {
  }

  lemma AbcFinal()
    ensures Final(Abc(0xdf112160, 0xdeadbeff, 0xdeadbeff)) == Abc(0xfbd4dea1, 0x9928fcfd, 0x8f415600)
  {
    hide FinalLine;
    AbcFinalA();
    AbcFinalB();
  }

  const ABC: seq<Byte> := [0x61, 0x62, 0x63]

  lemma LeWords()
    ensures LeWord(0x61, 0x62, 0x63, 0) == 0x00636261 && LeWord(0, 0, 0, 0) == 0
  {
  }

  lemma AbcWords()
    ensures KeyWord(ABC, 0) == 0x00636261
    ensures KeyWord(ABC, 4) == 0
    ensures KeyWord(ABC, 8) == 0
  {
    hide At, LeWord;
    LeWords();
    AtInside(ABC, 0); AtInside(ABC, 1); AtInside(ABC, 2); AtInside(ABC, 3);
    AtInside(ABC, 4); AtInside(ABC, 5); AtInside(ABC, 6); AtInside(ABC, 7);
    AtInside(ABC, 8); AtInside(ABC, 9); AtInside(ABC, 10); AtInside(ABC, 11);
  }

  lemma OneBlock(s: Abc, key: seq<Byte>)
    requires |key| <= 12
    ensures Blocks(s, key) == Block(s, key)
  {
  }

  /** hash_jenkins of "abc". */
  lemma Answer()
    ensures Hash(ABC) == 0x8f415600
  {
    hide Mix, Final, Start, Blocks, HashFrom, KeyWord;
    HashOfBlocks(INITVAL, ABC);
    StartIs(3, INITVAL);
    OneBlock(Start(3, INITVAL), ABC);
    AbcWords();
    AbcFinal();
  }

  /** And of the empty key. */
  lemma EmptyAnswer()
    ensures Hash([]) == 0xdeadbefc
  {
    hide Final, Start, Blocks;
    StartIs(0, INITVAL);
  }
}
