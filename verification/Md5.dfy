/** The streaming MD5 of src/hashkit/nc_md5.c, proved against RFC 1321. */
module Md5 {
  import opened Rfc1321

  // ---- the macros ----

  // F and G are written without the and-not of their definitions.
  function FMacro(x: Word, y: Word, z: Word): Word { z ^ (x & (y ^ z)) }
  function GMacro(x: Word, y: Word, z: Word): Word { y ^ (z & (x ^ y)) }
  function HMacro(x: Word, y: Word, z: Word): Word { x ^ y ^ z }
  function IMacro(x: Word, y: Word, z: Word): Word { y ^ (x | !z) }

  datatype Macro = MF | MG | MH | MI

  function Apply(f: Macro, x: Word, y: Word, z: Word): Word
  {
    match f
    case MF => FMacro(x, y, z)
    case MG => GMacro(x, y, z)
    case MH => HMacro(x, y, z)
    case MI => IMacro(x, y, z)
  }

  function Gain(a: Word, f: Word, x: Word, t: Word): Word { a + (f + x + t) }

  function Rotate(a: Word, s: nat): Word
    requires 0 < s < 32
  {
    (a << s) | ((a & 0xffffffff) >> (32 - s))
  }

  /** STEP: a += f(b, c, d) + x + t, then a is rotated by s, then a += b. */
  function Step(f: Macro, a: Word, b: Word, c: Word, d: Word, x: Word, t: Word, s: nat): Word
    requires 0 < s < 32
  {
    Plus(Rotate(Gain(a, Apply(f, b, c, d), x, t), s), b)
  }

  /** Four steps, on a, d, c and b in turn. */
  function Quad(f: Macro, s: State, x0: Word, x1: Word, x2: Word, x3: Word,
                t0: Word, t1: Word, t2: Word, t3: Word, s0: nat, s1: nat, s2: nat, s3: nat): State
    requires 0 < s0 < 32 && 0 < s1 < 32 && 0 < s2 < 32 && 0 < s3 < 32
  {
    var a := Step(f, s.a, s.b, s.c, s.d, x0, t0, s0);
    var d := Step(f, s.d, a, s.b, s.c, x1, t1, s1);
    var c := Step(f, s.c, d, a, s.b, x2, t2, s2);
    var b := Step(f, s.b, c, d, a, x3, t3, s3);
    State(a, b, c, d)
  }

  /** Lines 109-124, four at a time. */
  function Row1(k: nat, s: State, x: seq<Word>): State
    requires |x| == 16
  {
    match k
    case 0 => Quad(MF, s, x[0], x[1], x[2], x[3],
              0xd76aa478, 0xe8c7b756, 0x242070db, 0xc1bdceee, 7, 12, 17, 22)
    case 1 => Quad(MF, s, x[4], x[5], x[6], x[7],
              0xf57c0faf, 0x4787c62a, 0xa8304613, 0xfd469501, 7, 12, 17, 22)
    case 2 => Quad(MF, s, x[8], x[9], x[10], x[11],
              0x698098d8, 0x8b44f7af, 0xffff5bb1, 0x895cd7be, 7, 12, 17, 22)
    case _ => Quad(MF, s, x[12], x[13], x[14], x[15],
              0x6b901122, 0xfd987193, 0xa679438e, 0x49b40821, 7, 12, 17, 22)
  }

  /** Lines 127-142, four at a time. */
  function Row2(k: nat, s: State, x: seq<Word>): State
    requires |x| == 16
  {
    match k
    case 0 => Quad(MG, s, x[1], x[6], x[11], x[0],
              0xf61e2562, 0xc040b340, 0x265e5a51, 0xe9b6c7aa, 5, 9, 14, 20)
    case 1 => Quad(MG, s, x[5], x[10], x[15], x[4],
              0xd62f105d, 0x02441453, 0xd8a1e681, 0xe7d3fbc8, 5, 9, 14, 20)
    case 2 => Quad(MG, s, x[9], x[14], x[3], x[8],
              0x21e1cde6, 0xc33707d6, 0xf4d50d87, 0x455a14ed, 5, 9, 14, 20)
    case _ => Quad(MG, s, x[13], x[2], x[7], x[12],
              0xa9e3e905, 0xfcefa3f8, 0x676f02d9, 0x8d2a4c8a, 5, 9, 14, 20)
  }

  /** Lines 145-160, four at a time. */
  function Row3(k: nat, s: State, x: seq<Word>): State
    requires |x| == 16
  {
    match k
    case 0 => Quad(MH, s, x[5], x[8], x[11], x[14],
              0xfffa3942, 0x8771f681, 0x6d9d6122, 0xfde5380c, 4, 11, 16, 23)
    case 1 => Quad(MH, s, x[1], x[4], x[7], x[10],
              0xa4beea44, 0x4bdecfa9, 0xf6bb4b60, 0xbebfbc70, 4, 11, 16, 23)
    case 2 => Quad(MH, s, x[13], x[0], x[3], x[6],
              0x289b7ec6, 0xeaa127fa, 0xd4ef3085, 0x04881d05, 4, 11, 16, 23)
    case _ => Quad(MH, s, x[9], x[12], x[15], x[2],
              0xd9d4d039, 0xe6db99e5, 0x1fa27cf8, 0xc4ac5665, 4, 11, 16, 23)
  }

  /** Lines 163-178, four at a time. */
  function Row4(k: nat, s: State, x: seq<Word>): State
    requires |x| == 16
  {
    match k
    case 0 => Quad(MI, s, x[0], x[7], x[14], x[5],
              0xf4292244, 0x432aff97, 0xab9423a7, 0xfc93a039, 6, 10, 15, 21)
    case 1 => Quad(MI, s, x[12], x[3], x[10], x[1],
              0x655b59c3, 0x8f0ccc92, 0xffeff47d, 0x85845dd1, 6, 10, 15, 21)
    case 2 => Quad(MI, s, x[8], x[15], x[6], x[13],
              0x6fa87e4f, 0xfe2ce6e0, 0xa3014314, 0x4e0811a1, 6, 10, 15, 21)
    case _ => Quad(MI, s, x[4], x[11], x[2], x[9],
              0xf7537e82, 0xbd3af235, 0x2ad7d2bb, 0xeb86d391, 6, 10, 15, 21)
  }

  // ---- the macros against section 3.4 ----

  lemma FBits(x: Word, y: Word, z: Word)
    ensures z ^ (x & (y ^ z)) == (x & y) | (!x & z)
  {
  }

  lemma GBits(x: Word, y: Word, z: Word)
    ensures y ^ (z & (x ^ y)) == (x & z) | (y & !z)
  {
  }

  lemma FMacroIsF(x: Word, y: Word, z: Word)
    ensures FMacro(x, y, z) == F(x, y, z)
  {
    FBits(x, y, z);
  }

  lemma GMacroIsG(x: Word, y: Word, z: Word)
    ensures GMacro(x, y, z) == G(x, y, z)
  {
    GBits(x, y, z);
  }

  lemma HMacroIsH(x: Word, y: Word, z: Word)
    ensures HMacro(x, y, z) == H(x, y, z) && IMacro(x, y, z) == I(x, y, z)
  {
  }

  function MacroOf(i: nat): Macro
  {
    if i < 16 then MF else if i < 32 then MG else if i < 48 then MH else MI
  }

  lemma ApplyIsAux(i: nat, x: Word, y: Word, z: Word)
    ensures Apply(MacroOf(i), x, y, z) == Aux(i, x, y, z)
  {
    hide FMacro, GMacro, HMacro, IMacro, F, G, H, I;
    FMacroIsF(x, y, z);
    GMacroIsG(x, y, z);
    HMacroIsH(x, y, z);
  }

  lemma SumBits(a: Word, f: Word, x: Word, t: Word)
    ensures a + (f + x + t) == a + f + x + t
  {
  }

  lemma GainIsTotal(a: Word, f: Word, x: Word, t: Word)
    ensures Gain(a, f, x, t) == Total(a, f, x, t)
  {
    SumBits(a, f, x, t);
  }

  lemma PlusCommutes(x: Word, y: Word)
    ensures Plus(x, y) == Plus(y, x)
  {
  }

  lemma RotateIsRotateLeft(a: Word, s: nat)
    requires 0 < s < 32
    ensures Rotate(a, s) == RotateLeft(a, s)
  {
  }

  lemma StepIsOperation(s: State, x: seq<Word>, i: nat)
    requires |x| == 16
    ensures Step(MacroOf(i), s.a, s.b, s.c, s.d, x[Index(i)], Sine(i), Shift(i)) == Operation(s, x, i).b
  {
    hide Apply, Aux, Sine, Shift, Index, Rotate, RotateLeft, Gain, Total, Plus;
    var f, xi, t := Aux(i, s.b, s.c, s.d), x[Index(i)], Sine(i);
    ApplyIsAux(i, s.b, s.c, s.d);
    GainIsTotal(s.a, f, xi, t);
    RotateIsRotateLeft(Total(s.a, f, xi, t), Shift(i));
    PlusCommutes(RotateLeft(Total(s.a, f, xi, t), Shift(i)), s.b);
  }

  lemma QuadIsOperations(s: State, x: seq<Word>, i: nat)
    requires |x| == 16 && i % 4 == 0
    ensures Quad(MacroOf(i), s, x[Index(i)], x[Index(i + 1)], x[Index(i + 2)], x[Index(i + 3)],
                 Sine(i), Sine(i + 1), Sine(i + 2), Sine(i + 3), Shift(i), Shift(i + 1), Shift(i + 2), Shift(i + 3))
         == Operation(Operation(Operation(Operation(s, x, i), x, i + 1), x, i + 2), x, i + 3)
  {
    hide Step, Aux, Sine, Shift, Index, RotateLeft, Total, Plus;
    var s1 := Operation(s, x, i);
    var s2 := Operation(s1, x, i + 1);
    var s3 := Operation(s2, x, i + 2);
    StepIsOperation(s, x, i);
    StepIsOperation(s1, x, i + 1);
    StepIsOperation(s2, x, i + 2);
    StepIsOperation(s3, x, i + 3);
  }

  lemma FourOperations(s: State, x: seq<Word>, i: nat)
    requires |x| == 16 && i % 4 == 0
    ensures Operations(s, x, i + 4)
         == Quad(MacroOf(i), Operations(s, x, i), x[Index(i)], x[Index(i + 1)], x[Index(i + 2)], x[Index(i + 3)],
                 Sine(i), Sine(i + 1), Sine(i + 2), Sine(i + 3), Shift(i), Shift(i + 1), Shift(i + 2), Shift(i + 3))
  {
    hide Quad, Operation, Sine, Shift, Index;
    QuadIsOperations(Operations(s, x, i), x, i);
    assert Operations(s, x, i + 1) == Operation(Operations(s, x, i), x, i);
    assert Operations(s, x, i + 2) == Operation(Operations(s, x, i + 1), x, i + 1);
    assert Operations(s, x, i + 3) == Operation(Operations(s, x, i + 2), x, i + 2);
  }

  lemma Row1Low(k: nat, s: State, x: seq<Word>)
    requires |x| == 16 && k < 2
    ensures Row1(k, Operations(s, x, 4 * k), x) == Operations(s, x, 4 * k + 4)
  {
    hide Quad, Operations;
    if k == 0 {
      FourOperations(s, x, 0);
    } else {
      FourOperations(s, x, 4);
    }
  }

  lemma Row1High(k: nat, s: State, x: seq<Word>)
    requires |x| == 16 && 2 <= k < 4
    ensures Row1(k, Operations(s, x, 4 * k), x) == Operations(s, x, 4 * k + 4)
  {
    hide Quad, Operations;
    if k == 2 {
      FourOperations(s, x, 8);
    } else {
      FourOperations(s, x, 12);
    }
  }

  lemma Row1All(s: State, x: seq<Word>)
    requires |x| == 16
    ensures Row1(3, Row1(2, Row1(1, Row1(0, Operations(s, x, 0), x), x), x), x) == Operations(s, x, 16)
  {
    hide *;
    Row1Low(0, s, x);
    Row1Low(1, s, x);
    Row1High(2, s, x);
    Row1High(3, s, x);
  }

  lemma Row2Low(k: nat, s: State, x: seq<Word>)
    requires |x| == 16 && k < 2
    ensures Row2(k, Operations(s, x, 16 + 4 * k), x) == Operations(s, x, 16 + 4 * k + 4)
  {
    hide Quad, Operations;
    if k == 0 {
      FourOperations(s, x, 16);
    } else {
      FourOperations(s, x, 20);
    }
  }

  lemma Row2High(k: nat, s: State, x: seq<Word>)
    requires |x| == 16 && 2 <= k < 4
    ensures Row2(k, Operations(s, x, 16 + 4 * k), x) == Operations(s, x, 16 + 4 * k + 4)
  {
    hide Quad, Operations;
    if k == 2 {
      FourOperations(s, x, 24);
    } else {
      FourOperations(s, x, 28);
    }
  }

  lemma Row2All(s: State, x: seq<Word>)
    requires |x| == 16
    ensures Row2(3, Row2(2, Row2(1, Row2(0, Operations(s, x, 16), x), x), x), x) == Operations(s, x, 32)
  {
    hide *;
    Row2Low(0, s, x);
    Row2Low(1, s, x);
    Row2High(2, s, x);
    Row2High(3, s, x);
  }

  lemma Row3Low(k: nat, s: State, x: seq<Word>)
    requires |x| == 16 && k < 2
    ensures Row3(k, Operations(s, x, 32 + 4 * k), x) == Operations(s, x, 32 + 4 * k + 4)
  {
    hide Quad, Operations;
    if k == 0 {
      FourOperations(s, x, 32);
    } else {
      FourOperations(s, x, 36);
    }
  }

  lemma Row3High(k: nat, s: State, x: seq<Word>)
    requires |x| == 16 && 2 <= k < 4
    ensures Row3(k, Operations(s, x, 32 + 4 * k), x) == Operations(s, x, 32 + 4 * k + 4)
  {
    hide Quad, Operations;
    if k == 2 {
      FourOperations(s, x, 40);
    } else {
      FourOperations(s, x, 44);
    }
  }

  lemma Row3All(s: State, x: seq<Word>)
    requires |x| == 16
    ensures Row3(3, Row3(2, Row3(1, Row3(0, Operations(s, x, 32), x), x), x), x) == Operations(s, x, 48)
  {
    hide *;
    Row3Low(0, s, x);
    Row3Low(1, s, x);
    Row3High(2, s, x);
    Row3High(3, s, x);
  }

  lemma Row4Low(k: nat, s: State, x: seq<Word>)
    requires |x| == 16 && k < 2
    ensures Row4(k, Operations(s, x, 48 + 4 * k), x) == Operations(s, x, 48 + 4 * k + 4)
  {
    hide Quad, Operations;
    if k == 0 {
      FourOperations(s, x, 48);
    } else {
      FourOperations(s, x, 52);
    }
  }

  lemma Row4High(k: nat, s: State, x: seq<Word>)
    requires |x| == 16 && 2 <= k < 4
    ensures Row4(k, Operations(s, x, 48 + 4 * k), x) == Operations(s, x, 48 + 4 * k + 4)
  {
    hide Quad, Operations;
    if k == 2 {
      FourOperations(s, x, 56);
    } else {
      FourOperations(s, x, 60);
    }
  }

  lemma Row4All(s: State, x: seq<Word>)
    requires |x| == 16
    ensures Row4(3, Row4(2, Row4(1, Row4(0, Operations(s, x, 48), x), x), x), x) == Operations(s, x, 64)
  {
    hide *;
    Row4Low(0, s, x);
    Row4Low(1, s, x);
    Row4High(2, s, x);
    Row4High(3, s, x);
  }

  /** One turn of the loop of body, lines 103-183. */
  function Block(s: State, block: seq<Byte>): State
    requires |block| == 64
  {
    var x := Words(block);
    var r1 := Row1(3, Row1(2, Row1(1, Row1(0, s, x), x), x), x);
    var r2 := Row2(3, Row2(2, Row2(1, Row2(0, r1, x), x), x), x);
    var r3 := Row3(3, Row3(2, Row3(1, Row3(0, r2, x), x), x), x);
    var r4 := Row4(3, Row4(2, Row4(1, Row4(0, r3, x), x), x), x);
    Added(r4, s)
  }

  lemma NoOperations(s: State, x: seq<Word>)
    requires |x| == 16
    ensures Operations(s, x, 0) == s
  {
  }

  /** The unrolled rounds, with the rewritten F and G, are the rounds of section 3.4. */
  lemma BlockIsCompress(s: State, block: seq<Byte>)
    requires |block| == 64
    ensures Block(s, block) == Compress(s, block)
  {
    hide Row1, Row2, Row3, Row4, Operation, Words, Added, Operations;
    var x := Words(block);
    NoOperations(s, x);
    Row1All(s, x);
    Row2All(s, x);
    Row3All(s, x);
    Row4All(s, x);
  }

  // ---- the context ----

  lemma {:induction false} CompressAllAppend(s: State, x: seq<Byte>, y: seq<Byte>)
    requires |x| % 64 == 0
    ensures CompressAll(s, x + y) == CompressAll(CompressAll(s, x), y)
    decreases |x|
  {
    if x == [] {
      assert x + y == y;
    } else {
      assert (x + y)[..64] == x[..64] && (x + y)[64..] == x[64..] + y;
      CompressAllAppend(Compress(s, x[..64]), x[64..], y);
    }
  }

  lemma WidthDrops(x: nat)
    ensures x % 0x1_0000_0000_0000_0000 % 0x2000_0000 == x % 0x2000_0000
  {
    var k, y := x / 0x1_0000_0000_0000_0000, x % 0x1_0000_0000_0000_0000;
    assert x == (k * 0x8_0000_0000) * 0x2000_0000 + y;
  }

  lemma LowHalves(q: nat, lo: nat, r: nat, t: nat)
    requires lo < 0x2000_0000 && t < 0x2000_0000
    ensures var carry := if lo + t >= 0x2000_0000 then 1 else 0;
      var sum := (q * 0x2000_0000 + lo) + (r * 0x2000_0000 + t);
      && sum / 0x2000_0000 == q + r + carry
      && sum % 0x2000_0000 == lo + t - carry * 0x2000_0000
      && (lo + (r * 0x2000_0000 + t)) % 0x2000_0000 == lo + t - carry * 0x2000_0000
  {
  }

  lemma HighHalves(q: nat, r: nat)
    ensures (q % 0x1_0000_0000 + r) % 0x1_0000_0000 == (q + r) % 0x1_0000_0000
    ensures ((q % 0x1_0000_0000 + 1) % 0x1_0000_0000 + r) % 0x1_0000_0000 == (q + r + 1) % 0x1_0000_0000
  {
    var k, y := q / 0x1_0000_0000, q % 0x1_0000_0000;
    assert q + r == k * 0x1_0000_0000 + (y + r);
  }

  /** The carry test of MD5_Update is right: lo and hi stay the two halves of the byte count. */
  lemma CountCarries(n: nat, size: nat)
    ensures var lo, hi := n % 0x2000_0000, n / 0x2000_0000 % 0x1_0000_0000;
      var lo' := (lo + size) % 0x1_0000_0000_0000_0000 % 0x2000_0000;
      var hi' := if lo' < lo then (hi + 1) % 0x1_0000_0000 else hi;
      && lo' == (n + size) % 0x2000_0000
      && (hi' + size / 0x2000_0000) % 0x1_0000_0000 == (n + size) / 0x2000_0000 % 0x1_0000_0000
  {
    var q, lo := n / 0x2000_0000, n % 0x2000_0000;
    var r, t := size / 0x2000_0000, size % 0x2000_0000;
    WidthDrops(lo + size);
    LowHalves(q, lo, r, t);
    HighHalves(q, r);
  }

  lemma WholeBlocks(k: nat, r: nat)
    ensures (64 * k + r) % 64 == r % 64
  {
  }

  lemma LowBits(n: nat)
    ensures n % 0x2000_0000 % 64 == n % 64
  {
    var q, r := n / 0x2000_0000, n % 0x2000_0000;
    assert n == 64 * (0x80_0000 * q) + r;
    WholeBlocks(0x80_0000 * q, r);
  }

  lemma NothingCompressed(s: State)
    ensures CompressAll(s, []) == s
  {
  }

  /** What padding adds after the pending bytes of the last block. */
  ghost function Tail(pending: seq<Byte>, bits: seq<Byte>): seq<Byte>
    requires |pending| < 64
  {
    pending + [0x80] + Zeros((119 - |pending|) % 64) + bits
  }

  /** lo << 3 and hi are the two words of the bit length. */
  lemma BitLength(n: nat)
    ensures LengthBytes(n) == NatBytes(8 * (n % 0x2000_0000)) + NatBytes(n / 0x2000_0000 % 0x1_0000_0000)
  {
    hide NatBytes;
    var q, r := n / 0x2000_0000, n % 0x2000_0000;
    var k, y := q / 0x1_0000_0000, q % 0x1_0000_0000;
    assert 8 * n == k * 0x1_0000_0000_0000_0000 + (y * 0x1_0000_0000 + 8 * r);
    assert 8 * n % 0x1_0000_0000_0000_0000 == y * 0x1_0000_0000 + 8 * r;
  }

  lemma PadSplits(msg: seq<Byte>, lo: nat, hi: nat)
    requires lo == |msg| % 0x2000_0000 && hi == |msg| / 0x2000_0000 % 0x1_0000_0000
    ensures var n := |msg| - |msg| % 64;
      && Pad(msg) == msg[..n] + Tail(msg[n..], NatBytes(8 * lo) + NatBytes(hi))
      && Digest(msg) == CompressAll(CompressAll(INITIAL, msg[..n]), Tail(msg[n..], NatBytes(8 * lo) + NatBytes(hi)))
  {
    hide Compress, CompressAll, NatBytes, LengthBytes;
    BitLength(|msg|);
    var n := |msg| - |msg| % 64;
    var bits := NatBytes(8 * lo) + NatBytes(hi);
    assert msg == msg[..n] + msg[n..];
    assert Pad(msg) == msg[..n] + Tail(msg[n..], bits);
    CompressAllAppend(INITIAL, msg[..n], Tail(msg[n..], bits));
  }

  /** One block when eight bytes are free after the 0x80, two otherwise. */
  lemma TailBlocks(s: State, pending: seq<Byte>, bits: seq<Byte>)
    requires |pending| < 64 && |bits| == 8
    ensures var free := 63 - |pending|;
      CompressAll(s, Tail(pending, bits)) ==
      if free < 8 then CompressAll(CompressAll(s, pending + [0x80] + Zeros(free)), [] + Zeros(56) + bits)
      else CompressAll(s, pending + [0x80] + Zeros(free - 8) + bits)
  {
    hide Compress, CompressAll;
    var free := 63 - |pending|;
    if free < 8 {
      assert Tail(pending, bits) == (pending + [0x80] + Zeros(free)) + ([] + Zeros(56) + bits);
      CompressAllAppend(s, pending + [0x80] + Zeros(free), [] + Zeros(56) + bits);
    }
  }

  class Context {
    var lo: int
    var hi: int
    var a: Word
    var b: Word
    var c: Word
    var d: Word
    const buffer: array<Byte>

    // Everything that has been added to the message.
    ghost var msg: seq<Byte>

    ghost function Used(): (u: int)
      reads this`msg
      ensures 0 <= u < 64
    {
      |msg| % 64
    }

    // The whole blocks of the message are compressed and the rest of it is in the buffer.
    ghost predicate Synced()
      reads this`a, this`b, this`c, this`d, this`msg, buffer
    {
      && buffer.Length == 64
      && State(a, b, c, d) == CompressAll(INITIAL, msg[..|msg| - Used()])
      && buffer[..Used()] == msg[|msg| - Used()..]
    }

    ghost predicate Valid()
      reads this, buffer
    {
      Synced() && lo == |msg| % 0x2000_0000 && hi == |msg| / 0x2000_0000 % 0x1_0000_0000
    }

    constructor ()
      ensures Valid() && msg == [] && fresh(buffer)
    {
      hide CompressAll;
      a, b, c, d := INITIAL.a, INITIAL.b, INITIAL.c, INITIAL.d;
      lo, hi := 0, 0;
      buffer := new Byte[64];
      msg := [];
      new;
      NothingCompressed(INITIAL);
      assert msg[..|msg| - Used()] == [];
    }

    method Body(data: seq<Byte>)
      requires |data| % 64 == 0 && |data| > 0
      modifies this`a, this`b, this`c, this`d
      ensures State(a, b, c, d) == old(CompressAll(State(a, b, c, d), data))
    {
      hide Block, Compress;
      var s := State(a, b, c, d);
      var ptr, size := 0, |data|;
      ghost var start := s;
      assert data[0..] == data;
      while size != 0
        invariant ptr + size == |data| && 0 <= ptr && 0 <= size && ptr % 64 == 0
        invariant CompressAll(s, data[ptr..]) == CompressAll(start, data)
        decreases size
      {
        BlockIsCompress(s, data[ptr..ptr + 64]);
        assert data[ptr..][..64] == data[ptr..ptr + 64] && data[ptr..][64..] == data[ptr + 64..];
        s := Block(s, data[ptr..ptr + 64]);
        ptr := ptr + 64;
        size := size - 64;
      }
      assert data[ptr..] == [];
      a, b, c, d := s.a, s.b, s.c, s.d;
    }

    // Lines 214-218: the byte count, 29 bits in lo and 32 more in hi.
    method Count(size: int)
      requires lo == |msg| % 0x2000_0000 && hi == |msg| / 0x2000_0000 % 0x1_0000_0000
      requires 0 <= size < 0x1_0000_0000_0000_0000
      modifies this`lo, this`hi
      ensures lo == (|msg| + size) % 0x2000_0000 && hi == (|msg| + size) / 0x2000_0000 % 0x1_0000_0000
    {
      var savedLo := lo;
      lo := (savedLo + size) % 0x1_0000_0000_0000_0000 % 0x2000_0000;
      if lo < savedLo {
        hi := (hi + 1) % 0x1_0000_0000;
      }
      hi := (hi + size / 0x2000_0000) % 0x1_0000_0000;
      CountCarries(|msg|, size);
    }

    // memcpy(&buffer[used], data, size)
    method Copy(used: int, data: seq<Byte>)
      requires 0 <= used && used + |data| <= buffer.Length
      modifies buffer
      ensures buffer[..used + |data|] == old(buffer[..used]) + data
    {
      forall i | 0 <= i < |data| {
        buffer[used + i] := data[i];
      }
    }

    // Less than what the buffer has free is only copied.
    method Keep(used: int, data: seq<Byte>)
      requires Synced() && used == Used() && used + |data| < 64
      modifies buffer, this`msg
      ensures Synced() && msg == old(msg) + data
    {
      hide Compress;
      ghost var n := |msg| - used;
      Copy(used, data);
      msg := msg + data;
      assert msg[..n] == old(msg)[..n] && msg[n..] == old(msg)[n..] + data;
    }

    // As much as the buffer has free completes a block.
    method Complete(used: int, data: seq<Byte>)
      requires Synced() && used == Used() && used + |data| == 64
      modifies buffer, this`msg, this`a, this`b, this`c, this`d
      ensures Synced() && msg == old(msg) + data && Used() == 0
    {
      hide Compress;
      ghost var n := |msg| - used;
      Copy(used, data);
      assert buffer[..] == buffer[..64];
      CompressAllAppend(INITIAL, msg[..n], buffer[..]);
      Body(buffer[..]);
      assert msg[..n] + (msg[n..] + data) == msg + data;
      msg := msg + data;
      assert msg[..|msg|] == msg;
    }

    // Whole blocks are compressed where they are.
    method Blocks(data: seq<Byte>)
      requires Synced() && Used() == 0 && |data| % 64 == 0 && |data| > 0
      modifies this`msg, this`a, this`b, this`c, this`d
      ensures Synced() && msg == old(msg) + data && Used() == 0
    {
      hide Compress;
      assert msg[..|msg|] == msg;
      CompressAllAppend(INITIAL, msg, data);
      Body(data);
      msg := msg + data;
      assert msg[..|msg|] == msg;
    }

    // Lines 222-241: the data behind what is in the buffer, block by block.
    method Absorb(used: int, data: seq<Byte>)
      requires Synced() && used == Used()
      modifies this`msg, this`a, this`b, this`c, this`d, buffer
      ensures Synced() && msg == old(msg) + data
    {
      hide CompressAll, Compress;
      var rest := data;
      if used != 0 {
        var free := 64 - used;
        if |rest| < free {
          Keep(used, rest);
          return;
        }
        Complete(used, rest[..free]);
        rest := rest[free..];
      }
      assert old(msg) + data == msg + rest;
      if |rest| >= 64 {
        var whole := |rest| - |rest| % 64;
        Blocks(rest[..whole]);
        rest := rest[whole..];
      }
      assert old(msg) + data == msg + rest;
      Keep(0, rest);
    }

    method Update(data: seq<Byte>)
      requires Valid() && |data| < 0x1_0000_0000_0000_0000
      modifies this, buffer
      ensures Valid() && msg == old(msg) + data
    {
      hide CompressAll;
      var used := lo % 64;
      LowBits(|msg|);
      Count(|data|);
      Absorb(used, data);
    }

    // Four stores of a counter's bytes, lines 265-268 and 269-272.
    method PutWord(at: int, n: nat)
      requires buffer.Length == 64 && 0 <= at <= 60
      modifies buffer
      ensures buffer[..at] == old(buffer[..at]) && buffer[at..at + 4] == NatBytes(n)
    {
      buffer[at] := (n % 0x100) as Byte;
      buffer[at + 1] := (n / 0x100 % 0x100) as Byte;
      buffer[at + 2] := (n / 0x1_0000 % 0x100) as Byte;
      buffer[at + 3] := (n / 0x100_0000 % 0x100) as Byte;
    }

    // memset(&buffer[used], 0, n)
    method Clear(used: int, n: int)
      requires 0 <= used && 0 <= n && used + n <= buffer.Length
      modifies buffer
      ensures buffer[..used + n] == old(buffer[..used]) + Zeros(n)
    {
      forall i | used <= i < used + n {
        buffer[i] := 0;
      }
    }

    // Lines 262-272: zeros up to the last eight bytes, and the length in those.
    method Seal(used: int, low: nat)
      requires buffer.Length == 64 && 0 <= used <= 56 && hi >= 0
      modifies buffer
      ensures buffer[..] == old(buffer[..used]) + Zeros(56 - used) + (NatBytes(low) + NatBytes(hi))
    {
      hide NatBytes;
      Clear(used, 56 - used);
      PutWord(56, low);
      PutWord(60, hi);
      assert buffer[..] == buffer[..56] + (buffer[56..60] + buffer[60..64]);
      assert buffer[..56] == buffer[..60][..56];
      assert buffer[56..60] == buffer[..60][56..60];
    }

    // Lines 251-274: what is in the buffer, padded, goes through body as one block or as two.
    method Finish(start: int)
      requires buffer.Length == 64 && 0 <= start < 64 && 0 <= lo < 0x2000_0000 && hi >= 0
      modifies this`a, this`b, this`c, this`d, this`lo, buffer
      ensures State(a, b, c, d) ==
              old(CompressAll(State(a, b, c, d), Tail(buffer[..start], NatBytes(8 * lo) + NatBytes(hi))))
    {
      hide Compress, CompressAll, NatBytes, Tail;
      ghost var pending, bits := buffer[..start], NatBytes(8 * lo) + NatBytes(hi);
      TailBlocks(State(a, b, c, d), pending, bits);
      var used := start;
      buffer[used] := 0x80;
      used := used + 1;
      assert buffer[..used] == pending + [0x80];
      var free := 64 - used;
      if free < 8 {
        Clear(used, free);
        assert buffer[..] == buffer[..64];
        Body(buffer[..]);
        used := 0;
        free := 64;
        assert buffer[..used] == [];
      }
      lo := 8 * lo % 0x1_0000_0000;
      Seal(used, lo);
      Body(buffer[..]);
    }

    method Final() returns (result: seq<Byte>)
      requires Valid()
      modifies this, buffer
      ensures result == StateBytes(Digest(old(msg)))
      ensures lo == 0 && hi == 0 && State(a, b, c, d) == State(0, 0, 0, 0) && buffer[..] == Zeros(64)
    {
      hide CompressAll, NatBytes, Digest, Tail, Pad, WordBytes;
      LowBits(|msg|);
      PadSplits(msg, lo, hi);
      Finish(lo % 64);
      result := WordBytes(a) + WordBytes(b) + WordBytes(c) + WordBytes(d);
      lo, hi := 0, 0;
      a, b, c, d := 0, 0, 0, 0;
      Clear(0, 64);
      assert buffer[..] == buffer[..64];
    }
  }

  /** However the message was cut into updates, the context comes out the same: the counters, the
      chaining state and the part of the buffer in use. */
  lemma ChunkingIndependent(x: Context, y: Context)
    requires x.Valid() && y.Valid() && x.msg == y.msg
    ensures x.lo == y.lo && x.hi == y.hi
    ensures State(x.a, x.b, x.c, x.d) == State(y.a, y.b, y.c, y.d)
    ensures x.buffer[..x.Used()] == y.buffer[..y.Used()]
  {
    hide CompressAll;
  }

  function Joined(chunks: seq<seq<Byte>>): (m: seq<Byte>)
    ensures forall i :: 0 <= i < |chunks| ==> |chunks[i]| <= |m|
  {
    if chunks == [] then [] else Joined(chunks[..|chunks| - 1]) + chunks[|chunks| - 1]
  }

  /** One update for each chunk, empty ones included, against one update with all of them. */
  method ChunkByChunk(chunks: seq<seq<Byte>>) returns (x: Context, y: Context)
    requires |Joined(chunks)| < 0x1_0000_0000_0000_0000
    ensures x.Valid() && y.Valid() && x.msg == y.msg == Joined(chunks)
    ensures x.lo == y.lo && x.hi == y.hi && State(x.a, x.b, x.c, x.d) == State(y.a, y.b, y.c, y.d)
    ensures x.buffer[..x.Used()] == y.buffer[..y.Used()]
  {
    hide Context.Synced;
    x := new Context();
    y := new Context();
    y.Update(Joined(chunks));
    assert y.msg == [] + Joined(chunks) == Joined(chunks);
    for i := 0 to |chunks|
      invariant x.Valid() && x.msg == Joined(chunks[..i])
      invariant fresh(x) && fresh(x.buffer) && x != y && x.buffer != y.buffer
      invariant y.Valid() && y.msg == Joined(chunks)
    {
      assert chunks[..i + 1][..i] == chunks[..i];
      x.Update(chunks[i]);
    }
    assert chunks[..|chunks|] == chunks;
    ChunkingIndependent(x, y);
  }

  method Signature(key: seq<Byte>) returns (result: seq<Byte>)
    requires |key| < 0x1_0000_0000_0000_0000
    ensures result == StateBytes(Digest(key))
  {
    hide Digest, StateBytes;
    var ctx := new Context();
    ctx.Update(key);
    assert [] + key == key;
    result := ctx.Final();
  }

  lemma BytesBack(w: Word)
    ensures ((w & 0xff) | (((w >> 8) & 0xff) << 8) | (((w >> 16) & 0xff) << 16) | (((w >> 24) & 0xff) << 24)) == w
  {
  }

  /** The four low bytes of the digest, put back together. */
  method HashMd5(key: seq<Byte>) returns (hash: Word)
    requires |key| < 0x1_0000_0000_0000_0000
    ensures hash == Digest(key).a
  {
    hide Digest;
    var results := Signature(key);
    hash := ToWord(results[0], results[1], results[2], results[3]);
    ghost var w := Digest(key).a;
    BytesBack(w);
  }
}
