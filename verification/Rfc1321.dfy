/** The MD5 message digest as RFC 1321 describes it, for messages of whole bytes. */
module Rfc1321 {

  type Byte = bv8
  type Word = bv32

  datatype State = State(a: Word, b: Word, c: Word, d: Word)

  // Section 3.3: the initial value of the MD buffer.
  const INITIAL := State(0x67452301, 0xefcdab89, 0x98badcfe, 0x10325476)

  // ---- section 3.4 ----

  function F(x: Word, y: Word, z: Word): Word { (x & y) | (!x & z) }
  function G(x: Word, y: Word, z: Word): Word { (x & z) | (y & !z) }
  function H(x: Word, y: Word, z: Word): Word { x ^ y ^ z }
  function I(x: Word, y: Word, z: Word): Word { y ^ (x | !z) }

  /** The auxiliary function of operation i, counted from 0 over all four rounds. */
  function Aux(i: nat, x: Word, y: Word, z: Word): Word
  {
    if i < 16 then F(x, y, z) else if i < 32 then G(x, y, z) else if i < 48 then H(x, y, z) else I(x, y, z)
  }

  /** The message word that operation i adds. */
  function Index(i: nat): (k: nat)
    ensures k < 16
  {
    if i < 16 then i else if i < 32 then (5 * i + 1) % 16 else if i < 48 then (3 * i + 5) % 16 else (7 * i) % 16
  }

  function Nth(k: nat, s0: nat, s1: nat, s2: nat, s3: nat): nat
  {
    if k == 0 then s0 else if k == 1 then s1 else if k == 2 then s2 else s3
  }

  /** The amount that operation i rotates by. */
  function Shift(i: nat): (s: nat)
    ensures 0 < s < 32
  {
    if i < 16 then Nth(i % 4, 7, 12, 17, 22)
    else if i < 32 then Nth(i % 4, 5, 9, 14, 20)
    else if i < 48 then Nth(i % 4, 4, 11, 16, 23)
    else Nth(i % 4, 6, 10, 15, 21)
  }

  function Sine1(i: nat): Word
  {
    match i
    case 0 => 0xd76aa478 case 1 => 0xe8c7b756 case 2 => 0x242070db case 3 => 0xc1bdceee
    case 4 => 0xf57c0faf case 5 => 0x4787c62a case 6 => 0xa8304613 case 7 => 0xfd469501
    case 8 => 0x698098d8 case 9 => 0x8b44f7af case 10 => 0xffff5bb1 case 11 => 0x895cd7be
    case 12 => 0x6b901122 case 13 => 0xfd987193 case 14 => 0xa679438e case _ => 0x49b40821
  }

  function Sine2(i: nat): Word
  {
    match i
    case 0 => 0xf61e2562 case 1 => 0xc040b340 case 2 => 0x265e5a51 case 3 => 0xe9b6c7aa
    case 4 => 0xd62f105d case 5 => 0x02441453 case 6 => 0xd8a1e681 case 7 => 0xe7d3fbc8
    case 8 => 0x21e1cde6 case 9 => 0xc33707d6 case 10 => 0xf4d50d87 case 11 => 0x455a14ed
    case 12 => 0xa9e3e905 case 13 => 0xfcefa3f8 case 14 => 0x676f02d9 case _ => 0x8d2a4c8a
  }

  function Sine3(i: nat): Word
  {
    match i
    case 0 => 0xfffa3942 case 1 => 0x8771f681 case 2 => 0x6d9d6122 case 3 => 0xfde5380c
    case 4 => 0xa4beea44 case 5 => 0x4bdecfa9 case 6 => 0xf6bb4b60 case 7 => 0xbebfbc70
    case 8 => 0x289b7ec6 case 9 => 0xeaa127fa case 10 => 0xd4ef3085 case 11 => 0x04881d05
    case 12 => 0xd9d4d039 case 13 => 0xe6db99e5 case 14 => 0x1fa27cf8 case _ => 0xc4ac5665
  }

  function Sine4(i: nat): Word
  {
    match i
    case 0 => 0xf4292244 case 1 => 0x432aff97 case 2 => 0xab9423a7 case 3 => 0xfc93a039
    case 4 => 0x655b59c3 case 5 => 0x8f0ccc92 case 6 => 0xffeff47d case 7 => 0x85845dd1
    case 8 => 0x6fa87e4f case 9 => 0xfe2ce6e0 case 10 => 0xa3014314 case 11 => 0x4e0811a1
    case 12 => 0xf7537e82 case 13 => 0xbd3af235 case 14 => 0x2ad7d2bb case _ => 0xeb86d391
  }

  /** T[i + 1], the integer part of 4294967296 times abs(sin(i + 1)). */
  function Sine(i: nat): Word
  {
    if i < 16 then Sine1(i) else if i < 32 then Sine2(i - 16) else if i < 48 then Sine3(i - 32) else Sine4(i - 48)
  }

  /** X <<< s: X rotated left by s bit positions. */
  function RotateLeft(x: Word, s: nat): Word
    requires 0 < s < 32
  {
    (x << s) | (x >> (32 - s))
  }

  function Plus(x: Word, y: Word): Word { x + y }
  function Total(a: Word, f: Word, x: Word, t: Word): Word { a + f + x + t }

  /** Operation i: a = b + ((a + Aux(b, c, d) + X[k] + T[i]) <<< s), after which the four
      registers trade roles for the next operation. */
  function Operation(s: State, x: seq<Word>, i: nat): State
    requires |x| == 16
  {
    State(s.d, Plus(s.b, RotateLeft(Total(s.a, Aux(i, s.b, s.c, s.d), x[Index(i)], Sine(i)), Shift(i))), s.b, s.c)
  }

  function Operations(s: State, x: seq<Word>, n: nat): State
    requires |x| == 16
  {
    if n == 0 then s else Operation(Operations(s, x, n - 1), x, n - 1)
  }

  /** Section 2: four bytes are a word, the low-order byte first. */
  function ToWord(b0: Byte, b1: Byte, b2: Byte, b3: Byte): Word
  {
    (b0 as Word) | ((b1 as Word) << 8) | ((b2 as Word) << 16) | ((b3 as Word) << 24)
  }

  function Words(block: seq<Byte>): (x: seq<Word>)
    requires |block| == 64
    ensures |x| == 16
  {
    seq(16, k requires 0 <= k < 16 => ToWord(block[4 * k], block[4 * k + 1], block[4 * k + 2], block[4 * k + 3]))
  }

  /** Each register is incremented by the value it had before the block. */
  function Added(t: State, s: State): State
  {
    State(t.a + s.a, t.b + s.b, t.c + s.c, t.d + s.d)
  }

  function Compress(s: State, block: seq<Byte>): State
    requires |block| == 64
  {
    Added(Operations(s, Words(block), 64), s)
  }

  /** Compresses the whole 64-byte blocks of the data, in order. */
  function CompressAll(s: State, data: seq<Byte>): State
    decreases |data|
  {
    if |data| < 64 then s else CompressAll(Compress(s, data[..64]), data[64..])
  }

  // ---- sections 3.1, 3.2 and 3.5 ----

  function Zeros(n: nat): (z: seq<Byte>)
    ensures |z| == n && forall i :: 0 <= i < n ==> z[i] == 0
  {
    seq(n, i => 0)
  }

  /** The four bytes of a number below 2^32, the low-order byte first. */
  function NatBytes(n: nat): (b: seq<Byte>)
    ensures |b| == 4
  {
    [(n % 0x100) as Byte, (n / 0x100 % 0x100) as Byte, (n / 0x1_0000 % 0x100) as Byte, (n / 0x100_0000 % 0x100) as Byte]
  }

  /** The bit length modulo 2^64 as two words, the low-order word first. */
  function LengthBytes(bytes: nat): (b: seq<Byte>)
    ensures |b| == 8
  {
    var bits := 8 * bytes % 0x1_0000_0000_0000_0000;
    NatBytes(bits % 0x1_0000_0000) + NatBytes(bits / 0x1_0000_0000)
  }

  lemma PadsOut(n: nat)
    ensures (n + 1 + (119 - n % 64) % 64 + 8) % 64 == 0
  {
  }

  /** A single 1 bit, then as few 0 bits as make the length 448 modulo 512, then the length. */
  function Pad(msg: seq<Byte>): (p: seq<Byte>)
    ensures |p| % 64 == 0 && |msg| + 9 <= |p| < |msg| + 9 + 64
  {
    var zeros := (119 - |msg| % 64) % 64;
    PadsOut(|msg|);
    var p := msg + [0x80] + Zeros(zeros) + LengthBytes(|msg|);
    assert |p| == |msg| + 1 + zeros + 8;
    p
  }

  function Digest(msg: seq<Byte>): State
  {
    CompressAll(INITIAL, Pad(msg))
  }

  function WordBytes(w: Word): (b: seq<Byte>)
    ensures |b| == 4
  {
    [(w & 0xff) as Byte, ((w >> 8) & 0xff) as Byte, ((w >> 16) & 0xff) as Byte, ((w >> 24) & 0xff) as Byte]
  }

  /** The digest begins with the low-order byte of A and ends with the high-order byte of D. */
  function StateBytes(s: State): (b: seq<Byte>)
    ensures |b| == 16
  {
    WordBytes(s.a) + WordBytes(s.b) + WordBytes(s.c) + WordBytes(s.d)
  }
}
