/**
  The table-driven CRC-32 of nc_crc32.c and the bit-at-a-time definition it
  speeds up: the reflected division by 0xedb88320 of section 8 of RFC 1952.
*/
module Crc32 {
  import opened Chars
  import opened Word32

  // ---- The definition: one bit of the division at a time ----

  predicate Odd(c: bv32) { c & 1 == 1 }

  function Half(c: bv32): bv32 { c >> 1 }

  function Byte(b: bv8): bv32 { b as bv32 }

  /** One bit of the division: shift the register right, and when the bit that
      falls out is set subtract the divisor. */
  function Bit(c: bv32): bv32 {
    if Odd(c) then Xor(Half(c), 0xedb88320) else Half(c)
  }

  function Eight(c: bv32): bv32 {
    Bit(Bit(Bit(Bit(Bit(Bit(Bit(Bit(c))))))))
  }

  /** The register after dividing the bytes of key into it, starting from c. */
  function Register(c: bv32, key: seq<bv8>): bv32 {
    if key == [] then c else Eight(Xor(Register(c, key[..|key| - 1]), Byte(key[|key| - 1])))
  }

  function Flip(c: bv32): bv32 { !c }

  /** What hash_crc32 keeps of the checksum. */
  function Fifteen(c: bv32): bv32 { (c >> 16) & 0x7fff }

  /** The checksum: the register starts as all ones and is complemented. */
  function Checksum(key: seq<bv8>): bv32 {
    Flip(Register(0xffff_ffff, key))
  }

  /** h is bits 16 to 30 of c. */
  predicate MiddleBits(h: bv32, c: bv32) { h < 0x8000 && h << 16 == c & 0x7fff_0000 }

  lemma FifteenIs(c: bv32)
    ensures MiddleBits(Fifteen(c), c)
  {}

  // ---- The division is linear ----

  lemma OddXor(u: bv32, v: bv32)
    ensures Odd(Xor(u, v)) == (Odd(u) != Odd(v))
  {}

  lemma HalfXor(u: bv32, v: bv32)
    ensures Half(Xor(u, v)) == Xor(Half(u), Half(v))
  {}

  /** Dividing a sum is summing the divisions, one bit at a time. */
  lemma BitXor(u: bv32, v: bv32)
    ensures Bit(Xor(u, v)) == Xor(Bit(u), Bit(v))
  {
    hide Odd, Half, Xor;
    var p: bv32 := 0xedb88320;
    OddXor(u, v);
    HalfXor(u, v);
    XorMoves(Half(u), Half(v), p);
    XorMoves(Half(v), Half(u), p);
    XorSwaps(Half(u), Half(v));
    XorSwaps(Half(v), Xor(Half(u), p));
    XorCancels(Half(u), Half(v), p);
  }

  lemma EightXor(u: bv32, v: bv32)
    ensures Eight(Xor(u, v)) == Xor(Eight(u), Eight(v))
  {
    hide Bit, Xor;
    var u1, v1 := Bit(u), Bit(v);
    var u2, v2 := Bit(u1), Bit(v1);
    var u3, v3 := Bit(u2), Bit(v2);
    var u4, v4 := Bit(u3), Bit(v3);
    var u5, v5 := Bit(u4), Bit(v4);
    var u6, v6 := Bit(u5), Bit(v5);
    var u7, v7 := Bit(u6), Bit(v6);
    BitXor(u, v); BitXor(u1, v1); BitXor(u2, v2); BitXor(u3, v3);
    BitXor(u4, v4); BitXor(u5, v5); BitXor(u6, v6); BitXor(u7, v7);
  }

  function Widen(t: bv24): bv32 { t as bv32 }

  function Up(x: bv32): bv32 { x << 8 }

  /** Eight zero bits only shift the register. */
  lemma EightUp(t: bv24)
    ensures Eight(Up(Widen(t))) == Widen(t)
  {
    assert Bit((t as bv32) << 8) == (t as bv32) << 7;
    assert Bit((t as bv32) << 7) == (t as bv32) << 6;
    assert Bit((t as bv32) << 6) == (t as bv32) << 5;
    assert Bit((t as bv32) << 5) == (t as bv32) << 4;
    assert Bit((t as bv32) << 4) == (t as bv32) << 3;
    assert Bit((t as bv32) << 3) == (t as bv32) << 2;
    assert Bit((t as bv32) << 2) == (t as bv32) << 1;
    assert Bit((t as bv32) << 1) == t as bv32;
    hide Bit;
  }

  // ---- The table ----

  /** crc32tab, by the two halves of the index. */
  function Table(i: bv8): bv32 {
    match i >> 5
    case 0 => (match (i >> 3) & 3
      case 0 => (match i & 7
        case 0 => 0x00000000 case 1 => 0x77073096 case 2 => 0xee0e612c case 3 => 0x990951ba
        case 4 => 0x076dc419 case 5 => 0x706af48f case 6 => 0xe963a535 case _ => 0x9e6495a3)
      case 1 => (match i & 7
        case 0 => 0x0edb8832 case 1 => 0x79dcb8a4 case 2 => 0xe0d5e91e case 3 => 0x97d2d988
        case 4 => 0x09b64c2b case 5 => 0x7eb17cbd case 6 => 0xe7b82d07 case _ => 0x90bf1d91)
      case 2 => (match i & 7
        case 0 => 0x1db71064 case 1 => 0x6ab020f2 case 2 => 0xf3b97148 case 3 => 0x84be41de
        case 4 => 0x1adad47d case 5 => 0x6ddde4eb case 6 => 0xf4d4b551 case _ => 0x83d385c7)
      case _ => (match i & 7
        case 0 => 0x136c9856 case 1 => 0x646ba8c0 case 2 => 0xfd62f97a case 3 => 0x8a65c9ec
        case 4 => 0x14015c4f case 5 => 0x63066cd9 case 6 => 0xfa0f3d63 case _ => 0x8d080df5))
    case 1 => (match (i >> 3) & 3
      case 0 => (match i & 7
        case 0 => 0x3b6e20c8 case 1 => 0x4c69105e case 2 => 0xd56041e4 case 3 => 0xa2677172
        case 4 => 0x3c03e4d1 case 5 => 0x4b04d447 case 6 => 0xd20d85fd case _ => 0xa50ab56b)
      case 1 => (match i & 7
        case 0 => 0x35b5a8fa case 1 => 0x42b2986c case 2 => 0xdbbbc9d6 case 3 => 0xacbcf940
        case 4 => 0x32d86ce3 case 5 => 0x45df5c75 case 6 => 0xdcd60dcf case _ => 0xabd13d59)
      case 2 => (match i & 7
        case 0 => 0x26d930ac case 1 => 0x51de003a case 2 => 0xc8d75180 case 3 => 0xbfd06116
        case 4 => 0x21b4f4b5 case 5 => 0x56b3c423 case 6 => 0xcfba9599 case _ => 0xb8bda50f)
      case _ => (match i & 7
        case 0 => 0x2802b89e case 1 => 0x5f058808 case 2 => 0xc60cd9b2 case 3 => 0xb10be924
        case 4 => 0x2f6f7c87 case 5 => 0x58684c11 case 6 => 0xc1611dab case _ => 0xb6662d3d))
    case 2 => (match (i >> 3) & 3
      case 0 => (match i & 7
        case 0 => 0x76dc4190 case 1 => 0x01db7106 case 2 => 0x98d220bc case 3 => 0xefd5102a
        case 4 => 0x71b18589 case 5 => 0x06b6b51f case 6 => 0x9fbfe4a5 case _ => 0xe8b8d433)
      case 1 => (match i & 7
        case 0 => 0x7807c9a2 case 1 => 0x0f00f934 case 2 => 0x9609a88e case 3 => 0xe10e9818
        case 4 => 0x7f6a0dbb case 5 => 0x086d3d2d case 6 => 0x91646c97 case _ => 0xe6635c01)
      case 2 => (match i & 7
        case 0 => 0x6b6b51f4 case 1 => 0x1c6c6162 case 2 => 0x856530d8 case 3 => 0xf262004e
        case 4 => 0x6c0695ed case 5 => 0x1b01a57b case 6 => 0x8208f4c1 case _ => 0xf50fc457)
      case _ => (match i & 7
        case 0 => 0x65b0d9c6 case 1 => 0x12b7e950 case 2 => 0x8bbeb8ea case 3 => 0xfcb9887c
        case 4 => 0x62dd1ddf case 5 => 0x15da2d49 case 6 => 0x8cd37cf3 case _ => 0xfbd44c65))
    case 3 => (match (i >> 3) & 3
      case 0 => (match i & 7
        case 0 => 0x4db26158 case 1 => 0x3ab551ce case 2 => 0xa3bc0074 case 3 => 0xd4bb30e2
        case 4 => 0x4adfa541 case 5 => 0x3dd895d7 case 6 => 0xa4d1c46d case _ => 0xd3d6f4fb)
      case 1 => (match i & 7
        case 0 => 0x4369e96a case 1 => 0x346ed9fc case 2 => 0xad678846 case 3 => 0xda60b8d0
        case 4 => 0x44042d73 case 5 => 0x33031de5 case 6 => 0xaa0a4c5f case _ => 0xdd0d7cc9)
      case 2 => (match i & 7
        case 0 => 0x5005713c case 1 => 0x270241aa case 2 => 0xbe0b1010 case 3 => 0xc90c2086
        case 4 => 0x5768b525 case 5 => 0x206f85b3 case 6 => 0xb966d409 case _ => 0xce61e49f)
      case _ => (match i & 7
        case 0 => 0x5edef90e case 1 => 0x29d9c998 case 2 => 0xb0d09822 case 3 => 0xc7d7a8b4
        case 4 => 0x59b33d17 case 5 => 0x2eb40d81 case 6 => 0xb7bd5c3b case _ => 0xc0ba6cad))
    case 4 => (match (i >> 3) & 3
      case 0 => (match i & 7
        case 0 => 0xedb88320 case 1 => 0x9abfb3b6 case 2 => 0x03b6e20c case 3 => 0x74b1d29a
        case 4 => 0xead54739 case 5 => 0x9dd277af case 6 => 0x04db2615 case _ => 0x73dc1683)
      case 1 => (match i & 7
        case 0 => 0xe3630b12 case 1 => 0x94643b84 case 2 => 0x0d6d6a3e case 3 => 0x7a6a5aa8
        case 4 => 0xe40ecf0b case 5 => 0x9309ff9d case 6 => 0x0a00ae27 case _ => 0x7d079eb1)
      case 2 => (match i & 7
        case 0 => 0xf00f9344 case 1 => 0x8708a3d2 case 2 => 0x1e01f268 case 3 => 0x6906c2fe
        case 4 => 0xf762575d case 5 => 0x806567cb case 6 => 0x196c3671 case _ => 0x6e6b06e7)
      case _ => (match i & 7
        case 0 => 0xfed41b76 case 1 => 0x89d32be0 case 2 => 0x10da7a5a case 3 => 0x67dd4acc
        case 4 => 0xf9b9df6f case 5 => 0x8ebeeff9 case 6 => 0x17b7be43 case _ => 0x60b08ed5))
    case 5 => (match (i >> 3) & 3
      case 0 => (match i & 7
        case 0 => 0xd6d6a3e8 case 1 => 0xa1d1937e case 2 => 0x38d8c2c4 case 3 => 0x4fdff252
        case 4 => 0xd1bb67f1 case 5 => 0xa6bc5767 case 6 => 0x3fb506dd case _ => 0x48b2364b)
      case 1 => (match i & 7
        case 0 => 0xd80d2bda case 1 => 0xaf0a1b4c case 2 => 0x36034af6 case 3 => 0x41047a60
        case 4 => 0xdf60efc3 case 5 => 0xa867df55 case 6 => 0x316e8eef case _ => 0x4669be79)
      case 2 => (match i & 7
        case 0 => 0xcb61b38c case 1 => 0xbc66831a case 2 => 0x256fd2a0 case 3 => 0x5268e236
        case 4 => 0xcc0c7795 case 5 => 0xbb0b4703 case 6 => 0x220216b9 case _ => 0x5505262f)
      case _ => (match i & 7
        case 0 => 0xc5ba3bbe case 1 => 0xb2bd0b28 case 2 => 0x2bb45a92 case 3 => 0x5cb36a04
        case 4 => 0xc2d7ffa7 case 5 => 0xb5d0cf31 case 6 => 0x2cd99e8b case _ => 0x5bdeae1d))
    case 6 => (match (i >> 3) & 3
      case 0 => (match i & 7
        case 0 => 0x9b64c2b0 case 1 => 0xec63f226 case 2 => 0x756aa39c case 3 => 0x026d930a
        case 4 => 0x9c0906a9 case 5 => 0xeb0e363f case 6 => 0x72076785 case _ => 0x05005713)
      case 1 => (match i & 7
        case 0 => 0x95bf4a82 case 1 => 0xe2b87a14 case 2 => 0x7bb12bae case 3 => 0x0cb61b38
        case 4 => 0x92d28e9b case 5 => 0xe5d5be0d case 6 => 0x7cdcefb7 case _ => 0x0bdbdf21)
      case 2 => (match i & 7
        case 0 => 0x86d3d2d4 case 1 => 0xf1d4e242 case 2 => 0x68ddb3f8 case 3 => 0x1fda836e
        case 4 => 0x81be16cd case 5 => 0xf6b9265b case 6 => 0x6fb077e1 case _ => 0x18b74777)
      case _ => (match i & 7
        case 0 => 0x88085ae6 case 1 => 0xff0f6a70 case 2 => 0x66063bca case 3 => 0x11010b5c
        case 4 => 0x8f659eff case 5 => 0xf862ae69 case 6 => 0x616bffd3 case _ => 0x166ccf45))
    case _ => (match (i >> 3) & 3
      case 0 => (match i & 7
        case 0 => 0xa00ae278 case 1 => 0xd70dd2ee case 2 => 0x4e048354 case 3 => 0x3903b3c2
        case 4 => 0xa7672661 case 5 => 0xd06016f7 case 6 => 0x4969474d case _ => 0x3e6e77db)
      case 1 => (match i & 7
        case 0 => 0xaed16a4a case 1 => 0xd9d65adc case 2 => 0x40df0b66 case 3 => 0x37d83bf0
        case 4 => 0xa9bcae53 case 5 => 0xdebb9ec5 case 6 => 0x47b2cf7f case _ => 0x30b5ffe9)
      case 2 => (match i & 7
        case 0 => 0xbdbdf21c case 1 => 0xcabac28a case 2 => 0x53b39330 case 3 => 0x24b4a3a6
        case 4 => 0xbad03605 case 5 => 0xcdd70693 case 6 => 0x54de5729 case _ => 0x23d967bf)
      case _ => (match i & 7
        case 0 => 0xb3667a2e case 1 => 0xc4614ab8 case 2 => 0x5d681b02 case 3 => 0x2a6f2b94
        case 4 => 0xb40bbe37 case 5 => 0xc30c8ea1 case 6 => 0x5a05df1b case _ => 0x2d02ef8d))
  }

  /** What eight bits of the division make of a byte, from what they make of its
      bits one by one. */
  function Summed(i: bv8): bv32 {
    Xor(if i & 0x01 == 0 then 0 else 0x77073096,
    Xor(if i & 0x02 == 0 then 0 else 0xee0e612c,
    Xor(if i & 0x04 == 0 then 0 else 0x076dc419,
    Xor(if i & 0x08 == 0 then 0 else 0x0edb8832,
    Xor(if i & 0x10 == 0 then 0 else 0x1db71064,
    Xor(if i & 0x20 == 0 then 0 else 0x3b6e20c8,
    Xor(if i & 0x40 == 0 then 0 else 0x76dc4190,
        if i & 0x80 == 0 then 0 else 0xedb88320)))))))
  }

  lemma SingleBits()
    ensures Eight(0) == 0
    ensures Eight(0x01) == 0x77073096 && Eight(0x02) == 0xee0e612c
    ensures Eight(0x04) == 0x076dc419 && Eight(0x08) == 0x0edb8832
    ensures Eight(0x10) == 0x1db71064 && Eight(0x20) == 0x3b6e20c8
    ensures Eight(0x40) == 0x76dc4190 && Eight(0x80) == 0xedb88320
  {}

  lemma Peel(i: bv8)
    ensures i as bv32 == Xor((i & 0x01) as bv32, (i & 0xfe) as bv32)
    ensures (i & 0xfe) as bv32 == Xor((i & 0x02) as bv32, (i & 0xfc) as bv32)
    ensures (i & 0xfc) as bv32 == Xor((i & 0x04) as bv32, (i & 0xf8) as bv32)
    ensures (i & 0xf8) as bv32 == Xor((i & 0x08) as bv32, (i & 0xf0) as bv32)
    ensures (i & 0xf0) as bv32 == Xor((i & 0x10) as bv32, (i & 0xe0) as bv32)
    ensures (i & 0xe0) as bv32 == Xor((i & 0x20) as bv32, (i & 0xc0) as bv32)
    ensures (i & 0xc0) as bv32 == Xor((i & 0x40) as bv32, (i & 0x80) as bv32)
  {}

  lemma Masked(i: bv8)
    ensures (i & 0x01) as bv32 == if i & 0x01 == 0 then 0 else 0x01
    ensures (i & 0x02) as bv32 == if i & 0x02 == 0 then 0 else 0x02
    ensures (i & 0x04) as bv32 == if i & 0x04 == 0 then 0 else 0x04
    ensures (i & 0x08) as bv32 == if i & 0x08 == 0 then 0 else 0x08
    ensures (i & 0x10) as bv32 == if i & 0x10 == 0 then 0 else 0x10
    ensures (i & 0x20) as bv32 == if i & 0x20 == 0 then 0 else 0x20
    ensures (i & 0x40) as bv32 == if i & 0x40 == 0 then 0 else 0x40
    ensures (i & 0x80) as bv32 == if i & 0x80 == 0 then 0 else 0x80
  {}

  lemma EightIsSummed(i: bv8)
    ensures Eight(i as bv32) == Summed(i)
  {
    hide Eight, Xor;
    Peel(i);
    Masked(i);
    SingleBits();
    EightXor((i & 0x01) as bv32, (i & 0xfe) as bv32);
    EightXor((i & 0x02) as bv32, (i & 0xfc) as bv32);
    EightXor((i & 0x04) as bv32, (i & 0xf8) as bv32);
    EightXor((i & 0x08) as bv32, (i & 0xf0) as bv32);
    EightXor((i & 0x10) as bv32, (i & 0xe0) as bv32);
    EightXor((i & 0x20) as bv32, (i & 0xc0) as bv32);
    EightXor((i & 0x40) as bv32, (i & 0x80) as bv32);
  }

  predicate EntryOk(i: bv8) {
    Table(i) == Summed(i)
  }

  predicate RowOk(i: bv8) {
    && EntryOk(i) && EntryOk(i + 1) && EntryOk(i + 2) && EntryOk(i + 3)
    && EntryOk(i + 4) && EntryOk(i + 5) && EntryOk(i + 6) && EntryOk(i + 7)
    && EntryOk(i + 8) && EntryOk(i + 9) && EntryOk(i + 10) && EntryOk(i + 11)
    && EntryOk(i + 12) && EntryOk(i + 13) && EntryOk(i + 14) && EntryOk(i + 15)
  }

  lemma Row0() ensures RowOk(0x00) {}
  lemma Row1() ensures RowOk(0x10) {}
  lemma Row2() ensures RowOk(0x20) {}
  lemma Row3() ensures RowOk(0x30) {}
  lemma Row4() ensures RowOk(0x40) {}
  lemma Row5() ensures RowOk(0x50) {}
  lemma Row6() ensures RowOk(0x60) {}
  lemma Row7() ensures RowOk(0x70) {}
  lemma Row8() ensures RowOk(0x80) {}
  lemma Row9() ensures RowOk(0x90) {}
  lemma RowA() ensures RowOk(0xa0) {}
  lemma RowB() ensures RowOk(0xb0) {}
  lemma RowC() ensures RowOk(0xc0) {}
  lemma RowD() ensures RowOk(0xd0) {}
  lemma RowE() ensures RowOk(0xe0) {}
  lemma RowF() ensures RowOk(0xf0) {}

  lemma EntriesAreOk(i: bv8)
    ensures EntryOk(i)
  {
    hide EntryOk;
    Row0(); Row1(); Row2(); Row3(); Row4(); Row5(); Row6(); Row7();
    Row8(); Row9(); RowA(); RowB(); RowC(); RowD(); RowE(); RowF();
  }

  /** The entry for i is what eight bits of the division make of i. */
  lemma TableIsEight(i: bv8)
    ensures Table(i) == Eight(Byte(i))
  {
    hide Table, Summed, Eight;
    EntriesAreOk(i);
    EightIsSummed(i);
  }

  function High(x: bv32): bv24 { ((x >> 8) & 0xffffff) as bv24 }

  lemma Halves(x: bv32)
    ensures Xor(Byte(Low(x)), Up(Widen(High(x)))) == x
  {}

  /** One table step is eight bits of the division. */
  lemma TableStep(x: bv32)
    ensures Eight(x) == Xor(Table(Low(x)), Widen(High(x)))
  {
    hide *;
    Halves(x);
    TableIsEight(Low(x));
    EightUp(High(x));
    EightXor(Byte(Low(x)), Up(Widen(High(x))));
  }

  // ---- The two hashes ----

  /** The loop body of hash_crc32a. */
  function UnsignedBody(c: bv32, b: bv8): bv32 {
    Xor(Table(((c ^ (b as bv32)) & 0xff) as bv8), c >> 8)
  }

  /** The loop body of hash_crc32, which reads the byte as a signed char. */
  function SignedBody(c: bv32, b: bv8): bv32 {
    Xor(c >> 8, Table((((c as bv64) ^ Signed64(b)) & 0xff) as bv8))
  }

  lemma IndexIs(c: bv32, b: bv8)
    ensures Low(Xor(c, Byte(b))) == ((c ^ (b as bv32)) & 0xff) as bv8
  {}

  lemma SignedIndexIs(c: bv32, b: bv8)
    ensures Low(Xor(c, Byte(b))) == (((c as bv64) ^ Signed64(b)) & 0xff) as bv8
  {}

  lemma RestIs(c: bv32, b: bv8)
    ensures Widen(High(Xor(c, Byte(b)))) == c >> 8
  {}

  /** The body is eight bits of the division. */
  lemma UnsignedStep(c: bv32, b: bv8)
    ensures UnsignedBody(c, b) == Eight(Xor(c, Byte(b)))
  {
    hide Xor, Byte, Table, Eight, Low, Widen, High;
    TableStep(Xor(c, Byte(b)));
    RestIs(c, b);
    IndexIs(c, b);
  }

  /** So is the other: the sign of the char does not reach the table. */
  lemma SignedStep(c: bv32, b: bv8)
    ensures SignedBody(c, b) == Eight(Xor(c, Byte(b)))
  {
    hide Xor, Byte, Table, Eight, Low, Widen, High, Signed64;
    TableStep(Xor(c, Byte(b)));
    RestIs(c, b);
    SignedIndexIs(c, b);
    XorSwaps(Table(Low(Xor(c, Byte(b)))), c >> 8);
  }

  lemma Complement(c: bv32)
    ensures c ^ 0xffff_ffff == Flip(c)
  {}

  /** hash_crc32a is the checksum. */
  method HashCrc32a(key: seq<bv8>) returns (hash: bv32)
    ensures hash == Checksum(key)
  {
    hide Eight, Xor, Byte, UnsignedBody, Flip;
    var crc: bv32 := 0xffff_ffff;
    for i := 0 to |key|
      invariant crc == Register(0xffff_ffff, key[..i])
    {
      assert key[..i + 1][..i] == key[..i];
      UnsignedStep(crc, key[i]);
      crc := UnsignedBody(crc, key[i]);
    }
    assert key[..|key|] == key;
    Complement(crc);
    hash := crc ^ 0xffff_ffff;
  }

  /** hash_crc32 is fifteen bits of the checksum. */
  method HashCrc32(key: seq<bv8>) returns (hash: bv32)
    ensures hash == Fifteen(Checksum(key))
    ensures MiddleBits(hash, Checksum(key))
  {
    hide Eight, Xor, Byte, SignedBody, Flip, Fifteen, MiddleBits;
    var crc: bv32 := 0xffff_ffff;
    for i := 0 to |key|
      invariant crc == Register(0xffff_ffff, key[..i])
    {
      assert key[..i + 1][..i] == key[..i];
      SignedStep(crc, key[i]);
      crc := SignedBody(crc, key[i]);
    }
    assert key[..|key|] == key;
    FifteenIs(Flip(crc));
    hash := Fifteen(Flip(crc));
  }

  // ---- A burst of up to 32 bits never goes unnoticed ----

  /** The last step undone: the top bit tells whether the divisor was taken off. */
  function Unbit(c: bv32): bv32 {
    if c & 0x8000_0000 == 0 then c << 1 else ((c ^ 0xedb88320) << 1) | 1
  }

  lemma UnbitUndoes(c: bv32)
    ensures Unbit(Bit(c)) == c
  {}

  lemma BitInjective(u: bv32, v: bv32)
    requires Bit(u) == Bit(v)
    ensures u == v
  {
    hide Bit, Unbit;
    UnbitUndoes(u);
    UnbitUndoes(v);
  }

  lemma EightInjective(u: bv32, v: bv32)
    requires Eight(u) == Eight(v)
    ensures u == v
  {
    hide Bit;
    var u1, v1 := Bit(u), Bit(v);
    var u2, v2 := Bit(u1), Bit(v1);
    var u3, v3 := Bit(u2), Bit(v2);
    var u4, v4 := Bit(u3), Bit(v3);
    var u5, v5 := Bit(u4), Bit(v4);
    var u6, v6 := Bit(u5), Bit(v5);
    var u7, v7 := Bit(u6), Bit(v6);
    BitInjective(u7, v7); BitInjective(u6, v6); BitInjective(u5, v5); BitInjective(u4, v4);
    BitInjective(u3, v3); BitInjective(u2, v2); BitInjective(u1, v1); BitInjective(u, v);
  }

  lemma {:induction false} RegisterSplits(c: bv32, p: seq<bv8>, s: seq<bv8>)
    ensures Register(c, p + s) == Register(Register(c, p), s)
  {
    hide Eight, Xor, Byte;
    if s == [] {
      assert p + s == p;
    } else {
      var f := s[..|s| - 1];
      assert (p + s)[..|p + s| - 1] == p + f;
      RegisterSplits(c, p, f);
    }
  }

  /** Bytes that follow do not bring two different registers together. */
  lemma {:induction false} RegisterInjective(c: bv32, d: bv32, s: seq<bv8>)
    requires Register(c, s) == Register(d, s)
    ensures c == d
  {
    hide Eight, Xor, Byte;
    if s == [] {
    } else {
      var f, b := s[..|s| - 1], Byte(s[|s| - 1]);
      EightInjective(Xor(Register(c, f), b), Xor(Register(d, f), b));
      XorInjective(Register(c, f), Register(d, f), b);
      RegisterInjective(c, d, f);
    }
  }

  /** Up to four bytes as one word, first byte lowest. */
  function Word(w: seq<bv8>): bv32 {
    if w == [] then 0 else Xor(Byte(w[0]), Up(Word(w[1..])))
  }

  function Rounds(n: nat, c: bv32): bv32 {
    if n == 0 then c else Rounds(n - 1, Eight(c))
  }

  lemma {:induction false} RoundsInjective(n: nat, u: bv32, v: bv32)
    requires Rounds(n, u) == Rounds(n, v)
    ensures u == v
  {
    hide Eight;
    if n == 0 {
    } else {
      RoundsInjective(n - 1, Eight(u), Eight(v));
      EightInjective(u, v);
    }
  }

  predicate ThreeBytes(x: bv32) { x & 0xff00_0000 == 0 }

  lemma ThreeBytesFit(a: bv8, b: bv8, c: bv8)
    ensures ThreeBytes(0)
    ensures ThreeBytes(Xor(Byte(a), Up(0)))
    ensures ThreeBytes(Xor(Byte(a), Up(Xor(Byte(b), Up(0)))))
    ensures ThreeBytes(Xor(Byte(a), Up(Xor(Byte(b), Up(Xor(Byte(c), Up(0)))))))
  {}

  lemma WordFits(w: seq<bv8>)
    requires |w| <= 3
    ensures ThreeBytes(Word(w))
  {
    hide ThreeBytes, Xor, Byte, Up;
    if |w| == 0 {
      ThreeBytesFit(0, 0, 0);
    } else if |w| == 1 {
      ThreeBytesFit(w[0], 0, 0);
    } else if |w| == 2 {
      ThreeBytesFit(w[0], w[1], 0);
      assert w[1..][1..] == [];
    } else {
      ThreeBytesFit(w[0], w[1], w[2]);
      assert w[1..][1..][1..] == [];
      assert w[1..][1..] == [w[2]];
    }
  }

  lemma ThreeBytesWide(x: bv32)
    requires ThreeBytes(x)
    ensures Widen(High(Up(x))) == x
  {}

  /** Up to four bytes act on the register as one word. */
  lemma {:induction false} WindowIs(c: bv32, w: seq<bv8>)
    requires |w| <= 4
    ensures Register(c, w) == Rounds(|w|, Xor(c, Word(w)))
    decreases |w|
  {
    hide Eight, Xor, Byte, Widen, High, Up, ThreeBytes;
    if w == [] {
      XorZero(c);
    } else {
      var b, rest := Byte(w[0]), w[1..];
      assert w == [w[0]] + rest;
      RegisterSplits(c, [w[0]], rest);
      assert Register(c, [w[0]]) == Eight(Xor(c, b));
      WindowIs(Eight(Xor(c, b)), rest);
      WordFits(rest);
      var t := Word(rest);
      ThreeBytesWide(t);
      EightUp(High(Up(t)));
      EightXor(Xor(c, b), Up(t));
      XorMoves(c, b, Up(t));
    }
  }

  lemma WordParts(b: bv8, x: bv32)
    requires ThreeBytes(x)
    ensures Low(Xor(Byte(b), Up(x))) == b
    ensures Widen(High(Xor(Byte(b), Up(x)))) == x
  {}

  lemma {:induction false} WordInjective(v: seq<bv8>, w: seq<bv8>)
    requires |v| == |w| <= 4
    requires Word(v) == Word(w)
    ensures v == w
  {
    hide Xor, Byte, Widen, Low, High, Up, ThreeBytes;
    if v == [] {
    } else {
      WordFits(v[1..]);
      WordFits(w[1..]);
      WordParts(v[0], Word(v[1..]));
      WordParts(w[0], Word(w[1..]));
      WordInjective(v[1..], w[1..]);
      assert v == [v[0]] + v[1..] && w == [w[0]] + w[1..];
    }
  }

  lemma FlipInjective(x: bv32, y: bv32)
    requires Flip(x) == Flip(y)
    ensures x == y
  {}

  /** Keys that differ only within four consecutive bytes have different checksums. */
  lemma BurstIsSeen(p: seq<bv8>, v: seq<bv8>, w: seq<bv8>, s: seq<bv8>)
    requires |v| == |w| <= 4
    requires v != w
    ensures Checksum(p + v + s) != Checksum(p + w + s)
  {
    hide Register, Rounds, Xor, Word, Flip;
    var c := Register(0xffff_ffff, p);
    RegisterSplits(0xffff_ffff, p, v);
    RegisterSplits(0xffff_ffff, p, w);
    RegisterSplits(0xffff_ffff, p + v, s);
    RegisterSplits(0xffff_ffff, p + w, s);
    if Checksum(p + v + s) == Checksum(p + w + s) {
      FlipInjective(Register(0xffff_ffff, p + v + s), Register(0xffff_ffff, p + w + s));
      RegisterInjective(Register(c, v), Register(c, w), s);
      WindowIs(c, v);
      WindowIs(c, w);
      RoundsInjective(|v|, Xor(c, Word(v)), Xor(c, Word(w)));
      XorSwaps(c, Word(v));
      XorSwaps(c, Word(w));
      XorInjective(Word(v), Word(w), c);
      WordInjective(v, w);
    }
  }

  // ---- The check value ----

  lemma RegisterNext(c: bv32, p: seq<bv8>, b: bv8)
    ensures Register(c, p + [b]) == Eight(Xor(Register(c, p), Byte(b)))
  {
    hide Eight, Xor, Byte;
    assert (p + [b])[..|p|] == p;
  }

  lemma CheckBytes1()
    ensures Eight(Xor(0xffffffff, Byte(0x31))) == 0x7c231048
    ensures Eight(Xor(0x7c231048, Byte(0x32))) == 0xb0acbb32
    ensures Eight(Xor(0xb0acbb32, Byte(0x33))) == 0x77b79c2d
  {}

  lemma CheckBytes4()
    ensures Eight(Xor(0x77b79c2d, Byte(0x34))) == 0x641c1f5c
    ensures Eight(Xor(0x641c1f5c, Byte(0x35))) == 0x340ac5e3
    ensures Eight(Xor(0x340ac5e3, Byte(0x36))) == 0xf68d2c9e
  {}

  lemma CheckBytes7()
    ensures Eight(Xor(0xf68d2c9e, Byte(0x37))) == 0xaffc9660
    ensures Eight(Xor(0xaffc9660, Byte(0x38))) == 0x651f2550
    ensures Eight(Xor(0x651f2550, Byte(0x39))) == 0x340bc6d9
  {}

  lemma Complemented()
    ensures Flip(0x340bc6d9) == 0xcbf43926
    ensures Fifteen(0xcbf43926) == 0x4bf4
  {}

  /** The CRC-32 of "123456789" is the check value by which it is known, and hash_crc32 keeps 0x4bf4 of it. */
  lemma CheckValue()
    ensures var key := [0x31, 0x32, 0x33, 0x34, 0x35, 0x36, 0x37, 0x38, 0x39];
      Checksum(key) == 0xcbf43926 && Fifteen(Checksum(key)) == 0x4bf4
  {
    hide Eight, Xor, Byte, Flip, Fifteen;
    CheckBytes1();
    CheckBytes4();
    CheckBytes7();
    Complemented();
    var p: seq<bv8> := [];
    RegisterNext(0xffff_ffff, p, 0x31);
    p := p + [0x31];
    assert Register(0xffff_ffff, p) == 0x7c231048;
    RegisterNext(0xffff_ffff, p, 0x32);
    p := p + [0x32];
    assert Register(0xffff_ffff, p) == 0xb0acbb32;
    RegisterNext(0xffff_ffff, p, 0x33);
    p := p + [0x33];
    assert Register(0xffff_ffff, p) == 0x77b79c2d;
    RegisterNext(0xffff_ffff, p, 0x34);
    p := p + [0x34];
    assert Register(0xffff_ffff, p) == 0x641c1f5c;
    RegisterNext(0xffff_ffff, p, 0x35);
    p := p + [0x35];
    assert Register(0xffff_ffff, p) == 0x340ac5e3;
    RegisterNext(0xffff_ffff, p, 0x36);
    p := p + [0x36];
    assert Register(0xffff_ffff, p) == 0xf68d2c9e;
    RegisterNext(0xffff_ffff, p, 0x37);
    p := p + [0x37];
    assert Register(0xffff_ffff, p) == 0xaffc9660;
    RegisterNext(0xffff_ffff, p, 0x38);
    p := p + [0x38];
    assert Register(0xffff_ffff, p) == 0x651f2550;
    RegisterNext(0xffff_ffff, p, 0x39);
    p := p + [0x39];
    assert Register(0xffff_ffff, p) == 0x340bc6d9;
    assert p == [0x31, 0x32, 0x33, 0x34, 0x35, 0x36, 0x37, 0x38, 0x39];
  }
}
