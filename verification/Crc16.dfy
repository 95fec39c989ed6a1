/**
  The table-driven CRC-16 of nc_crc16.c, the bit-at-a-time division by 0x1021 it
  speeds up, and what its 32-bit register holds above the sixteen bits of the
  remainder, since the code never masks it.
*/
module Crc16 {
  import opened Chars

  // ---- The definition: one bit of the division at a time ----

  predicate Carries(c: bv16) { c & 0x8000 == 0x8000 }

  function Double(c: bv16): bv16 { c << 1 }

  function Xor(x: bv16, y: bv16): bv16 { x ^ y }

  /** A byte enters the register at its upper end. */
  function Lift(b: bv8): bv16 { (b as bv16) << 8 }

  /** One bit of the division: shift the register left, and when the bit that
      falls out is set subtract the divisor. */
  function Bit(c: bv16): bv16 {
    if Carries(c) then Xor(Double(c), 0x1021) else Double(c)
  }

  function Eight(c: bv16): bv16 {
    Bit(Bit(Bit(Bit(Bit(Bit(Bit(Bit(c))))))))
  }

  /** The register after dividing the bytes of key into it, starting from c. */
  function Register(c: bv16, key: seq<bv8>): bv16 {
    if key == [] then c else Eight(Xor(Register(c, key[..|key| - 1]), Lift(key[|key| - 1])))
  }

  /** The remainder of the bytes of key. */
  function Remainder(key: seq<bv8>): bv16 {
    Register(0, key)
  }

  // ---- The division is linear ----

  lemma CarriesXor(u: bv16, v: bv16)
    ensures Carries(Xor(u, v)) == (Carries(u) != Carries(v))
  {}

  lemma DoubleXor(u: bv16, v: bv16)
    ensures Double(Xor(u, v)) == Xor(Double(u), Double(v))
  {}

  lemma XorSwaps(u: bv16, v: bv16)
    ensures Xor(u, v) == Xor(v, u)
  {}

  lemma XorMoves(u: bv16, v: bv16, p: bv16)
    ensures Xor(Xor(u, v), p) == Xor(u, Xor(v, p))
  {}

  lemma XorTwice(u: bv16, v: bv16, p: bv16)
    ensures Xor(u ^ p, v ^ p) == Xor(u, v)
  {}

  lemma XorCancels(u: bv16, v: bv16, p: bv16)
    ensures Xor(Xor(u, p), Xor(v, p)) == Xor(u, v)
  {
    XorTwice(u, v, p);
    assert Xor(u, p) == u ^ p;
    assert Xor(v, p) == v ^ p;
    hide Xor;
  }

  lemma BitXor(u: bv16, v: bv16)
    ensures Bit(Xor(u, v)) == Xor(Bit(u), Bit(v))
  {
    hide Carries, Double, Xor;
    var p: bv16 := 0x1021;
    CarriesXor(u, v);
    DoubleXor(u, v);
    XorMoves(Double(u), Double(v), p);
    XorMoves(Double(v), Double(u), p);
    XorSwaps(Double(u), Double(v));
    XorSwaps(Double(v), Xor(Double(u), p));
    XorCancels(Double(u), Double(v), p);
  }

  lemma EightXor(u: bv16, v: bv16)
    ensures Eight(Xor(u, v)) == Xor(Eight(u), Eight(v))
  {
    hide Bit, Xor;
    var u1, v1 := Bit(u), Bit(v);
    var u2, v2 := Bit(u1), Bit(v1);
    var u3, v3 := Bit(u2), Bit(v2);
    var u4, v4 := Bit(u3), Bit(v3);
    var u5, v5 := Bit(u4), Bit(v4);
    var u6, v6 := Bit(u5), Bit(v5);
    var u7, v7 := Bit(u6), Bit(v6);
    BitXor(u, v); BitXor(u1, v1); BitXor(u2, v2); BitXor(u3, v3);
    BitXor(u4, v4); BitXor(u5, v5); BitXor(u6, v6); BitXor(u7, v7);
  }

  function Widen(b: bv8): bv16 { b as bv16 }

  /** Eight zero bits only shift the register. */
  lemma EightLifts(b: bv8)
    ensures Eight(Widen(b)) == Lift(b)
  {
    assert Bit(b as bv16) == (b as bv16) << 1;
    assert Bit((b as bv16) << 1) == (b as bv16) << 2;
    assert Bit((b as bv16) << 2) == (b as bv16) << 3;
    assert Bit((b as bv16) << 3) == (b as bv16) << 4;
    assert Bit((b as bv16) << 4) == (b as bv16) << 5;
    assert Bit((b as bv16) << 5) == (b as bv16) << 6;
    assert Bit((b as bv16) << 6) == (b as bv16) << 7;
    assert Bit((b as bv16) << 7) == (b as bv16) << 8;
    hide Bit;
  }

  // ---- The table ----

  /** crc16tab, by the parts of the index. */
  function Table(i: bv8): bv16 {
    match i >> 5
    case 0 => (match (i >> 3) & 3
      case 0 => (match i & 7
        case 0 => 0x0000 case 1 => 0x1021 case 2 => 0x2042 case 3 => 0x3063
        case 4 => 0x4084 case 5 => 0x50a5 case 6 => 0x60c6 case _ => 0x70e7)
      case 1 => (match i & 7
        case 0 => 0x8108 case 1 => 0x9129 case 2 => 0xa14a case 3 => 0xb16b
        case 4 => 0xc18c case 5 => 0xd1ad case 6 => 0xe1ce case _ => 0xf1ef)
      case 2 => (match i & 7
        case 0 => 0x1231 case 1 => 0x0210 case 2 => 0x3273 case 3 => 0x2252
        case 4 => 0x52b5 case 5 => 0x4294 case 6 => 0x72f7 case _ => 0x62d6)
      case _ => (match i & 7
        case 0 => 0x9339 case 1 => 0x8318 case 2 => 0xb37b case 3 => 0xa35a
        case 4 => 0xd3bd case 5 => 0xc39c case 6 => 0xf3ff case _ => 0xe3de))
    case 1 => (match (i >> 3) & 3
      case 0 => (match i & 7
        case 0 => 0x2462 case 1 => 0x3443 case 2 => 0x0420 case 3 => 0x1401
        case 4 => 0x64e6 case 5 => 0x74c7 case 6 => 0x44a4 case _ => 0x5485)
      case 1 => (match i & 7
        case 0 => 0xa56a case 1 => 0xb54b case 2 => 0x8528 case 3 => 0x9509
        case 4 => 0xe5ee case 5 => 0xf5cf case 6 => 0xc5ac case _ => 0xd58d)
      case 2 => (match i & 7
        case 0 => 0x3653 case 1 => 0x2672 case 2 => 0x1611 case 3 => 0x0630
        case 4 => 0x76d7 case 5 => 0x66f6 case 6 => 0x5695 case _ => 0x46b4)
      case _ => (match i & 7
        case 0 => 0xb75b case 1 => 0xa77a case 2 => 0x9719 case 3 => 0x8738
        case 4 => 0xf7df case 5 => 0xe7fe case 6 => 0xd79d case _ => 0xc7bc))
    case 2 => (match (i >> 3) & 3
      case 0 => (match i & 7
        case 0 => 0x48c4 case 1 => 0x58e5 case 2 => 0x6886 case 3 => 0x78a7
        case 4 => 0x0840 case 5 => 0x1861 case 6 => 0x2802 case _ => 0x3823)
      case 1 => (match i & 7
        case 0 => 0xc9cc case 1 => 0xd9ed case 2 => 0xe98e case 3 => 0xf9af
        case 4 => 0x8948 case 5 => 0x9969 case 6 => 0xa90a case _ => 0xb92b)
      case 2 => (match i & 7
        case 0 => 0x5af5 case 1 => 0x4ad4 case 2 => 0x7ab7 case 3 => 0x6a96
        case 4 => 0x1a71 case 5 => 0x0a50 case 6 => 0x3a33 case _ => 0x2a12)
      case _ => (match i & 7
        case 0 => 0xdbfd case 1 => 0xcbdc case 2 => 0xfbbf case 3 => 0xeb9e
        case 4 => 0x9b79 case 5 => 0x8b58 case 6 => 0xbb3b case _ => 0xab1a))
    case 3 => (match (i >> 3) & 3
      case 0 => (match i & 7
        case 0 => 0x6ca6 case 1 => 0x7c87 case 2 => 0x4ce4 case 3 => 0x5cc5
        case 4 => 0x2c22 case 5 => 0x3c03 case 6 => 0x0c60 case _ => 0x1c41)
      case 1 => (match i & 7
        case 0 => 0xedae case 1 => 0xfd8f case 2 => 0xcdec case 3 => 0xddcd
        case 4 => 0xad2a case 5 => 0xbd0b case 6 => 0x8d68 case _ => 0x9d49)
      case 2 => (match i & 7
        case 0 => 0x7e97 case 1 => 0x6eb6 case 2 => 0x5ed5 case 3 => 0x4ef4
        case 4 => 0x3e13 case 5 => 0x2e32 case 6 => 0x1e51 case _ => 0x0e70)
      case _ => (match i & 7
        case 0 => 0xff9f case 1 => 0xefbe case 2 => 0xdfdd case 3 => 0xcffc
        case 4 => 0xbf1b case 5 => 0xaf3a case 6 => 0x9f59 case _ => 0x8f78))
    case 4 => (match (i >> 3) & 3
      case 0 => (match i & 7
        case 0 => 0x9188 case 1 => 0x81a9 case 2 => 0xb1ca case 3 => 0xa1eb
        case 4 => 0xd10c case 5 => 0xc12d case 6 => 0xf14e case _ => 0xe16f)
      case 1 => (match i & 7
        case 0 => 0x1080 case 1 => 0x00a1 case 2 => 0x30c2 case 3 => 0x20e3
        case 4 => 0x5004 case 5 => 0x4025 case 6 => 0x7046 case _ => 0x6067)
      case 2 => (match i & 7
        case 0 => 0x83b9 case 1 => 0x9398 case 2 => 0xa3fb case 3 => 0xb3da
        case 4 => 0xc33d case 5 => 0xd31c case 6 => 0xe37f case _ => 0xf35e)
      case _ => (match i & 7
        case 0 => 0x02b1 case 1 => 0x1290 case 2 => 0x22f3 case 3 => 0x32d2
        case 4 => 0x4235 case 5 => 0x5214 case 6 => 0x6277 case _ => 0x7256))
    case 5 => (match (i >> 3) & 3
      case 0 => (match i & 7
        case 0 => 0xb5ea case 1 => 0xa5cb case 2 => 0x95a8 case 3 => 0x8589
        case 4 => 0xf56e case 5 => 0xe54f case 6 => 0xd52c case _ => 0xc50d)
      case 1 => (match i & 7
        case 0 => 0x34e2 case 1 => 0x24c3 case 2 => 0x14a0 case 3 => 0x0481
        case 4 => 0x7466 case 5 => 0x6447 case 6 => 0x5424 case _ => 0x4405)
      case 2 => (match i & 7
        case 0 => 0xa7db case 1 => 0xb7fa case 2 => 0x8799 case 3 => 0x97b8
        case 4 => 0xe75f case 5 => 0xf77e case 6 => 0xc71d case _ => 0xd73c)
      case _ => (match i & 7
        case 0 => 0x26d3 case 1 => 0x36f2 case 2 => 0x0691 case 3 => 0x16b0
        case 4 => 0x6657 case 5 => 0x7676 case 6 => 0x4615 case _ => 0x5634))
    case 6 => (match (i >> 3) & 3
      case 0 => (match i & 7
        case 0 => 0xd94c case 1 => 0xc96d case 2 => 0xf90e case 3 => 0xe92f
        case 4 => 0x99c8 case 5 => 0x89e9 case 6 => 0xb98a case _ => 0xa9ab)
      case 1 => (match i & 7
        case 0 => 0x5844 case 1 => 0x4865 case 2 => 0x7806 case 3 => 0x6827
        case 4 => 0x18c0 case 5 => 0x08e1 case 6 => 0x3882 case _ => 0x28a3)
      case 2 => (match i & 7
        case 0 => 0xcb7d case 1 => 0xdb5c case 2 => 0xeb3f case 3 => 0xfb1e
        case 4 => 0x8bf9 case 5 => 0x9bd8 case 6 => 0xabbb case _ => 0xbb9a)
      case _ => (match i & 7
        case 0 => 0x4a75 case 1 => 0x5a54 case 2 => 0x6a37 case 3 => 0x7a16
        case 4 => 0x0af1 case 5 => 0x1ad0 case 6 => 0x2ab3 case _ => 0x3a92))
    case _ => (match (i >> 3) & 3
      case 0 => (match i & 7
        case 0 => 0xfd2e case 1 => 0xed0f case 2 => 0xdd6c case 3 => 0xcd4d
        case 4 => 0xbdaa case 5 => 0xad8b case 6 => 0x9de8 case _ => 0x8dc9)
      case 1 => (match i & 7
        case 0 => 0x7c26 case 1 => 0x6c07 case 2 => 0x5c64 case 3 => 0x4c45
        case 4 => 0x3ca2 case 5 => 0x2c83 case 6 => 0x1ce0 case _ => 0x0cc1)
      case 2 => (match i & 7
        case 0 => 0xef1f case 1 => 0xff3e case 2 => 0xcf5d case 3 => 0xdf7c
        case 4 => 0xaf9b case 5 => 0xbfba case 6 => 0x8fd9 case _ => 0x9ff8)
      case _ => (match i & 7
        case 0 => 0x6e17 case 1 => 0x7e36 case 2 => 0x4e55 case 3 => 0x5e74
        case 4 => 0x2e93 case 5 => 0x3eb2 case 6 => 0x0ed1 case _ => 0x1ef0))
  }

  /** What eight bits of the division make of a byte, from what they make of its
      bits one by one. */
  function Summed(i: bv8): bv16 {
    Xor(if i & 0x01 == 0 then 0 else 0x1021,
    Xor(if i & 0x02 == 0 then 0 else 0x2042,
    Xor(if i & 0x04 == 0 then 0 else 0x4084,
    Xor(if i & 0x08 == 0 then 0 else 0x8108,
    Xor(if i & 0x10 == 0 then 0 else 0x1231,
    Xor(if i & 0x20 == 0 then 0 else 0x2462,
    Xor(if i & 0x40 == 0 then 0 else 0x48c4,
        if i & 0x80 == 0 then 0 else 0x9188)))))))
  }

  lemma SingleBits()
    ensures Eight(0) == 0
    ensures Eight(0x0100) == 0x1021 && Eight(0x0200) == 0x2042
    ensures Eight(0x0400) == 0x4084 && Eight(0x0800) == 0x8108
    ensures Eight(0x1000) == 0x1231 && Eight(0x2000) == 0x2462
    ensures Eight(0x4000) == 0x48c4 && Eight(0x8000) == 0x9188
  {}

  lemma Peel(i: bv8)
    ensures Lift(i) == Xor(Lift(i & 0x01), Lift(i & 0xfe))
    ensures Lift(i & 0xfe) == Xor(Lift(i & 0x02), Lift(i & 0xfc))
    ensures Lift(i & 0xfc) == Xor(Lift(i & 0x04), Lift(i & 0xf8))
    ensures Lift(i & 0xf8) == Xor(Lift(i & 0x08), Lift(i & 0xf0))
    ensures Lift(i & 0xf0) == Xor(Lift(i & 0x10), Lift(i & 0xe0))
    ensures Lift(i & 0xe0) == Xor(Lift(i & 0x20), Lift(i & 0xc0))
    ensures Lift(i & 0xc0) == Xor(Lift(i & 0x40), Lift(i & 0x80))
  {}

  lemma Masked(i: bv8)
    ensures Lift(i & 0x01) == if i & 0x01 == 0 then 0 else 0x0100
    ensures Lift(i & 0x02) == if i & 0x02 == 0 then 0 else 0x0200
    ensures Lift(i & 0x04) == if i & 0x04 == 0 then 0 else 0x0400
    ensures Lift(i & 0x08) == if i & 0x08 == 0 then 0 else 0x0800
    ensures Lift(i & 0x10) == if i & 0x10 == 0 then 0 else 0x1000
    ensures Lift(i & 0x20) == if i & 0x20 == 0 then 0 else 0x2000
    ensures Lift(i & 0x40) == if i & 0x40 == 0 then 0 else 0x4000
    ensures Lift(i & 0x80) == if i & 0x80 == 0 then 0 else 0x8000
  {}

  lemma EightIsSummed(i: bv8)
    ensures Eight(Lift(i)) == Summed(i)
  {
    hide Eight, Xor, Lift;
    Peel(i);
    Masked(i);
    SingleBits();
    EightXor(Lift(i & 0x01), Lift(i & 0xfe));
    EightXor(Lift(i & 0x02), Lift(i & 0xfc));
    EightXor(Lift(i & 0x04), Lift(i & 0xf8));
    EightXor(Lift(i & 0x08), Lift(i & 0xf0));
    EightXor(Lift(i & 0x10), Lift(i & 0xe0));
    EightXor(Lift(i & 0x20), Lift(i & 0xc0));
    EightXor(Lift(i & 0x40), Lift(i & 0x80));
  }

  predicate EntryOk(i: bv8) {
    Table(i) == Summed(i)
  }

  predicate RowOk(i: bv8) {
    && EntryOk(i) && EntryOk(i + 1) && EntryOk(i + 2) && EntryOk(i + 3)
    && EntryOk(i + 4) && EntryOk(i + 5) && EntryOk(i + 6) && EntryOk(i + 7)
    && EntryOk(i + 8) && EntryOk(i + 9) && EntryOk(i + 10) && EntryOk(i + 11)
    && EntryOk(i + 12) && EntryOk(i + 13) && EntryOk(i + 14) && EntryOk(i + 15)
  }

  lemma Row0() ensures RowOk(0x00) {}
  lemma Row1() ensures RowOk(0x10) {}
  lemma Row2() ensures RowOk(0x20) {}
  lemma Row3() ensures RowOk(0x30) {}
  lemma Row4() ensures RowOk(0x40) {}
  lemma Row5() ensures RowOk(0x50) {}
  lemma Row6() ensures RowOk(0x60) {}
  lemma Row7() ensures RowOk(0x70) {}
  lemma Row8() ensures RowOk(0x80) {}
  lemma Row9() ensures RowOk(0x90) {}
  lemma RowA() ensures RowOk(0xa0) {}
  lemma RowB() ensures RowOk(0xb0) {}
  lemma RowC() ensures RowOk(0xc0) {}
  lemma RowD() ensures RowOk(0xd0) {}
  lemma RowE() ensures RowOk(0xe0) {}
  lemma RowF() ensures RowOk(0xf0) {}

  lemma EntriesAreOk(i: bv8)
    ensures EntryOk(i)
  {
    hide EntryOk;
    Row0(); Row1(); Row2(); Row3(); Row4(); Row5(); Row6(); Row7();
    Row8(); Row9(); RowA(); RowB(); RowC(); RowD(); RowE(); RowF();
  }

  /** The entry for i is what eight bits of the division make of i. */
  lemma TableIsEight(i: bv8)
    ensures Table(i) == Eight(Lift(i))
  {
    hide Table, Summed, Eight;
    EntriesAreOk(i);
    EightIsSummed(i);
  }

  // ---- The hash ----

  function Top(r: bv16): bv8 { (r >> 8) as bv8 }

  function Bottom(r: bv16): bv8 { (r & 0xff) as bv8 }

  function Index(crc: bv32, b: bv8): bv8 {
    (((crc >> 8) ^ Signed(b)) & 0x00ff) as bv8
  }

  function Shifted(crc: bv32, entry: bv16): bv32 {
    (crc << 8) ^ (entry as bv32)
  }

  /** The register as the remainder and the two bytes above it. */
  function Packed(r: bv16, above: bv8, top: bv8): bv32 {
    (r as bv32) | ((above as bv32) << 16) | ((top as bv32) << 24)
  }

  function Mix(x: bv8, y: bv8): bv8 { x ^ y }

  function Second(crc: bv32): bv8 { ((crc >> 8) & 0xff) as bv8 }

  /** The sign of the char does not reach the table. */
  lemma IndexMixes(crc: bv32, b: bv8)
    ensures Index(crc, b) == Mix(Second(crc), b)
  {}

  lemma SecondIs(r: bv16, above: bv8, top: bv8)
    ensures Second(Packed(r, above, top)) == Top(r)
  {}

  lemma TopMixes(r: bv16, b: bv8)
    ensures Top(Xor(r, Lift(b))) == Mix(Top(r), b)
  {}

  lemma ShiftedIs(r: bv16, above: bv8, top: bv8, entry: bv16)
    ensures Shifted(Packed(r, above, top), entry) == Packed(Xor(entry, Lift(Bottom(r))), Top(r), above)
  {}

  lemma Parts(x: bv16)
    ensures Xor(Lift(Top(x)), Widen(Bottom(x))) == x
  {}

  lemma BottomIs(r: bv16, b: bv8)
    ensures Bottom(Xor(r, Lift(b))) == Bottom(r)
  {}

  /** One table step is eight bits of the division, and the top byte of the
      remainder it replaces moves up. */
  lemma StepIs(r: bv16, above: bv8, top: bv8, b: bv8)
    ensures var crc := Packed(r, above, top);
            Shifted(crc, Table(Index(crc, b))) == Packed(Eight(Xor(r, Lift(b))), Top(r), above)
  {
    hide *;
    var x := Xor(r, Lift(b));
    IndexMixes(Packed(r, above, top), b);
    SecondIs(r, above, top);
    TopMixes(r, b);
    ShiftedIs(r, above, top, Table(Top(x)));
    BottomIs(r, b);
    Parts(x);
    EightXor(Lift(Top(x)), Widen(Bottom(x)));
    TableIsEight(Top(x));
    EightLifts(Bottom(x));
  }

  /** The top byte of the remainder k bytes before the end of key; zero before the
      first byte. */
  function TopBack(key: seq<bv8>, k: nat): bv8 {
    if k <= |key| then Top(Remainder(key[..|key| - k])) else 0
  }

  lemma TopOfZero()
    ensures Top(0) == 0
    ensures Packed(0, 0, 0) == 0
  {}

  lemma OneFurther(key: seq<bv8>, b: bv8)
    ensures TopBack(key + [b], 1) == Top(Remainder(key))
    ensures TopBack(key + [b], 2) == TopBack(key, 1)
  {
    hide Remainder, Top;
    assert (key + [b])[..|key|] == key;
    if key != [] {
      assert (key + [b])[..|key| - 1] == key[..|key| - 1];
    }
  }

  function LowHalf(crc: bv32): bv16 { (crc & 0xffff) as bv16 }

  lemma LowHalfIs(r: bv16, above: bv8, top: bv8)
    ensures LowHalf(Packed(r, above, top)) == r
  {}

  /** hash_crc16: the remainder of the whole key in the low sixteen bits; above it
      the top bytes of the remainders one and two bytes before the end. */
  method HashCrc16(key: seq<bv8>) returns (hash: bv32)
    ensures LowHalf(hash) == Remainder(key)
    ensures hash == Packed(Remainder(key), TopBack(key, 1), TopBack(key, 2))
  {
    hide Eight, Xor, Lift, Top, LowHalf, Packed, Index, Shifted, Table;
    var crc: bv32 := 0;
    TopOfZero();
    for i := 0 to |key|
      invariant crc == Packed(Remainder(key[..i]), TopBack(key[..i], 1), TopBack(key[..i], 2))
    {
      assert key[..i + 1] == key[..i] + [key[i]];
      OneFurther(key[..i], key[i]);
      StepIs(Remainder(key[..i]), TopBack(key[..i], 1), TopBack(key[..i], 2), key[i]);
      crc := Shifted(crc, Table(Index(crc, key[i])));
    }
    assert key[..|key|] == key;
    LowHalfIs(Remainder(key), TopBack(key, 1), TopBack(key, 2));
    hash := crc;
  }

  // ---- A burst of up to 16 bits never goes unnoticed ----

  /** The last step undone: the low bit tells whether the divisor was taken off. */
  function Unbit(c: bv16): bv16 {
    if c & 1 == 0 then c >> 1 else ((c ^ 0x1021) >> 1) | 0x8000
  }

  lemma UnbitCarried(c: bv16)
    requires Carries(c)
    ensures Unbit((c << 1) ^ 0x1021) == c
  {}

  lemma UnbitShifted(c: bv16)
    requires !Carries(c)
    ensures Unbit(c << 1) == c
  {}

  lemma UnbitUndoes(c: bv16)
    ensures Unbit(Bit(c)) == c
  {
    hide Unbit;
    if Carries(c) {
      UnbitCarried(c);
      assert Bit(c) == (c << 1) ^ 0x1021;
    } else {
      UnbitShifted(c);
    }
  }

  lemma BitInjective(u: bv16, v: bv16)
    requires Bit(u) == Bit(v)
    ensures u == v
  {
    hide Bit, Unbit;
    UnbitUndoes(u);
    UnbitUndoes(v);
  }

  lemma EightInjective(u: bv16, v: bv16)
    requires Eight(u) == Eight(v)
    ensures u == v
  {
    hide Bit;
    var u1, v1 := Bit(u), Bit(v);
    var u2, v2 := Bit(u1), Bit(v1);
    var u3, v3 := Bit(u2), Bit(v2);
    var u4, v4 := Bit(u3), Bit(v3);
    var u5, v5 := Bit(u4), Bit(v4);
    var u6, v6 := Bit(u5), Bit(v5);
    var u7, v7 := Bit(u6), Bit(v6);
    BitInjective(u7, v7); BitInjective(u6, v6); BitInjective(u5, v5); BitInjective(u4, v4);
    BitInjective(u3, v3); BitInjective(u2, v2); BitInjective(u1, v1); BitInjective(u, v);
  }

  lemma XorBack(x: bv16, y: bv16)
    ensures Xor(Xor(x, y), y) == x
    ensures Xor(Xor(x, y), x) == y
  {}

  lemma XorInjective(x: bv16, z: bv16, y: bv16)
    ensures Xor(x, y) == Xor(z, y) ==> x == z
    ensures Xor(y, x) == Xor(y, z) ==> x == z
  {
    hide Xor;
    XorBack(x, y);
    XorBack(z, y);
    XorBack(y, x);
    XorBack(y, z);
  }

  lemma {:induction false} RegisterSplits(c: bv16, p: seq<bv8>, s: seq<bv8>)
    ensures Register(c, p + s) == Register(Register(c, p), s)
  {
    hide Eight, Xor, Lift;
    if s == [] {
      assert p + s == p;
    } else {
      var f := s[..|s| - 1];
      assert (p + s)[..|p + s| - 1] == p + f;
      RegisterSplits(c, p, f);
    }
  }

  /** Bytes that follow do not bring two different registers together. */
  lemma {:induction false} RegisterInjective(c: bv16, d: bv16, s: seq<bv8>)
    requires Register(c, s) == Register(d, s)
    ensures c == d
  {
    hide Eight, Xor, Lift;
    if s == [] {
    } else {
      var f, b := s[..|s| - 1], Lift(s[|s| - 1]);
      EightInjective(Xor(Register(c, f), b), Xor(Register(d, f), b));
      XorInjective(Register(c, f), Register(d, f), b);
      RegisterInjective(c, d, f);
    }
  }

  lemma OneByte(c: bv16, a: bv8)
    ensures Register(c, [a]) == Eight(Xor(c, Lift(a)))
  {
    hide Eight, Xor, Lift;
    assert [a][..0] == [];
  }

  function Word(a: bv8, b: bv8): bv16 { Xor(Lift(a), Widen(b)) }

  /** Two consecutive bytes act on the register as one word. */
  lemma TwoBytes(c: bv16, a: bv8, b: bv8)
    ensures Register(c, [a, b]) == Eight(Eight(Xor(c, Word(a, b))))
  {
    hide Eight, Xor, Lift, Widen, Register;
    var x := Xor(c, Lift(a));
    assert [a, b] == [a] + [b];
    RegisterSplits(c, [a], [b]);
    OneByte(c, a);
    OneByte(Eight(x), b);
    EightLifts(b);
    EightXor(x, Widen(b));
    XorMoves(c, Lift(a), Widen(b));
  }

  lemma WordBytes(a: bv8, b: bv8)
    ensures Top(Word(a, b)) == a
    ensures Bottom(Word(a, b)) == b
  {}

  lemma LiftBack(a: bv8)
    ensures Top(Lift(a)) == a
  {}

  /** One or two different bytes lead to different registers. */
  lemma WindowInjective(c: bv16, v: seq<bv8>, w: seq<bv8>)
    requires |v| == |w| <= 2
    requires Register(c, v) == Register(c, w)
    ensures v == w
  {
    hide Eight, Xor, Lift, Top, Bottom, Register, Word;
    if |v| == 2 {
      assert v == [v[0], v[1]] && w == [w[0], w[1]];
      TwoBytes(c, v[0], v[1]);
      TwoBytes(c, w[0], w[1]);
      var x, y := Word(v[0], v[1]), Word(w[0], w[1]);
      EightInjective(Eight(Xor(c, x)), Eight(Xor(c, y)));
      EightInjective(Xor(c, x), Xor(c, y));
      XorInjective(x, y, c);
      WordBytes(v[0], v[1]);
      WordBytes(w[0], w[1]);
    } else if |v| == 1 {
      assert v == [v[0]] && w == [w[0]];
      OneByte(c, v[0]);
      OneByte(c, w[0]);
      EightInjective(Xor(c, Lift(v[0])), Xor(c, Lift(w[0])));
      XorInjective(Lift(v[0]), Lift(w[0]), c);
      LiftBack(v[0]);
      LiftBack(w[0]);
    }
  }

  /** Keys that differ only within two consecutive bytes have different remainders. */
  lemma BurstIsSeen(p: seq<bv8>, v: seq<bv8>, w: seq<bv8>, s: seq<bv8>)
    requires |v| == |w| <= 2
    requires v != w
    ensures Remainder(p + v + s) != Remainder(p + w + s)
  {
    hide Register;
    var c := Register(0, p);
    RegisterSplits(0, p, v);
    RegisterSplits(0, p, w);
    RegisterSplits(0, p + v, s);
    RegisterSplits(0, p + w, s);
    if Remainder(p + v + s) == Remainder(p + w + s) {
      RegisterInjective(Register(c, v), Register(c, w), s);
      WindowInjective(c, v, w);
    }
  }

  // ---- The check value ----

  lemma RegisterNext(c: bv16, p: seq<bv8>, b: bv8)
    ensures Register(c, p + [b]) == Eight(Xor(Register(c, p), Lift(b)))
  {
    hide Eight, Xor, Lift;
    assert (p + [b])[..|p|] == p;
  }

  lemma CheckBytes1()
    ensures Eight(Xor(0x0000, Lift(0x31))) == 0x2672
    ensures Eight(Xor(0x2672, Lift(0x32))) == 0x20b5
    ensures Eight(Xor(0x20b5, Lift(0x33))) == 0x9752
  {}

  lemma CheckBytes4()
    ensures Eight(Xor(0x9752, Lift(0x34))) == 0xd789
    ensures Eight(Xor(0xd789, Lift(0x35))) == 0x546c
    ensures Eight(Xor(0x546c, Lift(0x36))) == 0x20e4
  {}

  lemma CheckBytes7()
    ensures Eight(Xor(0x20e4, Lift(0x37))) == 0x86d6
    ensures Eight(Xor(0x86d6, Lift(0x38))) == 0x9015
    ensures Eight(Xor(0x9015, Lift(0x39))) == 0x31c3
  {}

  lemma CheckBytesPacked()
    ensures Top(0x9015) == 0x90 && Top(0x86d6) == 0x86
    ensures Packed(0x31c3, 0x90, 0x86) == 0x869031c3
  {}

  /** The remainder of "123456789" is the check value of this CRC, and the whole register of the hash 0x869031c3. */
  lemma CheckValue()
    ensures var key := [0x31, 0x32, 0x33, 0x34, 0x35, 0x36, 0x37, 0x38, 0x39];
      Remainder(key) == 0x31c3 && Packed(Remainder(key), TopBack(key, 1), TopBack(key, 2)) == 0x869031c3
  {
    hide Eight, Xor, Lift, Top, Packed;
    CheckBytes1();
    CheckBytes4();
    CheckBytes7();
    CheckBytesPacked();
    var p: seq<bv8> := [];
    RegisterNext(0, p, 0x31);
    p := p + [0x31];
    assert Remainder(p) == 0x2672;
    RegisterNext(0, p, 0x32);
    p := p + [0x32];
    assert Remainder(p) == 0x20b5;
    RegisterNext(0, p, 0x33);
    p := p + [0x33];
    assert Remainder(p) == 0x9752;
    RegisterNext(0, p, 0x34);
    p := p + [0x34];
    assert Remainder(p) == 0xd789;
    RegisterNext(0, p, 0x35);
    p := p + [0x35];
    assert Remainder(p) == 0x546c;
    RegisterNext(0, p, 0x36);
    p := p + [0x36];
    assert Remainder(p) == 0x20e4;
    RegisterNext(0, p, 0x37);
    p := p + [0x37];
    assert Remainder(p) == 0x86d6;
    var seven := p;
    RegisterNext(0, p, 0x38);
    p := p + [0x38];
    assert Remainder(p) == 0x9015;
    var eight := p;
    RegisterNext(0, p, 0x39);
    p := p + [0x39];
    assert Remainder(p) == 0x31c3;
    assert p == [0x31, 0x32, 0x33, 0x34, 0x35, 0x36, 0x37, 0x38, 0x39];
    assert p[..8] == eight && p[..7] == seven;
  }
}
