/**
  The murmur hash of nc_murmur.c on a little-endian machine: a loop over 4-byte
  blocks, a fall-through tail and a final mix, each undone by an explicit inverse
  modulo 2^32.
*/
module Murmur {
  import opened Chars
  import opened Word32

  // ---- The steps ----

  /** Times m. */
  function Times(h: bv32): bv32 { h * 0x5bd1e995 }

  function Fold24(k: bv32): bv32 { k ^ (k >> 24) }

  function Fold13(h: bv32): bv32 { h ^ (h >> 13) }

  function Fold15(h: bv32): bv32 { h ^ (h >> 15) }

  function Scramble(n: bv32): bv32 { (0xdeadbeef * n) ^ n }

  /** The length as uint32_t. */
  function Cut(length: nat): bv32 { (length % 0x1_0000_0000) as bv32 }

  function Seed(length: nat): bv32 { Scramble(Cut(length)) }

  /** Four bytes read as an unsigned int. */
  function Load(a: bv8, b: bv8, c: bv8, d: bv8): bv32 {
    (a as bv32) | ((b as bv32) << 8) | ((c as bv32) << 16) | ((d as bv32) << 24)
  }

  /** A block taken into the hash. */
  function Block(h: bv32, k: bv32): bv32 {
    Xor(Times(h), Times(Fold24(Times(k))))
  }

  function At0(b: bv8): bv32 { b as bv32 }

  function At8(b: bv8): bv32 { (b as bv32) << 8 }

  function At16(b: bv8): bv32 { (b as bv32) << 16 }

  /** The last one to three bytes taken into the hash. */
  function Tail(h: bv32, t: seq<bv8>): bv32
    requires |t| < 4
  {
    if |t| == 3 then Times(Xor(Xor(Xor(h, At16(t[2])), At8(t[1])), At0(t[0])))
    else if |t| == 2 then Times(Xor(Xor(h, At8(t[1])), At0(t[0])))
    else if |t| == 1 then Times(Xor(h, At0(t[0])))
    else h
  }

  /** The bytes of data taken into the hash. */
  function Mixed(h: bv32, data: seq<bv8>): bv32
    decreases |data|
  {
    if |data| < 4 then Tail(h, data)
    else Mixed(Block(h, Load(data[0], data[1], data[2], data[3])), data[4..])
  }

  function Finish(h: bv32): bv32 { Fold15(Times(Fold13(h))) }

  function Hash(key: seq<bv8>): bv32 { Finish(Mixed(Seed(|key|), key)) }

  // ---- The inverses ----

  function Untimes(h: bv32): bv32 { h * 0xe59b19bd }

  function Unfold24(k: bv32): bv32 { k ^ (k >> 24) }

  function Unfold13(h: bv32): bv32 { h ^ (h >> 13) ^ (h >> 26) }

  function Unfold15(h: bv32): bv32 { h ^ (h >> 15) ^ (h >> 30) }

  lemma UntimesIs(h: bv32)
    ensures Untimes(h * 0x5bd1e995) == h
  {}

  lemma Unfold24Is(k: bv32)
    ensures Unfold24(k ^ (k >> 24)) == k
  {}

  lemma Unfold13Is(h: bv32)
    ensures Unfold13(h ^ (h >> 13)) == h
  {}

  lemma Unfold15Is(h: bv32)
    ensures Unfold15(h ^ (h >> 15)) == h
  {}

  lemma TimesInjective(x: bv32, y: bv32)
    ensures Times(x) == Times(y) ==> x == y
  {
    hide Untimes;
    UntimesIs(x);
    UntimesIs(y);
  }

  lemma Fold24Injective(x: bv32, y: bv32)
    ensures Fold24(x) == Fold24(y) ==> x == y
  {
    hide Unfold24;
    Unfold24Is(x);
    Unfold24Is(y);
  }

  lemma Fold13Injective(x: bv32, y: bv32)
    ensures Fold13(x) == Fold13(y) ==> x == y
  {
    hide Unfold13;
    Unfold13Is(x);
    Unfold13Is(y);
  }

  lemma Fold15Injective(x: bv32, y: bv32)
    ensures Fold15(x) == Fold15(y) ==> x == y
  {
    hide Unfold15;
    Unfold15Is(x);
    Unfold15Is(y);
  }

  lemma FinishInjective(x: bv32, y: bv32)
    ensures Finish(x) == Finish(y) ==> x == y
  {
    hide Times, Fold13, Fold15;
    Fold15Injective(Times(Fold13(x)), Times(Fold13(y)));
    TimesInjective(Fold13(x), Fold13(y));
    Fold13Injective(x, y);
  }

  lemma BlockInjective(h: bv32, g: bv32, k: bv32, l: bv32)
    ensures Block(h, k) == Block(g, k) ==> h == g
    ensures Block(h, k) == Block(h, l) ==> k == l
  {
    hide Times, Fold24, Xor;
    var kk, ll := Times(Fold24(Times(k))), Times(Fold24(Times(l)));
    XorInjective(Times(h), Times(g), kk);
    TimesInjective(h, g);
    XorInjective(kk, ll, Times(h));
    TimesInjective(Fold24(Times(k)), Fold24(Times(l)));
    Fold24Injective(Times(k), Times(l));
    TimesInjective(k, l);
  }

  function Byte1(x: bv32): bv8 { ((x >> 8) & 0xff) as bv8 }

  function Byte2(x: bv32): bv8 { ((x >> 16) & 0xff) as bv8 }

  function Byte3(x: bv32): bv8 { (x >> 24) as bv8 }

  lemma LoadBytes(a: bv8, b: bv8, c: bv8, d: bv8)
    ensures Low(Load(a, b, c, d)) == a
    ensures Byte1(Load(a, b, c, d)) == b
    ensures Byte2(Load(a, b, c, d)) == c
    ensures Byte3(Load(a, b, c, d)) == d
  {}

  lemma TailInjective(h: bv32, g: bv32, t: seq<bv8>)
    requires |t| < 4
    requires h != g
    ensures Tail(h, t) != Tail(g, t)
  {
    hide Times, Xor, At0, At8, At16;
    if |t| == 3 {
      var c, b, a := At16(t[2]), At8(t[1]), At0(t[0]);
      TimesInjective(Xor(Xor(Xor(h, c), b), a), Xor(Xor(Xor(g, c), b), a));
      XorInjective(Xor(Xor(h, c), b), Xor(Xor(g, c), b), a);
      XorInjective(Xor(h, c), Xor(g, c), b);
      XorInjective(h, g, c);
    } else if |t| == 2 {
      var b, a := At8(t[1]), At0(t[0]);
      TimesInjective(Xor(Xor(h, b), a), Xor(Xor(g, b), a));
      XorInjective(Xor(h, b), Xor(g, b), a);
      XorInjective(h, g, b);
    } else if |t| == 1 {
      TimesInjective(Xor(h, At0(t[0])), Xor(g, At0(t[0])));
      XorInjective(h, g, At0(t[0]));
    }
  }

  /** The tail as one word that the hash is xored with. */
  function TailWord(t: seq<bv8>): bv32
    requires 0 < |t| < 4
  {
    if |t| == 3 then Xor(At16(t[2]), Xor(At8(t[1]), At0(t[0])))
    else if |t| == 2 then Xor(At8(t[1]), At0(t[0]))
    else At0(t[0])
  }

  lemma TailIs(h: bv32, t: seq<bv8>)
    requires 0 < |t| < 4
    ensures Tail(h, t) == Times(Xor(h, TailWord(t)))
  {
    hide Times, Xor, At0, At8, At16;
    if |t| == 3 {
      var c, b, a := At16(t[2]), At8(t[1]), At0(t[0]);
      XorMoves(Xor(h, c), b, a);
      XorMoves(h, c, Xor(b, a));
    } else if |t| == 2 {
      XorMoves(h, At8(t[1]), At0(t[0]));
    }
  }

  lemma ThreeBytes(a: bv8, b: bv8, c: bv8)
    ensures Low(Xor(At16(c), Xor(At8(b), At0(a)))) == a
    ensures Byte1(Xor(At16(c), Xor(At8(b), At0(a)))) == b
    ensures Byte2(Xor(At16(c), Xor(At8(b), At0(a)))) == c
  {}

  lemma TwoBytes(a: bv8, b: bv8)
    ensures Low(Xor(At8(b), At0(a))) == a
    ensures Byte1(Xor(At8(b), At0(a))) == b
  {}

  lemma OneByte(a: bv8)
    ensures Low(At0(a)) == a
  {}

  lemma TailWordInjective(v: seq<bv8>, w: seq<bv8>)
    requires 0 < |v| == |w| < 4
    requires TailWord(v) == TailWord(w)
    ensures v == w
  {
    hide Xor, At0, At8, At16, Low, Byte1, Byte2;
    if |v| == 3 {
      ThreeBytes(v[0], v[1], v[2]);
      ThreeBytes(w[0], w[1], w[2]);
    } else if |v| == 2 {
      TwoBytes(v[0], v[1]);
      TwoBytes(w[0], w[1]);
    } else {
      OneByte(v[0]);
      OneByte(w[0]);
    }
  }

  lemma TailSeparates(h: bv32, v: seq<bv8>, w: seq<bv8>)
    requires |v| == |w| < 4
    requires v != w
    ensures Tail(h, v) != Tail(h, w)
  {
    hide Tail, Times, Xor, TailWord;
    TailIs(h, v);
    TailIs(h, w);
    TimesInjective(Xor(h, TailWord(v)), Xor(h, TailWord(w)));
    XorInjective(TailWord(v), TailWord(w), h);
    if TailWord(v) == TailWord(w) {
      TailWordInjective(v, w);
    }
  }

  // ---- Keys that differ in one place never collide ----

  lemma {:induction false} MixedKeepsApart(h: bv32, g: bv32, data: seq<bv8>)
    requires h != g
    ensures Mixed(h, data) != Mixed(g, data)
    decreases |data|
  {
    hide Tail, Block, Load;
    if |data| < 4 {
      TailInjective(h, g, data);
    } else {
      var k := Load(data[0], data[1], data[2], data[3]);
      BlockInjective(h, g, k, k);
      MixedKeepsApart(Block(h, k), Block(g, k), data[4..]);
    }
  }

  lemma FirstBlockDiffers(h: bv32, v: seq<bv8>, w: seq<bv8>, after: seq<bv8>)
    requires |v| == |w| == 4
    requires v != w
    ensures Mixed(h, v + after) != Mixed(h, w + after)
  {
    hide Tail, Block, Load, Low, Byte1, Byte2, Byte3;
    assert (v + after)[4..] == after && (w + after)[4..] == after;
    var k, l := Load(v[0], v[1], v[2], v[3]), Load(w[0], w[1], w[2], w[3]);
    LoadBytes(v[0], v[1], v[2], v[3]);
    LoadBytes(w[0], w[1], w[2], w[3]);
    BlockInjective(h, h, k, l);
    MixedKeepsApart(Block(h, k), Block(h, l), after);
  }

  /** v and w stand at the same place: a whole block each, or a tail each. */
  lemma {:induction false} PlaceDiffers(h: bv32, before: seq<bv8>, v: seq<bv8>, w: seq<bv8>, after: seq<bv8>)
    requires |before| % 4 == 0
    requires |v| == |w| == 4 || (|v| == |w| < 4 && after == [])
    requires v != w
    ensures Mixed(h, before + v + after) != Mixed(h, before + w + after)
    decreases |before|
  {
    hide Tail, Block, Load;
    var x, y := before + v + after, before + w + after;
    if before == [] {
      assert x == v + after && y == w + after;
      if |v| == 4 {
        FirstBlockDiffers(h, v, w, after);
      } else {
        assert x == v && y == w;
        TailSeparates(h, v, w);
      }
    } else {
      var rest := before[4..];
      assert x[4..] == rest + v + after && y[4..] == rest + w + after;
      assert x[..4] == before[..4] && y[..4] == before[..4];
      PlaceDiffers(Block(h, Load(x[0], x[1], x[2], x[3])), rest, v, w, after);
    }
  }

  /** Keys of one length that differ only in one 4-byte block, or only in the tail,
      never collide. */
  lemma OnePlaceNeverCollides(before: seq<bv8>, v: seq<bv8>, w: seq<bv8>, after: seq<bv8>)
    requires |before| % 4 == 0
    requires |v| == |w| == 4 || (|v| == |w| < 4 && after == [])
    requires v != w
    ensures Hash(before + v + after) != Hash(before + w + after)
  {
    hide Mixed, Seed, Finish;
    var seed := Seed(|before + v + after|);
    PlaceDiffers(seed, before, v, w, after);
    FinishInjective(Mixed(seed, before + v + after), Mixed(seed, before + w + after));
  }

  // ---- The code ----

  method HashMurmur(key: seq<bv8>) returns (h: bv32)
    ensures h == Hash(key)
  {
    hide Seed, Load, Times, Fold24, Fold13, Fold15, Xor, At0, At8, At16;
    h := Seed(|key|);
    var data, length := 0, |key|;
    while length >= 4
      invariant 0 <= data && 0 <= length && data + length == |key|
      invariant Mixed(h, key[data..]) == Mixed(Seed(|key|), key)
    {
      var k := Load(key[data], key[data + 1], key[data + 2], key[data + 3]);
      assert key[data..][4..] == key[data + 4..];
      ghost var before := h;
      ghost var word := k;
      k := Times(k);
      k := Fold24(k);
      k := Times(k);
      h := Times(h);
      h := Xor(h, k);
      assert h == Block(before, word);
      data, length := data + 4, length - 4;
    }
    ghost var whole, tail := h, key[data..];
    if length == 3 {
      h := Xor(h, At16(key[data + 2]));
    }
    if length >= 2 {
      h := Xor(h, At8(key[data + 1]));
    }
    if length >= 1 {
      h := Xor(h, At0(key[data]));
      h := Times(h);
    }
    assert h == Tail(whole, tail);
    h := Fold13(h);
    h := Times(h);
    h := Fold15(h);
  }

  // ---- Known answer ----

  lemma LowBits(length: nat)
    ensures (length + 0x1_0000_0000) % 0x1_0000_0000 == length % 0x1_0000_0000
  {}

  /** Only the low 32 bits of the length count. */
  lemma SeedWraps(length: nat)
    ensures Seed(length + 0x1_0000_0000) == Seed(length)
  {
    hide Scramble;
    LowBits(length);
  }

  lemma SevenIs()
    ensures 7 % 0x1_0000_0000 == 7
  {}

  lemma SevenCut()
    ensures Cut(7) == 7
  {
    SevenIs();
  }

  lemma SevenScrambled()
    ensures Scramble(7) == 0x16c0388e
  {}

  lemma SeedOfSeven()
    ensures Seed(7) == 0x16c0388e
  {
    hide Cut, Scramble;
    SevenCut();
    SevenScrambled();
  }

  lemma Loaded()
    ensures Load(0x61, 0x62, 0x63, 0x64) == 0x64636261
  {}

  lemma Mixing()
    ensures Times(0x64636261) == 0xae938b75 && Fold24(0xae938b75) == 0xae938bdb && Times(0xae938bdb) == 0xecf5b977
    ensures Times(0x16c0388e) == 0xd74828a6 && Xor(0xd74828a6, 0xecf5b977) == 0x3bbd91d1
  {}

  lemma Ending()
    ensures Xor(0x3bbd91d1, At16(0xff)) == 0x3b4291d1 && Xor(0x3b4291d1, At8(0x66)) == 0x3b42f7d1
    ensures Xor(0x3b42f7d1, At0(0x65)) == 0x3b42f7b4 && Times(0x3b42f7b4) == 0xa760ffc4
    ensures Fold13(0xa760ffc4) == 0xa765c4c3 && Times(0xa765c4c3) == 0x0284007f && Fold15(0x0284007f) == 0x02840577
  {}

  /** A key of one block and a tail of three bytes. */
  lemma Answer()
    ensures Hash([0x61, 0x62, 0x63, 0x64, 0x65, 0x66, 0xff]) == 0x02840577
  {
    var key: seq<bv8> := [0x61, 0x62, 0x63, 0x64, 0x65, 0x66, 0xff];
    hide Seed, Load, Times, Fold24, Fold13, Fold15, Xor, At0, At8, At16;
    SeedOfSeven();
    Loaded();
    Mixing();
    Ending();
    var tail := key[4..];
    assert tail == [0x65, 0x66, 0xff];
    assert Block(0x16c0388e, 0x64636261) == 0x3bbd91d1;
    assert Mixed(0x3bbd91d1, tail) == 0xa760ffc4;
    assert Mixed(0x16c0388e, key) == 0xa760ffc4;
  }
}
