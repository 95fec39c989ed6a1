/**
  The four FNV hashes of nc_fnv.c. Multiplying by an odd number and xor with a
  byte are bijections modulo 2^32, so no later byte can undo a difference; the
  64-bit FNV-1 loop leaves in its low half what a 32-bit loop computes.
*/
module Fnv {
  import opened Bytewise
  import opened Chars
  import opened Word32

  /** Times FNV_32_PRIME. */
  function Times(h: bv32): bv32 { h * 16777619 }

  /** Times the low half of FNV_64_PRIME. */
  function TimesLow(h: bv32): bv32 { h * 0x1b3 }

  function Fnv1(h: bv32, b: bv8): bv32 { Xor(Times(h), Signed(b)) }

  function Fnv1a(h: bv32, b: bv8): bv32 { Times(Xor(h, Signed(b))) }

  function Fnv1Low(h: bv32, b: bv8): bv32 { Xor(TimesLow(h), Signed(b)) }

  function Fnv1aLow(h: bv32, b: bv8): bv32 { TimesLow(Xor(h, Signed(b))) }

  // ---- Every step can be undone ----

  function Untimes(h: bv32): bv32 { h * 0x359c449b }

  lemma UntimesUndoes(h: bv32)
    ensures Untimes(h * 16777619) == h
  {}

  lemma TimesInjective(h: bv32, g: bv32)
    requires Times(h) == Times(g)
    ensures h == g
  {
    hide Untimes;
    UntimesUndoes(h);
    UntimesUndoes(g);
  }

  function UntimesLow(h: bv32): bv32 { h * 0xaff6957b }

  lemma UntimesLowUndoes(h: bv32)
    ensures UntimesLow(h * 0x1b3) == h
  {}

  lemma TimesLowInjective(h: bv32, g: bv32)
    requires TimesLow(h) == TimesLow(g)
    ensures h == g
  {
    hide UntimesLow;
    UntimesLowUndoes(h);
    UntimesLowUndoes(g);
  }

  lemma Fnv1Keeps()
    ensures Reversible(Fnv1) && Separates(Fnv1)
  {
    hide Xor, Times, Signed;
    forall h, g, b | Fnv1(h, b) == Fnv1(g, b) ensures h == g {
      XorInjective(Times(h), Times(g), Signed(b));
      TimesInjective(h, g);
    }
    forall h, a, b | Fnv1(h, a) == Fnv1(h, b) ensures a == b {
      XorInjective(Signed(a), Signed(b), Times(h));
      SignedInjective(a, b);
    }
  }

  lemma Fnv1aKeeps()
    ensures Reversible(Fnv1a) && Separates(Fnv1a)
  {
    hide Xor, Times, Signed;
    forall h, g, b | Fnv1a(h, b) == Fnv1a(g, b) ensures h == g {
      TimesInjective(Xor(h, Signed(b)), Xor(g, Signed(b)));
      XorInjective(h, g, Signed(b));
    }
    forall h, a, b | Fnv1a(h, a) == Fnv1a(h, b) ensures a == b {
      TimesInjective(Xor(h, Signed(a)), Xor(h, Signed(b)));
      XorInjective(Signed(a), Signed(b), h);
      SignedInjective(a, b);
    }
  }

  lemma Fnv1LowKeeps()
    ensures Reversible(Fnv1Low) && Separates(Fnv1Low)
  {
    hide Xor, TimesLow, Signed;
    forall h, g, b | Fnv1Low(h, b) == Fnv1Low(g, b) ensures h == g {
      XorInjective(TimesLow(h), TimesLow(g), Signed(b));
      TimesLowInjective(h, g);
    }
    forall h, a, b | Fnv1Low(h, a) == Fnv1Low(h, b) ensures a == b {
      XorInjective(Signed(a), Signed(b), TimesLow(h));
      SignedInjective(a, b);
    }
  }

  lemma Fnv1aLowKeeps()
    ensures Reversible(Fnv1aLow) && Separates(Fnv1aLow)
  {
    hide Xor, TimesLow, Signed;
    forall h, g, b | Fnv1aLow(h, b) == Fnv1aLow(g, b) ensures h == g {
      TimesLowInjective(Xor(h, Signed(b)), Xor(g, Signed(b)));
      XorInjective(h, g, Signed(b));
    }
    forall h, a, b | Fnv1aLow(h, a) == Fnv1aLow(h, b) ensures a == b {
      TimesLowInjective(Xor(h, Signed(a)), Xor(h, Signed(b)));
      XorInjective(Signed(a), Signed(b), h);
      SignedInjective(a, b);
    }
  }

  // ---- The hashes ----

  const FNV_32_INIT: bv32 := 2166136261
  const FNV_64_INIT: bv64 := 0xcbf29ce484222325

  function Truncated(h: bv64): bv32 { (h & 0xffff_ffff) as bv32 }

  lemma InitTruncates()
    ensures Truncated(FNV_64_INIT) == 0x84222325
  {}

  function Hash32(key: seq<bv8>): bv32 { Run(Fnv1, FNV_32_INIT, key) }

  function Hash32a(key: seq<bv8>): bv32 { Run(Fnv1a, FNV_32_INIT, key) }

  function Hash64(key: seq<bv8>): bv32 { Run(Fnv1Low, 0x84222325, key) }

  function Hash64a(key: seq<bv8>): bv32 { Run(Fnv1aLow, 0x84222325, key) }

  /** No two keys that differ in exactly one byte collide, in any of the four. */
  lemma OneByteNeverCollides(before: seq<bv8>, a: bv8, b: bv8, after: seq<bv8>)
    requires a != b
    ensures Hash32(before + [a] + after) != Hash32(before + [b] + after)
    ensures Hash32a(before + [a] + after) != Hash32a(before + [b] + after)
    ensures Hash64(before + [a] + after) != Hash64(before + [b] + after)
    ensures Hash64a(before + [a] + after) != Hash64a(before + [b] + after)
  {
    hide Run, Reversible, Separates;
    Fnv1Keeps();
    Fnv1aKeeps();
    Fnv1LowKeeps();
    Fnv1aLowKeeps();
    OneByteDiffers(Fnv1, FNV_32_INIT, before, a, b, after);
    OneByteDiffers(Fnv1a, FNV_32_INIT, before, a, b, after);
    OneByteDiffers(Fnv1Low, 0x84222325, before, a, b, after);
    OneByteDiffers(Fnv1aLow, 0x84222325, before, a, b, after);
  }

  method HashFnv1_32(key: seq<bv8>) returns (hash: bv32)
    ensures hash == Hash32(key)
  {
    hide Signed, Xor, Times, TimesLow;
    hash := FNV_32_INIT;
    for x := 0 to |key|
      invariant Run(Fnv1, hash, key[x..]) == Hash32(key)
    {
      assert key[x..][1..] == key[x + 1..];
      var val := Signed(key[x]);
      ghost var before := hash;
      hash := Times(hash);
      hash := Xor(hash, val);
      assert hash == Fnv1(before, key[x]);
    }
  }

  method HashFnv1a_32(key: seq<bv8>) returns (hash: bv32)
    ensures hash == Hash32a(key)
  {
    hide Signed, Xor, Times, TimesLow;
    hash := FNV_32_INIT;
    for x := 0 to |key|
      invariant Run(Fnv1a, hash, key[x..]) == Hash32a(key)
    {
      assert key[x..][1..] == key[x + 1..];
      var val := Signed(key[x]);
      ghost var before := hash;
      hash := Xor(hash, val);
      hash := Times(hash);
      assert hash == Fnv1a(before, key[x]);
    }
  }

  method HashFnv1a_64(key: seq<bv8>) returns (hash: bv32)
    ensures hash == Hash64a(key)
  {
    hide Signed, Xor, Times, TimesLow;
    hash := Truncated(FNV_64_INIT);
    InitTruncates();
    for x := 0 to |key|
      invariant Run(Fnv1aLow, hash, key[x..]) == Hash64a(key)
    {
      assert key[x..][1..] == key[x + 1..];
      var val := Signed(key[x]);
      ghost var before := hash;
      hash := Xor(hash, val);
      hash := TimesLow(hash);
      assert hash == Fnv1aLow(before, key[x]);
    }
  }

  function Times64(h: bv64): bv64 { h * 0x100000001b3 }

  function Xor64(x: bv64, y: bv64): bv64 { x ^ y }

  lemma ProductTruncates(h: bv64)
    ensures ((h * 0x100000001b3) & 0xffff_ffff) as bv32 == ((h & 0xffff_ffff) as bv32) * 0x1b3
  {}

  lemma TimesTruncates(h: bv64)
    ensures Truncated(Times64(h)) == TimesLow(Truncated(h))
  {
    assert Truncated(h * 0x100000001b3) == TimesLow((h & 0xffff_ffff) as bv32) by {
      ProductTruncates(h);
    }
    assert Truncated(h) == (h & 0xffff_ffff) as bv32;
    hide Truncated, TimesLow;
  }

  lemma XorTruncates(x: bv64, y: bv64)
    ensures Truncated(Xor64(x, y)) == Xor(Truncated(x), Truncated(y))
  {}

  lemma SignedTruncates(b: bv8)
    ensures Truncated(Signed64(b)) == Signed(b)
  {}

  /** The low half of the 64-bit step depends only on the low half of the hash. */
  lemma StepTruncates(h: bv64, b: bv8)
    ensures Truncated(Xor64(Times64(h), Signed64(b))) == Fnv1Low(Truncated(h), b)
  {
    hide Truncated, Times64, TimesLow, Xor64, Xor, Signed64, Signed;
    TimesTruncates(h);
    XorTruncates(Times64(h), Signed64(b));
    SignedTruncates(b);
  }

  /** The 64-bit loop, truncated at the end, is the 32-bit loop. */
  method HashFnv1_64(key: seq<bv8>) returns (hash: bv32)
    ensures hash == Hash64(key)
  {
    hide Signed64, Xor64, Times64, Truncated, Fnv1Low;
    var wide := FNV_64_INIT;
    InitTruncates();
    for x := 0 to |key|
      invariant Run(Fnv1Low, Truncated(wide), key[x..]) == Hash64(key)
    {
      assert key[x..][1..] == key[x + 1..];
      StepTruncates(wide, key[x]);
      wide := Times64(wide);
      wide := Xor64(wide, Signed64(key[x]));
    }
    hash := Truncated(wide);
  }

  // ---- Known answers: the published ones for "foobar", and those with a char after it that is negative ----

  lemma Fnv1Steps()
    ensures Fnv1(0x811c9dc5, 0x66) == 0x050c5d79
    ensures Fnv1(0x050c5d79, 0x6f) == 0x6b772514
    ensures Fnv1(0x6b772514, 0x6f) == 0x408f5e13
    ensures Fnv1(0x408f5e13, 0x62) == 0xb4b1178b
    ensures Fnv1(0xb4b1178b, 0x61) == 0xfdc80fb0
    ensures Fnv1(0xfdc80fb0, 0x72) == 0x31f0b262
    ensures Fnv1(0x31f0b262, 0xff) == 0x00172fb9
  {}

  lemma Hash32Answer()
    ensures Hash32([0x66, 0x6f, 0x6f, 0x62, 0x61, 0x72]) == 0x31f0b262
    ensures Hash32([0x66, 0x6f, 0x6f, 0x62, 0x61, 0x72, 0xff]) == 0x00172fb9
  {
    hide Fnv1;
    Fnv1Steps();
    var p: seq<bv8> := [];
    RunNext(Fnv1, FNV_32_INIT, p, 0x66);
    p := p + [0x66];
    assert Hash32(p) == 0x050c5d79;
    RunNext(Fnv1, FNV_32_INIT, p, 0x6f);
    p := p + [0x6f];
    assert Hash32(p) == 0x6b772514;
    RunNext(Fnv1, FNV_32_INIT, p, 0x6f);
    p := p + [0x6f];
    assert Hash32(p) == 0x408f5e13;
    RunNext(Fnv1, FNV_32_INIT, p, 0x62);
    p := p + [0x62];
    assert Hash32(p) == 0xb4b1178b;
    RunNext(Fnv1, FNV_32_INIT, p, 0x61);
    p := p + [0x61];
    assert Hash32(p) == 0xfdc80fb0;
    RunNext(Fnv1, FNV_32_INIT, p, 0x72);
    p := p + [0x72];
    assert Hash32(p) == 0x31f0b262;
    assert p == [0x66, 0x6f, 0x6f, 0x62, 0x61, 0x72];
    RunNext(Fnv1, FNV_32_INIT, p, 0xff);
    p := p + [0xff];
    assert Hash32(p) == 0x00172fb9;
    assert p == [0x66, 0x6f, 0x6f, 0x62, 0x61, 0x72, 0xff];
  }

  lemma Fnv1aSteps()
    ensures Fnv1a(0x811c9dc5, 0x66) == 0xe30c2799
    ensures Fnv1a(0xe30c2799, 0x6f) == 0x6222e842
    ensures Fnv1a(0x6222e842, 0x6f) == 0xa9f37ed7
    ensures Fnv1a(0xa9f37ed7, 0x62) == 0x3f5076ef
    ensures Fnv1a(0x3f5076ef, 0x61) == 0x39aaa18a
    ensures Fnv1a(0x39aaa18a, 0x72) == 0xbf9cf968
    ensures Fnv1a(0xbf9cf968, 0xff) == 0xf2e35fb5
  {}

  lemma Hash32aAnswer()
    ensures Hash32a([0x66, 0x6f, 0x6f, 0x62, 0x61, 0x72]) == 0xbf9cf968
    ensures Hash32a([0x66, 0x6f, 0x6f, 0x62, 0x61, 0x72, 0xff]) == 0xf2e35fb5
  {
    hide Fnv1a;
    Fnv1aSteps();
    var p: seq<bv8> := [];
    RunNext(Fnv1a, FNV_32_INIT, p, 0x66);
    p := p + [0x66];
    assert Hash32a(p) == 0xe30c2799;
    RunNext(Fnv1a, FNV_32_INIT, p, 0x6f);
    p := p + [0x6f];
    assert Hash32a(p) == 0x6222e842;
    RunNext(Fnv1a, FNV_32_INIT, p, 0x6f);
    p := p + [0x6f];
    assert Hash32a(p) == 0xa9f37ed7;
    RunNext(Fnv1a, FNV_32_INIT, p, 0x62);
    p := p + [0x62];
    assert Hash32a(p) == 0x3f5076ef;
    RunNext(Fnv1a, FNV_32_INIT, p, 0x61);
    p := p + [0x61];
    assert Hash32a(p) == 0x39aaa18a;
    RunNext(Fnv1a, FNV_32_INIT, p, 0x72);
    p := p + [0x72];
    assert Hash32a(p) == 0xbf9cf968;
    assert p == [0x66, 0x6f, 0x6f, 0x62, 0x61, 0x72];
    RunNext(Fnv1a, FNV_32_INIT, p, 0xff);
    p := p + [0xff];
    assert Hash32a(p) == 0xf2e35fb5;
    assert p == [0x66, 0x6f, 0x6f, 0x62, 0x61, 0x72, 0xff];
  }

  lemma Fnv1LowSteps()
    ensures Fnv1Low(0x84222325, 0x66) == 0x8601b7b9
    ensures Fnv1Low(0x8601b7b9, 0x6f) == 0xb4eb2f34
    ensures Fnv1Low(0xb4eb2f34, 0x6f) == 0x6ba13533
    ensures Fnv1Low(0x6ba13533, 0x62) == 0xe2ed65cb
    ensures Fnv1Low(0xe2ed65cb, 0x61) == 0x9963f790
    ensures Fnv1Low(0x9963f790, 0x72) == 0xa4dda9c2
    ensures Fnv1Low(0xa4dda9c2, 0xff) == 0xdb588b59
  {}

  lemma Hash64Answer()
    ensures Hash64([0x66, 0x6f, 0x6f, 0x62, 0x61, 0x72]) == 0xa4dda9c2
    ensures Hash64([0x66, 0x6f, 0x6f, 0x62, 0x61, 0x72, 0xff]) == 0xdb588b59
  {
    hide Fnv1Low;
    Fnv1LowSteps();
    var p: seq<bv8> := [];
    RunNext(Fnv1Low, 0x84222325, p, 0x66);
    p := p + [0x66];
    assert Hash64(p) == 0x8601b7b9;
    RunNext(Fnv1Low, 0x84222325, p, 0x6f);
    p := p + [0x6f];
    assert Hash64(p) == 0xb4eb2f34;
    RunNext(Fnv1Low, 0x84222325, p, 0x6f);
    p := p + [0x6f];
    assert Hash64(p) == 0x6ba13533;
    RunNext(Fnv1Low, 0x84222325, p, 0x62);
    p := p + [0x62];
    assert Hash64(p) == 0xe2ed65cb;
    RunNext(Fnv1Low, 0x84222325, p, 0x61);
    p := p + [0x61];
    assert Hash64(p) == 0x9963f790;
    RunNext(Fnv1Low, 0x84222325, p, 0x72);
    p := p + [0x72];
    assert Hash64(p) == 0xa4dda9c2;
    assert p == [0x66, 0x6f, 0x6f, 0x62, 0x61, 0x72];
    RunNext(Fnv1Low, 0x84222325, p, 0xff);
    p := p + [0xff];
    assert Hash64(p) == 0xdb588b59;
    assert p == [0x66, 0x6f, 0x6f, 0x62, 0x61, 0x72, 0xff];
  }

  lemma Fnv1aLowSteps()
    ensures Fnv1aLow(0x84222325, 0x66) == 0x8601ead9
    ensures Fnv1aLow(0x8601ead9, 0x6f) == 0xb541d342
    ensures Fnv1aLow(0xb541d342, 0x6f) == 0xfed9d577
    ensures Fnv1aLow(0xfed9d577, 0x62) == 0x0c2512af
    ensures Fnv1aLow(0x0c2512af, 0x61) == 0xa2fef40a
    ensures Fnv1aLow(0xa2fef40a, 0x72) == 0xf73967e8
    ensures Fnv1aLow(0xf73967e8, 0xff) == 0xe9746f15
  {}

  lemma Hash64aAnswer()
    ensures Hash64a([0x66, 0x6f, 0x6f, 0x62, 0x61, 0x72]) == 0xf73967e8
    ensures Hash64a([0x66, 0x6f, 0x6f, 0x62, 0x61, 0x72, 0xff]) == 0xe9746f15
  {
    hide Fnv1aLow;
    Fnv1aLowSteps();
    var p: seq<bv8> := [];
    RunNext(Fnv1aLow, 0x84222325, p, 0x66);
    p := p + [0x66];
    assert Hash64a(p) == 0x8601ead9;
    RunNext(Fnv1aLow, 0x84222325, p, 0x6f);
    p := p + [0x6f];
    assert Hash64a(p) == 0xb541d342;
    RunNext(Fnv1aLow, 0x84222325, p, 0x6f);
    p := p + [0x6f];
    assert Hash64a(p) == 0xfed9d577;
    RunNext(Fnv1aLow, 0x84222325, p, 0x62);
    p := p + [0x62];
    assert Hash64a(p) == 0x0c2512af;
    RunNext(Fnv1aLow, 0x84222325, p, 0x61);
    p := p + [0x61];
    assert Hash64a(p) == 0xa2fef40a;
    RunNext(Fnv1aLow, 0x84222325, p, 0x72);
    p := p + [0x72];
    assert Hash64a(p) == 0xf73967e8;
    assert p == [0x66, 0x6f, 0x6f, 0x62, 0x61, 0x72];
    RunNext(Fnv1aLow, 0x84222325, p, 0xff);
    p := p + [0xff];
    assert Hash64a(p) == 0xe9746f15;
    assert p == [0x66, 0x6f, 0x6f, 0x62, 0x61, 0x72, 0xff];
  }
}
