/**
  Jenkins's one-at-a-time hash (nc_one_at_a_time.c): each of its shift-and-add and
  shift-and-xor steps is undone by an explicit inverse modulo 2^32.
*/
module OneAtATime {
  import opened Bytewise
  import opened Chars

  function Add(x: bv32, y: bv32): bv32 { x + y }

  function Spread10(v: bv32): bv32 { v + (v << 10) }

  function Fold6(v: bv32): bv32 { v ^ (v >> 6) }

  function Spread3(v: bv32): bv32 { v + (v << 3) }

  function Fold11(v: bv32): bv32 { v ^ (v >> 11) }

  function Spread15(v: bv32): bv32 { v + (v << 15) }

  function Step(h: bv32, b: bv8): bv32 { Fold6(Spread10(Add(h, Signed(b)))) }

  function Finish(h: bv32): bv32 { Spread15(Fold11(Spread3(h))) }

  function Hash(key: seq<bv8>): bv32 { Finish(Run(Step, 0, key)) }

  // ---- The inverses ----

  function Subtract(x: bv32, y: bv32): bv32 { x - y }

  function Unspread10(v: bv32): bv32 { v * 0xc00ffc01 }

  function Unfold6(v: bv32): bv32 { v ^ (v >> 6) ^ (v >> 12) ^ (v >> 18) ^ (v >> 24) ^ (v >> 30) }

  function Unspread3(v: bv32): bv32 { v * 0x38e38e39 }

  function Unfold11(v: bv32): bv32 { v ^ (v >> 11) ^ (v >> 22) }

  function Unspread15(v: bv32): bv32 { v * 0x3fff8001 }

  lemma SubtractUndoes(x: bv32, y: bv32)
    ensures Subtract(x + y, y) == x
    ensures Subtract(x + y, x) == y
  {}

  lemma Spread10Is(v: bv32)
    ensures v * 1025 == Spread10(v)
  {}

  lemma Unspread10Is(v: bv32)
    ensures Unspread10(v * 1025) == v
  {}

  lemma Unspread10Undoes(v: bv32)
    ensures Unspread10(Spread10(v)) == v
  {
    hide Unspread10, Spread10;
    Spread10Is(v);
    Unspread10Is(v);
  }

  lemma Unfold6Is(v: bv32)
    ensures Unfold6(v ^ (v >> 6)) == v
  {}

  lemma Unfold6Undoes(v: bv32)
    ensures Unfold6(Fold6(v)) == v
  {
    hide Unfold6;
    Unfold6Is(v);
  }

  lemma Spread3Is(v: bv32)
    ensures v * 9 == Spread3(v)
  {}

  lemma Unspread3Is(v: bv32)
    ensures Unspread3(v * 9) == v
  {}

  lemma Unspread3Undoes(v: bv32)
    ensures Unspread3(Spread3(v)) == v
  {
    hide Unspread3, Spread3;
    Spread3Is(v);
    Unspread3Is(v);
  }

  lemma Unfold11Is(v: bv32)
    ensures Unfold11(v ^ (v >> 11)) == v
  {}

  lemma Unfold11Undoes(v: bv32)
    ensures Unfold11(Fold11(v)) == v
  {
    hide Unfold11;
    Unfold11Is(v);
  }

  lemma Spread15Is(v: bv32)
    ensures v * 32769 == Spread15(v)
  {}

  lemma Unspread15Is(v: bv32)
    ensures Unspread15(v * 32769) == v
  {}

  lemma Unspread15Undoes(v: bv32)
    ensures Unspread15(Spread15(v)) == v
  {
    hide Unspread15, Spread15;
    Spread15Is(v);
    Unspread15Is(v);
  }

  lemma AddInjective(x: bv32, z: bv32, y: bv32)
    ensures Add(x, y) == Add(z, y) ==> x == z
    ensures Add(y, x) == Add(y, z) ==> x == z
  {
    hide Subtract;
    SubtractUndoes(x, y);
    SubtractUndoes(z, y);
    SubtractUndoes(y, x);
    SubtractUndoes(y, z);
  }

  lemma MixInjective(u: bv32, v: bv32)
    ensures Fold6(Spread10(u)) == Fold6(Spread10(v)) ==> u == v
  {
    hide *;
    Unfold6Undoes(Spread10(u));
    Unfold6Undoes(Spread10(v));
    Unspread10Undoes(u);
    Unspread10Undoes(v);
  }

  lemma UnfinishIs(u: bv32)
    ensures Unspread3(Unfold11(Unspread15(Finish(u)))) == u
  {
    hide Unspread3, Unfold11, Unspread15, Spread3, Fold11, Spread15;
    Unspread15Undoes(Fold11(Spread3(u)));
    Unfold11Undoes(Spread3(u));
    Unspread3Undoes(u);
  }

  lemma FinishInjective(u: bv32, v: bv32)
    ensures Finish(u) == Finish(v) ==> u == v
  {
    hide *;
    UnfinishIs(u);
    UnfinishIs(v);
  }

  lemma StepKeeps()
    ensures Reversible(Step) && Separates(Step)
  {
    hide Add, Spread10, Fold6, Signed;
    forall h, g, b | Step(h, b) == Step(g, b) ensures h == g {
      MixInjective(Add(h, Signed(b)), Add(g, Signed(b)));
      AddInjective(h, g, Signed(b));
    }
    forall h, a, b | Step(h, a) == Step(h, b) ensures a == b {
      MixInjective(Add(h, Signed(a)), Add(h, Signed(b)));
      AddInjective(Signed(a), Signed(b), h);
      SignedInjective(a, b);
    }
  }

  /** No two keys that differ in exactly one byte collide. */
  lemma OneByteNeverCollides(before: seq<bv8>, a: bv8, b: bv8, after: seq<bv8>)
    requires a != b
    ensures Hash(before + [a] + after) != Hash(before + [b] + after)
  {
    hide Run, Reversible, Separates, Finish;
    StepKeeps();
    OneByteDiffers(Step, 0, before, a, b, after);
    FinishInjective(Run(Step, 0, before + [a] + after), Run(Step, 0, before + [b] + after));
  }

  method HashOneAtATime(key: seq<bv8>) returns (value: bv32)
    ensures value == Hash(key)
  {
    hide Signed, Add, Spread10, Fold6, Spread3, Fold11, Spread15;
    value := 0;
    for i := 0 to |key|
      invariant Run(Step, value, key[i..]) == Run(Step, 0, key)
    {
      assert key[i..][1..] == key[i + 1..];
      ghost var before := value;
      var val := Signed(key[i]);
      value := Add(value, val);
      value := Spread10(value);
      value := Fold6(value);
      assert value == Step(before, key[i]);
    }
    value := Spread3(value);
    value := Fold11(value);
    value := Spread15(value);
  }

  // ---- Known answers: the published one for "a", and one with a char after it that is negative ----

  lemma Steps()
    ensures Step(0x00000000, 0x61) == 0x00018270
    ensures Step(0x00018270, 0xe9) == 0x0612cdc0
  {}

  lemma Finished()
    ensures Finish(0x00018270) == 0xca2e9442
    ensures Finish(0x0612cdc0) == 0x2e236ee7
  {}

  lemma Answer()
    ensures Hash([0x61]) == 0xca2e9442
    ensures Hash([0x61, 0xe9]) == 0x2e236ee7
  {
    hide Step, Finish;
    Steps();
    Finished();
    var p: seq<bv8> := [];
    RunNext(Step, 0, p, 0x61);
    assert p + [0x61] == [0x61];
    RunNext(Step, 0, [0x61], 0xe9);
    assert [0x61] + [0xe9] == [0x61, 0xe9];
  }
}
