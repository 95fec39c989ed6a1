/**
  Xor of 32-bit words. Z3 does not substitute equals under bit-vector operators,
  so the hashes name their operators, prove each identity about them on its own,
  and hide the names where identities are combined.
*/
module Word32 {

  function Xor(x: bv32, y: bv32): bv32 { x ^ y }

  lemma XorSwaps(u: bv32, v: bv32)
    ensures Xor(u, v) == Xor(v, u)
  {}

  lemma XorAssoc(u: bv32, v: bv32, w: bv32)
    ensures Xor(u ^ v, w) == Xor(u, v ^ w)
  {}

  lemma XorMoves(u: bv32, v: bv32, w: bv32)
    ensures Xor(Xor(u, v), w) == Xor(u, Xor(v, w))
  {
    XorAssoc(u, v, w);
    assert Xor(u, v) == u ^ v;
    assert Xor(v, w) == v ^ w;
    hide Xor;
  }

  lemma XorTwice(u: bv32, v: bv32, w: bv32)
    ensures Xor(u ^ w, v ^ w) == Xor(u, v)
  {}

  lemma XorCancels(u: bv32, v: bv32, w: bv32)
    ensures Xor(Xor(u, w), Xor(v, w)) == Xor(u, v)
  {
    XorTwice(u, v, w);
    assert Xor(u, w) == u ^ w;
    assert Xor(v, w) == v ^ w;
    hide Xor;
  }

  lemma XorZero(x: bv32)
    ensures Xor(x, 0) == x
  {}

  lemma XorBack(x: bv32, y: bv32)
    ensures Xor(Xor(x, y), y) == x
    ensures Xor(Xor(x, y), x) == y
  {}

  lemma XorInjective(x: bv32, z: bv32, y: bv32)
    ensures Xor(x, y) == Xor(z, y) ==> x == z
    ensures Xor(y, x) == Xor(y, z) ==> x == z
  {
    hide Xor;
    XorBack(x, y);
    XorBack(z, y);
    XorBack(y, x);
    XorBack(y, z);
  }
}
