/** The bytes of a key as the hashes read them. */
module Chars {

  /** A char of the key read as a signed char and converted to uint32_t. */
  function Signed(b: bv8): bv32 {
    if b & 0x80 == 0x80 then 0xffff_ff00 | (b as bv32) else b as bv32
  }

  function Low(x: bv32): bv8 { (x & 0xff) as bv8 }

  lemma LowOfSigned(b: bv8)
    ensures Low(Signed(b)) == b
  {}

  lemma SignedInjective(a: bv8, b: bv8)
    requires Signed(a) == Signed(b)
    ensures a == b
  {
    hide Low, Signed;
    LowOfSigned(a);
    LowOfSigned(b);
  }

  /** A signed char converted to uint64_t. */
  function Signed64(b: bv8): bv64 {
    if b & 0x80 == 0x80 then 0xffff_ffff_ffff_ff00 | (b as bv64) else b as bv64
  }
}
