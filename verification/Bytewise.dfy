/**
  A hash that takes a key one byte at a time: the shape shared by the FNV and
  one-at-a-time hashes.
*/
module Bytewise {

  /** The state after taking in the bytes of key one after the other. */
  function Run(step: (bv32, bv8) -> bv32, h: bv32, key: seq<bv8>): bv32
    decreases |key|
  {
    if key == [] then h else Run(step, step(h, key[0]), key[1..])
  }

  lemma {:induction false} RunNext(step: (bv32, bv8) -> bv32, h: bv32, p: seq<bv8>, b: bv8)
    ensures Run(step, h, p + [b]) == step(Run(step, h, p), b)
    decreases |p|
  {
    if p == [] {
      assert (p + [b])[1..] == [];
    } else {
      assert (p + [b])[1..] == p[1..] + [b];
      RunNext(step, step(h, p[0]), p[1..], b);
    }
  }

  /** A byte taken in leaves different states different. */
  ghost predicate Reversible(step: (bv32, bv8) -> bv32) {
    forall h, g, b :: step(h, b) == step(g, b) ==> h == g
  }

  /** Different bytes taken in lead to different states. */
  ghost predicate Separates(step: (bv32, bv8) -> bv32) {
    forall h, a, b :: step(h, a) == step(h, b) ==> a == b
  }

  lemma {:induction false} RunKeepsApart(step: (bv32, bv8) -> bv32, h: bv32, g: bv32, key: seq<bv8>)
    requires Reversible(step)
    requires h != g
    ensures Run(step, h, key) != Run(step, g, key)
    decreases key
  {
    if key == [] {
    } else {
      var b := key[0];
      assert step(h, b) == step(g, b) ==> h == g;
      RunKeepsApart(step, step(h, b), step(g, b), key[1..]);
    }
  }

  /** Keys that differ in exactly one byte lead to different states. */
  lemma {:induction false} OneByteDiffers(step: (bv32, bv8) -> bv32, h: bv32,
                                          before: seq<bv8>, a: bv8, b: bv8, after: seq<bv8>)
    requires Reversible(step) && Separates(step)
    requires a != b
    ensures Run(step, h, before + [a] + after) != Run(step, h, before + [b] + after)
    decreases before
  {
    if before == [] {
      assert (before + [a] + after)[1..] == after && (before + [b] + after)[1..] == after;
      RunKeepsApart(step, step(h, a), step(h, b), after);
    } else {
      var rest := before[1..];
      assert (before + [a] + after)[1..] == rest + [a] + after;
      assert (before + [b] + after)[1..] == rest + [b] + after;
      OneByteDiffers(step, step(h, before[0]), rest, a, b, after);
    }
  }
}
