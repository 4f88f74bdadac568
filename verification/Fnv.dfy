/**
  The mixing step that fingerprints and checksums share: blend a 64-bit word in,
  then multiply by the FNV prime. Neither half loses anything, so a hash and a word
  can each be told from the result and the other.
 */
module Fnv {

  // A number as the 64-bit word that is mixed.
  function Word(value: nat): bv64 { (value % 0x1_0000_0000_0000_0000) as bv64 }

  function Blend(hash: bv64, word: bv64): bv64 { hash ^ word }

  function Scale(hash: bv64): bv64 { hash * 1099511628211 }

  function MixWord(hash: bv64, word: bv64): bv64 { Scale(Blend(hash, word)) }

  // The multiplier is odd, so multiplying by it loses nothing.
  lemma MultiplierIsOdd(x: bv64, y: bv64)
    requires SameWord(x * 1099511628211, y * 1099511628211)
    ensures x == y
  {
  }

  // Equality under a name of its own, so that it is carried from `Scale` to the
  // products without reasoning about their bits.
  predicate SameWord(x: bv64, y: bv64) { x == y }

  lemma AreSame(x: bv64, y: bv64)
    requires x == y
    ensures SameWord(x, y)
  {
  }

  lemma ScaleIs(x: bv64)
    ensures Scale(x) == x * 1099511628211
  {
  }

  lemma ScaleIsInjective(x: bv64, y: bv64)
    requires Scale(x) == Scale(y)
    ensures x == y
  {
    hide Scale, SameWord;
    AreSame(Scale(x), Scale(y));
    ScaleIs(x);
    ScaleIs(y);
    MultiplierIsOdd(x, y);
  }

  lemma BlendIsInjective(g: bv64, h: bv64, a: bv64, b: bv64)
    requires Blend(g, a) == Blend(h, b)
    ensures (a == b ==> g == h) && (g == h ==> a == b)
  {
    assert (g ^ a) ^ a == g && (h ^ b) ^ b == h && (g ^ a) ^ g == a && (h ^ b) ^ h == b;
  }

  // Mixing is injective in the hash and in the word.
  lemma MixIsInjective(g: bv64, h: bv64, a: bv64, b: bv64)
    requires MixWord(g, a) == MixWord(h, b)
    ensures (a == b ==> g == h) && (g == h ==> a == b)
  {
    hide Blend, Scale;
    ScaleIsInjective(Blend(g, a), Blend(h, b));
    BlendIsInjective(g, h, a, b);
  }
}
