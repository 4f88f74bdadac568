/**
  What the checksum that the views are compared by can tell apart: rows that differ
  in a single target never have the same checksum.
 */
module BranchingChecksum {
  import opened Fnv
  import opened BranchingSpec

  lemma BiasIsInjective(a: bv64, b: bv64)
    requires Bias(a) == Bias(b)
    ensures a == b
  {
  }

  lemma TokenIsSeen(g: bv64, h: bv64, a: bv64, b: bv64)
    requires MixToken(g, a) == MixToken(h, b)
    ensures (a == b ==> g == h) && (g == h ==> a == b)
  {
    hide MixWord, Bias;
    MixIsInjective(g, h, Bias(a), Bias(b));
    if g == h { BiasIsInjective(a, b); }
  }

  // Two rows that differ at `k` and nowhere else, as 64-bit words.
  predicate DifferOnce(row: seq<nat>, row': seq<nat>, k: nat) {
    && |row| == |row'| && k < |row| && Word(row[k] + 1) != Word(row'[k] + 1)
    && forall i :: 0 <= i < |row| && i != k ==> row[i] == row'[i]
  }

  lemma {:induction false} OneTargetIsSeen(row: seq<nat>, row': seq<nat>, k: nat)
    requires DifferOnce(row, row', k)
    ensures Sum(row) != Sum(row')
  {
    hide MixToken, Word;
    var n := |row| - 1;
    if k < n { OneTargetIsSeen(row[..n], row'[..n], k); } else { assert row[..n] == row'[..n]; }
    if Sum(row) == Sum(row') {
      TokenIsSeen(Sum(row[..n]), Sum(row'[..n]), Word(row[n] + 1), Word(row'[n] + 1));
    }
  }

  // A view that reports one wrong target has another checksum than the reference.
  lemma {:induction false} OneWrongTargetIsSeen(groups: seq<seq<nat>>, groups': seq<seq<nat>>, s: nat, k: nat)
    requires |groups| == |groups'| && s < |groups| && DifferOnce(groups[s], groups'[s], k)
    requires forall t :: 0 <= t < |groups| && t != s ==> groups[t] == groups'[t]
    ensures Digest(groups) != Digest(groups')
  {
    hide MixToken, Word, Sum;
    var n := |groups| - 1;
    if s < n {
      OneWrongTargetIsSeen(groups[..n], groups'[..n], s, k);
    } else {
      assert groups[..n] == groups'[..n];
      OneTargetIsSeen(groups[n], groups'[n], k);
    }
    if Digest(groups) == Digest(groups') {
      var d, d' := Digest(groups[..n]), Digest(groups'[..n]);
      TokenIsSeen(MixToken(d, Word(n)), MixToken(d', Word(n)), Sum(groups[n]), Sum(groups'[n]));
      if s < n { TokenIsSeen(d, d', Word(n), Word(n)); }
    }
  }
}
