/**
  What every adjacency view of a subgraph must report: the targets of each
  source in edge order, folded into one checksum.
 */
module BranchingSpec {
  import opened Fnv
  import opened FlowGraph

  const INVALID_ID: nat := 0xFFFF_FFFF
  const SEED: bv64 := 0xcbf29ce484222325
  const BIAS: bv64 := 0x9e3779b97f4a7c15

  datatype Observation = Observation(nodes: nat, edges: nat, checksum: bv64, ok: bool)

  function Bias(token: bv64): bv64 { token + BIAS }

  function MixToken(checksum: bv64, token: bv64): bv64 { MixWord(checksum, Bias(token)) }

  function MixTarget(checksum: bv64, target: nat): bv64 { MixToken(checksum, Word(target + 1)) }

  function Commit(checksum: bv64, source: nat, sum: bv64): bv64 { MixToken(MixToken(checksum, Word(source)), sum) }

  // The checksum of one source's targets.
  function Sum(targets: seq<nat>): bv64 {
    if targets == [] then SEED
    else MixTarget(Sum(targets[..|targets| - 1]), targets[|targets| - 1])
  }

  // The checksum of every source's targets, source by source.
  function Digest(groups: seq<seq<nat>>): bv64 {
    if groups == [] then SEED
    else
      var last := |groups| - 1;
      Commit(Digest(groups[..last]), last, Sum(groups[last]))
  }

  function Total(groups: seq<seq<nat>>): nat {
    if groups == [] then 0 else Total(groups[..|groups| - 1]) + |groups[|groups| - 1]|
  }

  predicate InRange(groups: seq<seq<nat>>, nodes: nat) {
    forall s, j :: 0 <= s < |groups| && 0 <= j < |groups[s]| ==> groups[s][j] < nodes
  }

  function Groups(edges: seq<Edge>, nodes: nat): (r: seq<seq<nat>>)
    ensures |r| == nodes && forall s :: 0 <= s < nodes ==> r[s] == Targets(edges, s)
  {
    seq(nodes, s requires 0 <= s => Targets(edges, s))
  }

  predicate ValidEdge(e: Edge, nodes: nat) { e.from < nodes && e.to < nodes }

  predicate ValidEdges(edges: seq<Edge>, nodes: nat) {
    forall k :: 0 <= k < |edges| ==> ValidEdge(edges[k], nodes)
  }

  // The one observation that all views of a valid subgraph share.
  function Reference(edges: seq<Edge>, nodes: nat): Observation {
    Observation(nodes, |edges|, Digest(Groups(edges, nodes)), true)
  }

  // ---- Growing by one edge, one target, one source ----

  lemma TargetsStep(edges: seq<Edge>, k: nat, s: nat)
    requires k < |edges|
    ensures Targets(edges[..k + 1], s) ==
            if edges[k].from == s then Targets(edges[..k], s) + [edges[k].to] else Targets(edges[..k], s)
  {
    assert edges[..k + 1][..k] == edges[..k];
  }

  lemma TargetsWhole(edges: seq<Edge>, s: nat)
    ensures Targets(edges[..|edges|], s) == Targets(edges, s)
  {
    assert edges[..|edges|] == edges;
  }

  lemma SumStep(targets: seq<nat>, k: nat)
    requires k < |targets|
    ensures Sum(targets[..k + 1]) == MixTarget(Sum(targets[..k]), targets[k])
  {
    hide MixTarget;
    assert targets[..k + 1][..k] == targets[..k];
  }

  lemma SumAppend(targets: seq<nat>, t: nat)
    ensures Sum(targets + [t]) == MixTarget(Sum(targets), t)
  {
    hide MixTarget;
    assert (targets + [t])[..|targets|] == targets;
  }

  lemma DigestStep(groups: seq<seq<nat>>, s: nat)
    requires s < |groups|
    ensures Digest(groups[..s + 1]) == Commit(Digest(groups[..s]), s, Sum(groups[s]))
    ensures Total(groups[..s + 1]) == Total(groups[..s]) + |groups[s]|
  {
    hide Commit;
    assert groups[..s + 1][..s] == groups[..s];
  }

  // ---- Counting edges by source ----

  // How many edges leave a source below `s`.
  function Before(edges: seq<Edge>, s: nat): nat {
    if edges == [] then 0
    else Before(edges[..|edges| - 1], s) + if edges[|edges| - 1].from < s then 1 else 0
  }

  lemma {:induction false} BeforeNext(edges: seq<Edge>, s: nat)
    ensures Before(edges, s + 1) == Before(edges, s) + |Targets(edges, s)|
  {
    if edges != [] {
      BeforeNext(edges[..|edges| - 1], s);
    }
  }

  lemma {:induction false} BeforeNone(edges: seq<Edge>)
    ensures Before(edges, 0) == 0
  {
    if edges != [] {
      BeforeNone(edges[..|edges| - 1]);
    }
  }

  lemma {:induction false} BeforeAll(edges: seq<Edge>, nodes: nat)
    requires ValidEdges(edges, nodes)
    ensures Before(edges, nodes) == |edges|
  {
    if edges != [] {
      assert ValidEdges(edges[..|edges| - 1], nodes);
      BeforeAll(edges[..|edges| - 1], nodes);
    }
  }

  lemma {:induction false} BeforeMonotone(edges: seq<Edge>, s: nat, t: nat)
    requires s <= t
    ensures Before(edges, s) <= Before(edges, t)
    decreases t
  {
    if s < t {
      BeforeMonotone(edges, s, t - 1);
      BeforeNext(edges, t - 1);
    }
  }

  lemma {:induction false} TargetsGrow(edges: seq<Edge>, k: nat, s: nat)
    requires k <= |edges|
    ensures |Targets(edges[..k], s)| <= |Targets(edges, s)|
    decreases |edges| - k
  {
    TargetsWhole(edges, s);
    if k < |edges| {
      TargetsStep(edges, k, s);
      TargetsGrow(edges, k + 1, s);
    }
  }

  lemma {:induction false} TotalOfGroups(edges: seq<Edge>, nodes: nat, s: nat)
    requires s <= nodes
    ensures Total(Groups(edges, nodes)[..s]) == Before(edges, s)
  {
    hide Commit, Sum, Digest;
    if s == 0 {
      BeforeNone(edges);
    } else {
      TotalOfGroups(edges, nodes, s - 1);
      DigestStep(Groups(edges, nodes), s - 1);
      BeforeNext(edges, s - 1);
    }
  }

  // Every edge of a valid subgraph is reported once.
  lemma GroupsHoldEveryEdge(edges: seq<Edge>, nodes: nat)
    requires ValidEdges(edges, nodes)
    ensures Total(Groups(edges, nodes)) == |edges|
    ensures InRange(Groups(edges, nodes), nodes)
  {
    var groups := Groups(edges, nodes);
    assert groups[..nodes] == groups;
    TotalOfGroups(edges, nodes, nodes);
    BeforeAll(edges, nodes);
    forall s | 0 <= s < nodes ensures forall j :: 0 <= j < |groups[s]| ==> groups[s][j] < nodes {
      TargetsInRange(edges, nodes, s);
    }
  }

  lemma {:induction false} TargetsInRange(edges: seq<Edge>, nodes: nat, s: nat)
    requires ValidEdges(edges, nodes)
    ensures forall j :: 0 <= j < |Targets(edges, s)| ==> Targets(edges, s)[j] < nodes
  {
    if edges != [] {
      assert ValidEdge(edges[|edges| - 1], nodes);
      assert ValidEdges(edges[..|edges| - 1], nodes);
      TargetsInRange(edges[..|edges| - 1], nodes, s);
    }
  }
}
