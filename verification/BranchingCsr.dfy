/**
  The compressed-row build: count, prefix sum, in-place advance, restore. Every
  source's slice of `targets` is that source's targets in edge order.
 */
module BranchingCsr {
  import opened FlowGraph
  import opened BranchingSpec

  // The offsets and targets of a finished build.
  ghost predicate Csr(edges: seq<Edge>, nodes: nat, offsets: seq<nat>, targets: seq<nat>) {
    && |offsets| == nodes + 1
    && |targets| == |edges|
    && (forall s :: 0 <= s <= nodes ==> offsets[s] == Before(edges, s))
    && (forall s :: 0 <= s < nodes ==> Row(edges, edges, s, targets))
  }

  // The row of `s` starts where the whole list puts it and holds the targets of
  // the edges seen so far.
  ghost predicate Row(edges: seq<Edge>, seen: seq<Edge>, s: nat, targets: seq<nat>) {
    var first := Before(edges, s);
    var row := Targets(seen, s);
    first + |row| <= |targets| && targets[first..first + |row|] == row
  }

  // ---- Prefix offsets ----

  method BuildPrefixOffsets(offsets: array<nat>, edges: seq<Edge>, nodes: nat)
    requires offsets.Length == nodes + 1
    requires ValidEdges(edges, nodes)
    modifies offsets
    ensures forall s :: 0 <= s <= nodes ==> offsets[s] == Before(edges, s)
  {
    for s := 0 to nodes + 1
      invariant forall t :: 0 <= t < s ==> offsets[t] == 0
    {
      offsets[s] := 0;
    }
    CountEdges(offsets, edges, nodes);
    BeforeNone(edges);
    for s := 1 to nodes + 1
      invariant forall t :: 0 <= t < s ==> offsets[t] == Before(edges, t)
      invariant forall t :: s <= t <= nodes ==> offsets[t] == |Targets(edges, t - 1)|
    {
      BeforeNext(edges, s - 1);
      offsets[s] := offsets[s] + offsets[s - 1];
    }
  }

  method CountEdges(offsets: array<nat>, edges: seq<Edge>, nodes: nat)
    requires offsets.Length == nodes + 1
    requires ValidEdges(edges, nodes)
    requires forall t :: 0 <= t <= nodes ==> offsets[t] == 0
    modifies offsets
    ensures offsets[0] == 0
    ensures forall t :: 1 <= t <= nodes ==> offsets[t] == |Targets(edges, t - 1)|
  {
    for k := 0 to |edges|
      invariant offsets[0] == 0
      invariant forall t :: 1 <= t <= nodes ==> offsets[t] == |Targets(edges[..k], t - 1)|
    {
      assert ValidEdge(edges[k], nodes);
      ghost var seen := edges[..k + 1];
      forall s: nat | s < nodes
        ensures |Targets(seen, s)| == |Targets(edges[..k], s)| + if edges[k].from == s then 1 else 0
      {
        TargetsStep(edges, k, s);
      }
      offsets[edges[k].from + 1] := offsets[edges[k].from + 1] + 1;
    }
    assert edges[..|edges|] == edges;
  }

  // ---- Stable grouping ----

  // Where the next target of `s` goes.
  function Cursor(edges: seq<Edge>, k: nat, s: nat): nat
    requires k <= |edges|
  {
    Before(edges, s) + |Targets(edges[..k], s)|
  }

  lemma CursorInRow(edges: seq<Edge>, nodes: nat, k: nat)
    requires ValidEdges(edges, nodes) && k < |edges|
    ensures Cursor(edges, k, edges[k].from) < Before(edges, edges[k].from + 1) <= |edges|
  {
    hide Before, Targets;
    var s := edges[k].from;
    assert ValidEdge(edges[k], nodes);
    TargetsStep(edges, k, s);
    TargetsGrow(edges, k + 1, s);
    BeforeNext(edges, s);
    BeforeMonotone(edges, s + 1, nodes);
    BeforeAll(edges, nodes);
  }

  lemma OwnRowGrows(edges: seq<Edge>, k: nat, targets: seq<nat>)
    requires k < |edges|
    requires Row(edges, edges[..k], edges[k].from, targets)
    requires Cursor(edges, k, edges[k].from) < |targets|
    ensures Row(edges, edges[..k + 1], edges[k].from, targets[Cursor(edges, k, edges[k].from) := edges[k].to])
  {
    hide Before;
    var s := edges[k].from;
    var at := Cursor(edges, k, s);
    var first := Before(edges, s);
    var written := targets[at := edges[k].to];
    TargetsStep(edges, k, s);
    assert written[first..at] == targets[first..at];
    assert written[first..at + 1] == written[first..at] + [edges[k].to];
  }

  // Writing one target extends its own row and leaves the others alone.
  lemma RowKept(edges: seq<Edge>, nodes: nat, k: nat, s: nat, targets: seq<nat>)
    requires ValidEdges(edges, nodes) && k < |edges| == |targets| && s < nodes
    requires Row(edges, edges[..k], s, targets)
    requires Cursor(edges, k, edges[k].from) < |targets|
    ensures Row(edges, edges[..k + 1], s, targets[Cursor(edges, k, edges[k].from) := edges[k].to])
  {
    hide Before;
    var from := edges[k].from;
    if s == from {
      OwnRowGrows(edges, k, targets);
    } else {
      var first := Before(edges, s);
      var row := Targets(edges[..k], s);
      var written := targets[Cursor(edges, k, from) := edges[k].to];
      TargetsStep(edges, k, s);
      TargetsGrow(edges, k, s);
      BeforeNext(edges, s);
      CursorInRow(edges, nodes, k);
      if s < from {
        BeforeMonotone(edges, s + 1, from);
      } else {
        BeforeMonotone(edges, from + 1, s);
      }
      assert written[first..first + |row|] == targets[first..first + |row|];
    }
  }

  method GroupTargets(offsets: array<nat>, targets: array<nat>, edges: seq<Edge>, nodes: nat)
    requires offsets != targets && offsets.Length == nodes + 1 && targets.Length == |edges|
    requires ValidEdges(edges, nodes)
    requires forall s :: 0 <= s <= nodes ==> offsets[s] == Before(edges, s)
    modifies offsets, targets
    ensures forall s :: 0 <= s < nodes ==> offsets[s] == Before(edges, s + 1)
    ensures forall s :: 0 <= s < nodes ==> Row(edges, edges, s, targets[..])
  {
    forall s | 0 <= s < nodes ensures Row(edges, edges[..0], s, targets[..]) && Cursor(edges, 0, s) == offsets[s] {
      BeforeMonotone(edges, s, nodes);
      BeforeAll(edges, nodes);
    }
    for k := 0 to |edges|
      invariant forall s :: 0 <= s < nodes ==> offsets[s] == Cursor(edges, k, s)
      invariant forall s :: 0 <= s < nodes ==> Row(edges, edges[..k], s, targets[..])
    {
      assert ValidEdge(edges[k], nodes);
      CursorInRow(edges, nodes, k);
      var from := edges[k].from;
      ghost var was, seen := targets[..], edges[..k + 1];
      ghost var written := was[offsets[from] := edges[k].to];
      forall s | 0 <= s < nodes ensures Row(edges, seen, s, written) {
        RowKept(edges, nodes, k, s, was);
      }
      forall s | 0 <= s < nodes ensures Cursor(edges, k + 1, s) == Cursor(edges, k, s) + if s == from then 1 else 0 {
        TargetsStep(edges, k, s);
      }
      targets[offsets[from]] := edges[k].to;
      assert targets[..] == written;
      offsets[from] := offsets[from] + 1;
    }
    assert edges[..|edges|] == edges;
    forall s | 0 <= s < nodes ensures offsets[s] == Before(edges, s + 1) {
      BeforeNext(edges, s);
    }
  }

  method RestoreOffsets(offsets: array<nat>, nodes: nat)
    requires offsets.Length == nodes + 1
    modifies offsets
    ensures offsets[0] == 0
    ensures forall s :: 0 <= s < nodes ==> offsets[s + 1] == old(offsets[s])
  {
    var previous := 0;
    for s := 0 to nodes + 1
      invariant s == 0 ==> previous == 0
      invariant s > 0 ==> previous == old(offsets[s - 1]) && offsets[0] == 0
      invariant forall t :: s <= t <= nodes ==> offsets[t] == old(offsets[t])
      invariant forall t :: 0 < t < s ==> offsets[t] == old(offsets[t - 1])
    {
      var current := offsets[s];
      offsets[s] := previous;
      previous := current;
    }
  }

  method StableGroupTargets(offsets: array<nat>, targets: array<nat>, edges: seq<Edge>, nodes: nat)
    requires offsets != targets && offsets.Length == nodes + 1 && targets.Length == |edges|
    requires ValidEdges(edges, nodes)
    requires forall s :: 0 <= s <= nodes ==> offsets[s] == Before(edges, s)
    modifies offsets, targets
    ensures Csr(edges, nodes, offsets[..], targets[..])
  {
    GroupTargets(offsets, targets, edges, nodes);
    ghost var ends := offsets[..];
    RestoreOffsets(offsets, nodes);
    BeforeNone(edges);
    forall s | 0 < s <= nodes ensures offsets[s] == Before(edges, s) {
      assert ends[s - 1] == Before(edges, s - 1 + 1);
      assert offsets[s - 1 + 1] == ends[s - 1];
    }
  }
}
