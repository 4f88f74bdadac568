/**
  Walks over graphs without fan-out: there is one way to go, so a walk that ends
  visits every reachable node once, and a walk longer than the graph has met a
  cycle.
 */
module LinearWalk {
  import opened FlowGraph
  import opened BranchingSpec

  ghost predicate Linear(edges: seq<Edge>) {
    forall n: nat :: |Targets(edges, n)| <= 1
  }

  // Consecutive nodes are joined by edges.
  ghost predicate From(edges: seq<Edge>, entry: nat, p: seq<nat>) {
    && p != [] && p[0] == entry
    && forall i, j :: 0 <= i < |p| && j == i + 1 && j < |p| ==> p[j] in Targets(edges, p[i])
  }

  function Last(p: seq<nat>): nat
    requires p != []
  {
    p[|p| - 1]
  }

  // A path that cannot be extended.
  ghost predicate Complete(edges: seq<Edge>, entry: nat, p: seq<nat>) {
    From(edges, entry, p) && Targets(edges, Last(p)) == []
  }

  // Some path from the entry meets a node twice.
  ghost predicate CycleReachable(edges: seq<Edge>, entry: nat) {
    exists p, i, j :: From(edges, entry, p) && 0 <= i < j < |p| && p[i] == p[j]
  }

  lemma OnlyWay(edges: seq<Edge>, a: nat, x: nat, y: nat)
    requires Linear(edges) && x in Targets(edges, a) && y in Targets(edges, a)
    ensures x == y
  {
    assert |Targets(edges, a)| <= 1;
  }

  lemma Extends(edges: seq<Edge>, entry: nat, p: seq<nat>, x: nat)
    requires From(edges, entry, p) && x in Targets(edges, Last(p))
    ensures From(edges, entry, p + [x])
  {
    hide Targets;
    var q := p + [x];
    forall i, j | 0 <= i < |q| && j == i + 1 && j < |q| ensures q[j] in Targets(edges, q[i]) {
      assert j < |p| ==> p[j] in Targets(edges, p[i]);
    }
  }

  lemma {:induction false} PathsAgree(edges: seq<Edge>, entry: nat, p: seq<nat>, q: seq<nat>, i: nat)
    requires Linear(edges) && From(edges, entry, p) && From(edges, entry, q) && i < |p| && i < |q|
    ensures p[i] == q[i]
  {
    hide Linear, Targets;
    if i > 0 {
      PathsAgree(edges, entry, p, q, i - 1);
      assert p[i] in Targets(edges, p[i - 1]) && q[i] in Targets(edges, q[i - 1]);
      OnlyWay(edges, p[i - 1], p[i], q[i]);
    }
  }

  // Any path is no longer than the one that ends.
  lemma WithinComplete(edges: seq<Edge>, entry: nat, p: seq<nat>, q: seq<nat>)
    requires Linear(edges) && Complete(edges, entry, p) && From(edges, entry, q)
    ensures |q| <= |p|
  {
    hide Linear, Targets;
    var n := |p|;
    if |q| > n {
      PathsAgree(edges, entry, p, q, n - 1);
      assert q[n] in Targets(edges, q[n - 1]);
    }
  }

  // Equal nodes continue equally.
  lemma {:induction false} RepeatsTogether(edges: seq<Edge>, entry: nat, p: seq<nat>, i: nat, j: nat, d: nat)
    requires Linear(edges) && From(edges, entry, p) && i < j && j + d < |p| && p[i] == p[j]
    ensures p[i + d] == p[j + d]
  {
    hide Linear, Targets;
    if d > 0 {
      RepeatsTogether(edges, entry, p, i, j, d - 1);
      assert p[i + d] in Targets(edges, p[i + d - 1]) && p[j + d] in Targets(edges, p[j + d - 1]);
      OnlyWay(edges, p[i + d - 1], p[i + d], p[j + d]);
    }
  }

  lemma CompleteIsSimple(edges: seq<Edge>, entry: nat, p: seq<nat>, i: nat, j: nat)
    requires Linear(edges) && Complete(edges, entry, p) && i < j < |p|
    ensures p[i] != p[j]
  {
    hide Linear, Targets;
    if p[i] == p[j] {
      var d := |p| - 1 - j;
      RepeatsTogether(edges, entry, p, i, j, d);
      assert p[i + d + 1] in Targets(edges, p[i + d]);
    }
  }

  // A walk that ends rules out every reachable cycle.
  lemma CompleteMeansAcyclic(edges: seq<Edge>, entry: nat, p: seq<nat>)
    requires Linear(edges) && Complete(edges, entry, p)
    ensures !CycleReachable(edges, entry)
  {
    hide Linear, Targets;
    forall q, i, j | From(edges, entry, q) && 0 <= i < j < |q| ensures q[i] != q[j] {
      WithinComplete(edges, entry, p, q);
      PathsAgree(edges, entry, p, q, i);
      PathsAgree(edges, entry, p, q, j);
      CompleteIsSimple(edges, entry, p, i, j);
    }
  }

  // ---- A walk longer than the graph repeats a node ----

  predicate Distinct(p: seq<nat>) {
    forall i, j :: 0 <= i < j < |p| ==> p[i] != p[j]
  }

  predicate Below(p: seq<nat>, n: nat) {
    forall i :: 0 <= i < |p| ==> p[i] < n
  }

  // Without its entry for n, a distinct sequence stays below n.
  lemma DropTop(p: seq<nat>, n: nat, k: nat)
    requires Distinct(p) && Below(p, n + 1) && k < |p| && p[k] == n
    ensures Distinct(p[..k] + p[k + 1..]) && Below(p[..k] + p[k + 1..], n)
  {
    var q := p[..k] + p[k + 1..];
    assert forall i :: 0 <= i < k ==> q[i] == p[i];
    assert forall i :: k <= i < |q| ==> q[i] == p[i + 1];
  }

  lemma {:induction false} Pigeonhole(p: seq<nat>, n: nat)
    requires Distinct(p) && Below(p, n)
    ensures |p| <= n
    decreases n
  {
    if p != [] {
      assert p[0] < n;
      if n - 1 in p {
        var k :| 0 <= k < |p| && p[k] == n - 1;
        DropTop(p, n - 1, k);
        Pigeonhole(p[..k] + p[k + 1..], n - 1);
      } else {
        Pigeonhole(p, n - 1);
      }
    }
  }

  lemma PathInRange(edges: seq<Edge>, nodes: nat, entry: nat, p: seq<nat>)
    requires ValidEdges(edges, nodes) && entry < nodes && From(edges, entry, p)
    ensures forall i :: 0 <= i < |p| ==> p[i] < nodes
  {
    hide Targets;
    forall i | 0 <= i < |p| ensures p[i] < nodes {
      if i > 0 {
        assert p[i] in Targets(edges, p[i - 1]);
        TargetsInRange(edges, nodes, p[i - 1]);
      }
    }
  }

  lemma TooLongMeansCycle(edges: seq<Edge>, nodes: nat, entry: nat, p: seq<nat>)
    requires ValidEdges(edges, nodes) && entry < nodes && From(edges, entry, p) && |p| > nodes
    ensures CycleReachable(edges, entry)
  {
    hide Targets;
    PathInRange(edges, nodes, entry, p);
    if Distinct(p) {
      Pigeonhole(p, nodes);
    }
  }
}
