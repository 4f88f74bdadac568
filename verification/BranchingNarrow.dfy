/**
  Flat lookup narrows its edge index to 32 bits and the other views do not. When
  that matters, exactly.
 */
module BranchingNarrow {
  import opened Common
  import opened FlowGraph
  import opened BranchingSpec
  import opened BranchingViews

  // The edges past the last id, and the ones that are read in their place.
  function Skipped(edges: seq<Edge>): seq<Edge> {
    if |edges| <= ID_COUNT then [] else edges[ID_COUNT..]
  }

  function ReadInstead(edges: seq<Edge>): seq<Edge> {
    if |edges| <= ID_COUNT then [] else Narrowed(edges)[ID_COUNT..]
  }

  // Both list the same targets for every source, in the same order.
  ghost predicate SameRows(a: seq<Edge>, b: seq<Edge>) {
    forall s: nat :: Targets(a, s) == Targets(b, s)
  }

  lemma FittingIdsAreRead(edges: seq<Edge>)
    requires |edges| <= ID_COUNT
    ensures Narrowed(edges) == edges
  {
    forall k | 0 <= k < |edges| ensures Narrowed(edges)[k] == edges[k] {
      Remainder(k, ID_COUNT, 0, k);
    }
  }

  lemma {:induction false} TargetsConcat(a: seq<Edge>, b: seq<Edge>, s: nat)
    ensures Targets(a + b, s) == Targets(a, s) + Targets(b, s)
  {
    if b == [] {
      assert a + b == a;
    } else {
      var n := |b| - 1;
      TargetsConcat(a, b[..n], s);
      assert (a + b)[..|a + b| - 1] == a + b[..n];
    }
  }

  // The first 2^32 edges are read as they are.
  lemma CommonFront(edges: seq<Edge>)
    requires |edges| > ID_COUNT
    ensures Narrowed(edges) == edges[..ID_COUNT] + ReadInstead(edges)
    ensures edges == edges[..ID_COUNT] + Skipped(edges)
  {
    var read := Narrowed(edges);
    forall k | 0 <= k < ID_COUNT ensures read[k] == edges[k] {
      Remainder(k, ID_COUNT, 0, k);
    }
    assert read[..ID_COUNT] == edges[..ID_COUNT];
  }

  // Flat lookup reads the rows of the edges exactly when the edges past the last id
  // have the rows of those read in their place.
  lemma NarrowingHarmless(edges: seq<Edge>)
    ensures SameRows(Narrowed(edges), edges) <==> SameRows(ReadInstead(edges), Skipped(edges))
  {
    hide Targets, Narrowed;
    if |edges| <= ID_COUNT {
      FittingIdsAreRead(edges);
    } else {
      CommonFront(edges);
      var front := edges[..ID_COUNT];
      forall s: nat ensures Targets(Narrowed(edges), s) == Targets(edges, s) <==>
                            Targets(ReadInstead(edges), s) == Targets(Skipped(edges), s)
      {
        TargetsConcat(front, ReadInstead(edges), s);
        TargetsConcat(front, Skipped(edges), s);
        SameTail(Targets(front, s), Targets(ReadInstead(edges), s), Targets(Skipped(edges), s));
      }
    }
  }

  lemma SameTail(front: seq<nat>, a: seq<nat>, b: seq<nat>)
    ensures front + a == front + b <==> a == b
  {
    if front + a == front + b {
      assert a == (front + a)[|front|..];
      assert b == (front + b)[|front|..];
    }
  }

  // Then flat lookup accepts every valid subgraph and reports its reference.
  lemma HarmlessMeansFaithful(edges: seq<Edge>, nodes: nat)
    requires nodes <= ID_COUNT && SameRows(ReadInstead(edges), Skipped(edges)) && ValidEdges(edges, nodes)
    ensures LookupOk(edges, nodes) && Reference(Narrowed(edges), nodes) == Reference(edges, nodes)
  {
    hide Targets, Digest;
    NarrowingHarmless(edges);
    forall k | 0 <= k < |edges| ensures ValidEdge(Narrowed(edges)[k], nodes) {
      assert ValidEdge(edges[k % ID_COUNT], nodes);
    }
    forall s | 0 <= s < nodes ensures DegreeOk(edges, s) {
      assert s % ID_COUNT == s;
      assert Targets(Narrowed(edges), s) == Targets(edges, s);
    }
    assert Groups(Narrowed(edges), nodes) == Groups(edges, nodes);
  }

  // ---- A valid subgraph that flat lookup refuses ----

  // All edges are 0 -> 0 but the one whose index is the first that does not fit.
  function Misread(n: nat): (r: seq<Edge>)
    ensures |r| == n && forall k :: 0 <= k < n ==> r[k] == if k == ID_COUNT then Edge(1, 0) else Edge(0, 0)
  {
    seq(n, k => if k == ID_COUNT then Edge(1, 0) else Edge(0, 0))
  }

  lemma {:induction false} NoTargets(edges: seq<Edge>, s: nat)
    requires forall k :: 0 <= k < |edges| ==> edges[k].from != s
    ensures Targets(edges, s) == []
  {
    if edges != [] {
      NoTargets(edges[..|edges| - 1], s);
    }
  }

  lemma MisreadIsRefused(n: nat, nodes: nat)
    requires n > ID_COUNT && nodes >= 2
    ensures ValidEdges(Misread(n), nodes) && !LookupOk(Misread(n), nodes)
  {
    hide Targets;
    var edges := Misread(n);
    forall k | 0 <= k < n ensures Narrowed(edges)[k].from != 1 {
      assert k % ID_COUNT != ID_COUNT;
    }
    NoTargets(Narrowed(edges), 1);
    CommonFront(edges);
    TargetsConcat(edges[..ID_COUNT], Skipped(edges), 1);
    var rest := Skipped(edges);
    assert rest == rest[..1] + rest[1..];
    TargetsConcat(rest[..1], rest[1..], 1);
    OneEdge(rest[0]);
    assert rest[..1] == [rest[0]];
    assert !DegreeOk(edges, 1) by {
      assert 1 % ID_COUNT == 1;
    }
  }

  lemma OneEdge(e: Edge)
    ensures Targets([e], e.from) == [e.to]
  {
    assert [e][..0] == [];
  }

  // Flat lookup accepts every valid subgraph of n edges exactly when n edge ids fit.
  lemma AcceptsAllExactlyWhenIdsFit(n: nat, nodes: nat)
    requires 2 <= nodes <= ID_COUNT
    ensures (forall edges: seq<Edge> :: |edges| == n && ValidEdges(edges, nodes) ==> LookupOk(edges, nodes))
            <==> n <= ID_COUNT
  {
    hide LookupOk, Targets, Digest, ValidEdges;
    if n <= ID_COUNT {
      forall edges: seq<Edge> | |edges| == n && ValidEdges(edges, nodes) ensures LookupOk(edges, nodes) {
        HarmlessMeansFaithful(edges, nodes);
      }
    } else {
      MisreadIsRefused(n, nodes);
      assert |Misread(n)| == n;
    }
  }
}
