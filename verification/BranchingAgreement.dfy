/**
  All five views of one subgraph agree.
 */
module BranchingAgreement {
  import opened Common
  import opened FlowGraph
  import opened BranchingSpec
  import opened BranchingCsr
  import opened BranchingViews
  import opened BranchingPointer
  import opened BranchingNarrow

  lemma RowsAgree(o: Observation, rows: seq<seq<nat>>, edges: seq<Edge>, nodes: nat)
    requires ValidEdges(edges, nodes) && rows == Groups(edges, nodes)
    requires o.ok <==> InRange(rows, nodes) && Total(rows) == |edges|
    requires o.ok ==> o == Observation(nodes, |edges|, Digest(rows), true)
    ensures o == Reference(edges, nodes)
  {
    hide Digest, InRange;
    GroupsHoldEveryEdge(edges, nodes);
  }

  method ObserveBuiltCsr(edges: seq<Edge>, nodes: nat) returns (o: Observation)
    requires ShapeStatus(edges, nodes) == Ok && CsrAccounted(edges, nodes)
    ensures o == Reference(edges, nodes)
  {
    hide Digest, InRange, Csr;
    var status, view := BuildCsr(edges, nodes, true, true);
    CsrRows(edges, view.value);
    GroupsHoldEveryEdge(edges, nodes);
    o := ObserveCsr(view.value);
    RowsAgree(o, Rows(view.value), edges, nodes);
  }

  method ObserveBuiltHash(edges: seq<Edge>, nodes: nat) returns (o: Observation)
    requires ShapeStatus(edges, nodes) == Ok && CsrAccounted(edges, nodes)
    ensures o == Reference(edges, nodes)
  {
    hide Digest, InRange, Csr, Spans;
    var status, view, csr := BuildHash(edges, nodes, true, true, true, true);
    CsrRows(edges, csr);
    HashRows(view.value, csr);
    o := ObserveHash(view.value);
    RowsAgree(o, SpanRows(view.value), edges, nodes);
  }

  method ObserveBuiltPointer(edges: seq<Edge>, nodes: nat) returns (o: Observation)
    requires ShapeStatus(edges, nodes) == Ok && LinksAccounted(edges, nodes)
    ensures o == Reference(edges, nodes)
  {
    hide Digest, InRange;
    var status, view := BuildPointer(edges, nodes, true, true);
    PointerRows(edges, view.value);
    o := ObservePointer(view.value);
    RowsAgree(o, Chains(view.value), edges, nodes);
  }

  predicate ObservationsEqual(left: Observation, right: Observation) {
    left.ok && right.ok && left.nodes == right.nodes && left.edges == right.edges && left.checksum == right.checksum
  }

  // Every subgraph whose views can be built: the four other views report the same,
  // and flat lookup does too unless it narrowed an index to a different edge.
  method CompareViews(edges: seq<Edge>, nodes: nat) returns (flat: Observation, others: seq<Observation>)
    requires |edges| <= SIZE_MAX
    ensures flat.ok <==> LookupOk(edges, nodes)
    ensures flat.ok ==> flat == Reference(Narrowed(edges), nodes)
    ensures ShapeStatus(edges, nodes) == Ok && LinksAccounted(edges, nodes) ==>
              |others| == 4 && forall i :: 0 <= i < 4 ==> others[i] == Reference(edges, nodes)
    ensures ShapeStatus(edges, nodes) == Ok && LinksAccounted(edges, nodes)
            && SameRows(ReadInstead(edges), Skipped(edges)) ==>
              forall i :: 0 <= i < 4 ==> ObservationsEqual(flat, others[i])
    ensures |edges| <= ID_COUNT && nodes <= ID_COUNT ==> (flat.ok <==> ValidEdges(edges, nodes))
  {
    hide Digest, Targets, Narrowed;
    others := [];
    flat := ObserveFlatLookup(edges, nodes);
    NarrowingMatters(edges, nodes);
    var status := ValidateShape(edges, nodes);
    if status == Ok && 16 * nodes + 16 * |edges| <= SIZE_MAX {
      var checksums := new bv64[nodes];
      var once := ObserveFlatOnce(checksums, edges, nodes);
      var linked := ObserveBuiltPointer(edges, nodes);
      var compressed := ObserveBuiltCsr(edges, nodes);
      var hashed := ObserveBuiltHash(edges, nodes);
      others := [once, linked, compressed, hashed];
    }
  }

  lemma NarrowingMatters(edges: seq<Edge>, nodes: nat)
    ensures nodes <= ID_COUNT && SameRows(ReadInstead(edges), Skipped(edges)) && ValidEdges(edges, nodes) ==>
              LookupOk(edges, nodes) && Reference(Narrowed(edges), nodes) == Reference(edges, nodes)
    ensures |edges| <= ID_COUNT && nodes <= ID_COUNT ==> (LookupOk(edges, nodes) <==> ValidEdges(edges, nodes))
  {
    hide Digest, Targets;
    if nodes <= ID_COUNT && SameRows(ReadInstead(edges), Skipped(edges)) && ValidEdges(edges, nodes) {
      HarmlessMeansFaithful(edges, nodes);
    }
    if |edges| <= ID_COUNT {
      FittingIdsAreRead(edges);
    }
  }
}
