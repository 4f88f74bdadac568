/**
  The dense successor index: one array slot per node holding the target of its
  first outgoing edge, and the smallest node with more than one.
 */
module DenseIndex {
  import opened Common
  import opened FlowGraph
  import opened BranchingSpec

  const NO_FANOUT: nat := 0xFFFF_FFFF_FFFF_FFFF

  datatype Status = Ok | InvalidArgument | InvalidEdge | AllocationFailed

  datatype Index = Index(nodes: nat, successors: seq<nat>, hasFanout: bool, firstFanout: nat)

  function First(targets: seq<nat>): nat { if targets == [] then INVALID_ID else targets[0] }

  predicate FansOut(edges: seq<Edge>, n: nat) { |Targets(edges, n)| >= 2 }

  // The fan-out report: whether any node has two edges, and the smallest that does.
  ghost predicate Reports(edges: seq<Edge>, hasFanout: bool, firstFanout: nat) {
    && (hasFanout ==> FansOut(edges, firstFanout))
    && (!hasFanout ==> firstFanout == NO_FANOUT)
    && (forall n: nat :: FansOut(edges, n) ==> hasFanout && firstFanout <= n)
  }

  ghost predicate Represents(edges: seq<Edge>, nodes: nat, index: Index) {
    && index.nodes == nodes == |index.successors|
    && (forall n :: 0 <= n < nodes ==> index.successors[n] == First(Targets(edges, n)))
    && Reports(edges, index.hasFanout, index.firstFanout)
  }

  lemma ReportStep(edges: seq<Edge>, k: nat, hasFanout: bool, firstFanout: nat)
    requires k < |edges| && Reports(edges[..k], hasFanout, firstFanout)
    ensures Targets(edges[..k], edges[k].from) == [] ==> Reports(edges[..k + 1], hasFanout, firstFanout)
    ensures Targets(edges[..k], edges[k].from) != [] ==>
              if !hasFanout || edges[k].from < firstFanout then Reports(edges[..k + 1], true, edges[k].from)
              else Reports(edges[..k + 1], hasFanout, firstFanout)
  {
    hide Targets;
    var seen, grown, from := edges[..k], edges[..k + 1], edges[k].from;
    forall n: nat
      ensures FansOut(grown, n) <==> FansOut(seen, n) || (n == from && Targets(seen, n) != [])
    {
      TargetsStep(edges, k, n);
    }
  }

  method Build(edges: seq<Edge>, nodes: nat, memory: bool) returns (status: Status, index: Option<Index>)
    ensures status == (if nodes > INVALID_ID then InvalidArgument
                       else if nodes != 0 && !memory then AllocationFailed
                       else if !ValidEdges(edges, nodes) then InvalidEdge else Ok)
    ensures index.Some? <==> status == Ok
    ensures index.Some? ==> Represents(edges, nodes, index.value)
  {
    hide Targets, Reports;
    index := None;
    if nodes > INVALID_ID {
      return InvalidArgument, None;
    }
    if nodes != 0 && !memory {
      return AllocationFailed, None;
    }
    var successors := new nat[nodes];
    for node := 0 to nodes
      invariant forall n :: 0 <= n < node ==> successors[n] == INVALID_ID
    {
      successors[node] := INVALID_ID;
    }
    var hasFanout := false;
    var firstFanout: nat := NO_FANOUT;
    NoEdges(edges);
    for k := 0 to |edges|
      invariant forall i :: 0 <= i < k ==> ValidEdge(edges[i], nodes)
      invariant forall n :: 0 <= n < nodes ==> successors[n] == First(Targets(edges[..k], n))
      invariant Reports(edges[..k], hasFanout, firstFanout)
    {
      var from, to := edges[k].from, edges[k].to;
      if from >= nodes || to >= nodes {
        assert !ValidEdge(edges[k], nodes);
        return InvalidEdge, None;
      }
      assert ValidEdges(edges[..k], nodes);
      TargetsInRange(edges[..k], nodes, from);
      ReportStep(edges, k, hasFanout, firstFanout);
      ghost var grown := edges[..k + 1];
      forall n | 0 <= n < nodes
        ensures First(Targets(grown, n)) ==
                if n == from && Targets(edges[..k], n) == [] then to else First(Targets(edges[..k], n))
      {
        TargetsStep(edges, k, n);
      }
      if successors[from] == INVALID_ID {
        successors[from] := to;
      } else if !hasFanout || from < firstFanout {
        hasFanout := true;
        firstFanout := from;
      }
    }
    assert edges[..|edges|] == edges;
    status, index := Ok, Some(Index(nodes, successors[..], hasFanout, firstFanout));
  }

  lemma NoEdges(edges: seq<Edge>)
    ensures Reports(edges[..0], false, NO_FANOUT)
    ensures forall n: nat :: Targets(edges[..0], n) == []
  {
  }

  // The lookup answers with the first edge's target, if the node has an edge.
  method Successor(index: Index, node: nat, ghost edges: seq<Edge>) returns (r: Option<nat>)
    requires ValidEdges(edges, index.nodes) && index.nodes <= INVALID_ID && Represents(edges, index.nodes, index)
    ensures r == if node < index.nodes && Targets(edges, node) != [] then Some(Targets(edges, node)[0]) else None
  {
    TargetsInRange(edges, index.nodes, node);
    if node < index.nodes && index.successors[node] != INVALID_ID {
      r := Some(index.successors[node]);
    } else {
      r := None;
    }
  }
}
