/**
  Flat edge lists, shared by the graph walks and indexes.
 */
module FlowGraph {
  import opened Common

  datatype Edge = Edge(from: nat, to: nat)

  // Targets of the edges leaving `node`, in edge order.
  function Targets(edges: seq<Edge>, node: nat): seq<nat> {
    if edges == [] then []
    else
      var last := edges[|edges| - 1];
      Targets(edges[..|edges| - 1], node) + if last.from == node then [last.to] else []
  }

  // The only successor of a node that has exactly one outgoing edge.
  function SingleSuccessor(edges: seq<Edge>, nodes: nat, node: nat): Option<nat> {
    if node < nodes && |Targets(edges, node)| == 1 then Some(Targets(edges, node)[0]) else None
  }
}
