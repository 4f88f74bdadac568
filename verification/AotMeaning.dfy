/**
  What pipelines and graph walks compute, and why a matched walk computes the
  same as its pipeline: the walked path is simple, its nodes partition the
  stages, and every node means its stages.
 */
module AotMeaning {
  import opened Common
  import opened FlowGraph
  import opened Aot

  // The functions that callables denote.
  datatype Env<!V> = Env(apply: (nat, V) -> V, test: (nat, V) -> bool)

  // ---- Meanings ----

  // One value through one stage; None when a filter drops it.
  function RunStage<V>(env: Env<V>, stage: Stage, v: V): Option<V> {
    match stage.kind
    case Filter => if env.test(stage.callable.id, v) then Some(v) else None
    case Map => Some(env.apply(stage.callable.id, v))
  }

  function RunStages<V>(env: Env<V>, stages: seq<Stage>, v: V): Option<V> {
    if stages == [] then Some(v)
    else match RunStage(env, stages[0], v)
      case None => None
      case Some(w) => RunStages(env, stages[1..], w)
  }

  function ApplyAll<V>(env: Env<V>, calls: seq<Callable>, v: V): V {
    if calls == [] then v else ApplyAll(env, calls[1..], env.apply(calls[0].id, v))
  }

  function RunNode<V>(env: Env<V>, node: Node, v: V): Option<V> {
    if node.op == OpFilter then if env.test(node.fn.id, v) then Some(v) else None
    else Some(ApplyAll(env, Calls(node), v))
  }

  function RunHops<V>(env: Env<V>, nodes: seq<Node>, hops: seq<Hop>, v: V): Option<V>
    requires forall k :: 0 <= k < |hops| ==> hops[k].node < |nodes|
  {
    if hops == [] then Some(v)
    else match RunNode(env, nodes[hops[0].node], v)
      case None => None
      case Some(w) => RunHops(env, nodes, hops[1..], w)
  }

  // The output sequence for an input sequence.
  function Outputs<V>(env: Env<V>, stages: seq<Stage>, inputs: seq<V>): seq<V> {
    if inputs == [] then []
    else
      var first := RunStages(env, stages, inputs[0]);
      (if first.Some? then [first.value] else []) + Outputs(env, stages, inputs[1..])
  }

  // ---- The meaning of a graph, from the graph alone ----

  // The one way through a graph: from the entry along single successors to a node
  // that has none.
  ghost predicate IsRun(sg: Subgraph, p: seq<nat>) {
    && p != [] && p[0] == sg.entry
    && (forall k :: 0 <= k < |p| ==> p[k] < |sg.nodes|)
    && (forall i, j :: 0 <= i < |p| && j == i + 1 && j < |p| ==> Targets(sg.edges, p[i]) == [p[j]])
    && Targets(sg.edges, p[|p| - 1]) == []
  }

  ghost predicate HasRun(sg: Subgraph) {
    exists p :: IsRun(sg, p)
  }

  function RunNodes<V>(env: Env<V>, nodes: seq<Node>, p: seq<nat>, v: V): Option<V>
    requires forall k :: 0 <= k < |p| ==> p[k] < |nodes|
  {
    if p == [] then Some(v)
    else match RunNode(env, nodes[p[0]], v)
      case None => None
      case Some(w) => RunNodes(env, nodes, p[1..], w)
  }

  function NodeOutputs<V>(env: Env<V>, nodes: seq<Node>, p: seq<nat>, inputs: seq<V>): seq<V>
    requires forall k :: 0 <= k < |p| ==> p[k] < |nodes|
  {
    if inputs == [] then []
    else
      var first := RunNodes(env, nodes, p, inputs[0]);
      (if first.Some? then [first.value] else []) + NodeOutputs(env, nodes, p, inputs[1..])
  }

  // What a graph outputs: its inputs taken through every node after the entry.
  ghost function GraphOutputs<V>(env: Env<V>, sg: Subgraph, inputs: seq<V>): seq<V>
    requires HasRun(sg)
  {
    var p :| IsRun(sg, p);
    NodeOutputs(env, sg.nodes, p[1..], inputs)
  }

  lemma {:induction false} RunsAgree(sg: Subgraph, p: seq<nat>, q: seq<nat>, k: nat)
    requires IsRun(sg, p) && IsRun(sg, q) && k < |p|
    ensures k < |q| && p[k] == q[k]
  {
    hide Targets;
    if k > 0 {
      RunsAgree(sg, p, q, k - 1);
      assert Targets(sg.edges, p[k - 1]) == [p[k]];
      if k < |q| {
        assert Targets(sg.edges, q[k - 1]) == [q[k]];
      }
    }
  }

  // There is at most one way through.
  lemma RunIsUnique(sg: Subgraph, p: seq<nat>, q: seq<nat>)
    requires IsRun(sg, p) && IsRun(sg, q)
    ensures p == q
  {
    hide Targets;
    RunsAgree(sg, p, q, |p| - 1);
    RunsAgree(sg, q, p, |q| - 1);
    forall k | 0 <= k < |p| ensures p[k] == q[k] { RunsAgree(sg, p, q, k); }
  }

  // ---- The walk as a path ----

  // The node reached, and the stages covered, after `k` hops.
  function At(node: nat, hops: seq<Hop>, k: nat): nat
    requires k <= |hops|
  {
    if k == 0 then node else hops[k - 1].node
  }

  function Covered(stage: nat, hops: seq<Hop>, k: nat): nat
    requires k <= |hops|
  {
    if k == 0 then stage else hops[k - 1].first + hops[k - 1].count
  }

  // Hop `k` follows the only edge out of the node before it, and its node
  // matches the next stages.
  ghost predicate GoodHop(stages: seq<Stage>, sg: Subgraph, node: nat, stage: nat, hops: seq<Hop>, k: nat)
    requires k < |hops|
  {
    var h := hops[k];
    && At(node, hops, k) < |sg.nodes| && Targets(sg.edges, At(node, hops, k)) == [h.node]
    && h.node < |sg.nodes| && h.first == Covered(stage, hops, k) && h.count == |Calls(sg.nodes[h.node])|
    && Matches(sg.nodes[h.node], stages, h.first)
  }

  // A path of single successors from `node` to the tail that partitions the
  // stages from `stage` on.
  ghost predicate IsWalk(stages: seq<Stage>, sg: Subgraph, node: nat, stage: nat, hops: seq<Hop>) {
    && (forall k :: 0 <= k < |hops| ==> GoodHop(stages, sg, node, stage, hops, k))
    && Covered(stage, hops, |hops|) == |stages|
    && sg.tail == At(node, hops, |hops|)
    && (sg.tail < |sg.nodes| ==> Targets(sg.edges, sg.tail) == [])
  }

  lemma ShiftHop(stages: seq<Stage>, sg: Subgraph, node: nat, stage: nat, hops: seq<Hop>, k: nat)
    requires |hops| > 0 && k + 1 < |hops| && hops[0].first == stage
    ensures GoodHop(stages, sg, hops[0].node, stage + hops[0].count, hops[1..], k)
            <==> GoodHop(stages, sg, node, stage, hops, k + 1)
  {
    hide Matches, Targets, Calls;
    assert hops[1..][k] == hops[k + 1];
  }

  // Dropping or adding a good first hop.
  lemma ShiftWalk(stages: seq<Stage>, sg: Subgraph, node: nat, stage: nat, hops: seq<Hop>)
    requires |hops| > 0 && GoodHop(stages, sg, node, stage, hops, 0)
    ensures IsWalk(stages, sg, hops[0].node, stage + hops[0].count, hops[1..])
            <==> IsWalk(stages, sg, node, stage, hops)
  {
    hide GoodHop;
    assert hops[0].first == stage by { GoodFirst(stages, sg, node, stage, hops); }
    var h, rest, next := hops[0], hops[1..], stage + hops[0].count;
    assert At(h.node, rest, |rest|) == At(node, hops, |hops|);
    assert Covered(next, rest, |rest|) == Covered(stage, hops, |hops|);
    if IsWalk(stages, sg, node, stage, hops) {
      forall k | 0 <= k < |rest| ensures GoodHop(stages, sg, h.node, next, rest, k) {
        ShiftHop(stages, sg, node, stage, hops, k);
      }
    }
    if IsWalk(stages, sg, h.node, next, rest) {
      forall k | 0 <= k < |hops| ensures GoodHop(stages, sg, node, stage, hops, k) {
        if k > 0 { ShiftHop(stages, sg, node, stage, hops, k - 1); }
      }
    }
  }

  lemma GoodFirst(stages: seq<Stage>, sg: Subgraph, node: nat, stage: nat, hops: seq<Hop>)
    requires |hops| > 0 && GoodHop(stages, sg, node, stage, hops, 0)
    ensures hops[0].first == stage && hops[0].count > 0 && stage + hops[0].count <= |stages|
    ensures SingleSuccessor(sg.edges, |sg.nodes|, node) == Some(hops[0].node)
    ensures hops[0].node < |sg.nodes| && Matches(sg.nodes[hops[0].node], stages, stage)
    ensures hops[0].count == |Calls(sg.nodes[hops[0].node])|
  {}

  lemma WalkUnfolds(stages: seq<Stage>, sg: Subgraph, node: nat, stage: nat, hops: seq<Hop>)
    requires stage < |stages| && Walk(stages, sg, node, stage) == Some(hops)
    ensures |hops| > 0 && GoodHop(stages, sg, node, stage, hops, 0)
    ensures stage < stage + hops[0].count <= |stages|
    ensures Walk(stages, sg, hops[0].node, stage + hops[0].count) == Some(hops[1..])
  {
    hide Targets;
    assert Targets(sg.edges, node) == [hops[0].node];
  }

  // The walk finds a path of the expected form...
  lemma {:induction false} WalkIsPath(stages: seq<Stage>, sg: Subgraph, node: nat, stage: nat, hops: seq<Hop>)
    requires stage <= |stages| && Walk(stages, sg, node, stage) == Some(hops)
    ensures IsWalk(stages, sg, node, stage, hops)
    decreases |stages| - stage
  {
    hide Targets, Matches, GoodHop;
    if stage < |stages| {
      WalkUnfolds(stages, sg, node, stage, hops);
      WalkIsPath(stages, sg, hops[0].node, stage + hops[0].count, hops[1..]);
      ShiftWalk(stages, sg, node, stage, hops);
    }
  }

  // ... and it finds it whenever there is one.
  lemma {:induction false} PathIsWalk(stages: seq<Stage>, sg: Subgraph, node: nat, stage: nat, hops: seq<Hop>)
    requires stage <= |stages| && IsWalk(stages, sg, node, stage, hops)
    ensures Walk(stages, sg, node, stage) == Some(hops)
    decreases |stages| - stage
  {
    hide Targets, Matches, GoodHop;
    if hops != [] {
      CoverGrows(stages, sg, node, stage, hops, 0);
      GoodFirst(stages, sg, node, stage, hops);
      ShiftWalk(stages, sg, node, stage, hops);
      PathIsWalk(stages, sg, hops[0].node, stage + hops[0].count, hops[1..]);
      assert hops == [Hop(hops[0].node, stage, hops[0].count)] + hops[1..];
    }
  }

  lemma {:induction false} CoverGrows(stages: seq<Stage>, sg: Subgraph, node: nat, stage: nat, hops: seq<Hop>, k: nat)
    requires IsWalk(stages, sg, node, stage, hops) && k < |hops|
    ensures Covered(stage, hops, k) < Covered(stage, hops, |hops|) == |stages|
    decreases |hops| - k
  {
    assert GoodHop(stages, sg, node, stage, hops, k);
    if k + 1 < |hops| { CoverGrows(stages, sg, node, stage, hops, k + 1); }
  }

  // ---- The path is simple ----

  // From equal nodes the walk continues equally.
  lemma {:induction false} EqualNodesContinue(stages: seq<Stage>, sg: Subgraph, node: nat, stage: nat, hops: seq<Hop>,
                                              i: nat, j: nat, d: nat)
    requires IsWalk(stages, sg, node, stage, hops)
    requires i < j <= |hops| && j + d <= |hops| && At(node, hops, i) == At(node, hops, j)
    ensures At(node, hops, i + d) == At(node, hops, j + d)
  {
    if d > 0 {
      EqualNodesContinue(stages, sg, node, stage, hops, i, j, d - 1);
      assert GoodHop(stages, sg, node, stage, hops, i + d - 1);
      assert GoodHop(stages, sg, node, stage, hops, j + d - 1);
    }
  }

  // No node is visited twice: the tail has no successor, every earlier node has one.
  lemma WalkIsSimple(stages: seq<Stage>, sg: Subgraph, node: nat, stage: nat, hops: seq<Hop>, i: nat, j: nat)
    requires IsWalk(stages, sg, node, stage, hops) && i < j <= |hops|
    ensures At(node, hops, i) != At(node, hops, j)
  {
    var d := |hops| - j;
    assert GoodHop(stages, sg, node, stage, hops, i + d);
    if At(node, hops, i) == At(node, hops, j) { EqualNodesContinue(stages, sg, node, stage, hops, i, j, d); }
  }

  // ---- Meaning ----

  lemma {:induction false} RunStagesConcat<V>(env: Env<V>, a: seq<Stage>, b: seq<Stage>, v: V)
    ensures RunStages(env, a + b, v) ==
            match RunStages(env, a, v) case None => None case Some(w) => RunStages(env, b, w)
  {
    if a == [] {
      assert a + b == b;
    } else {
      assert (a + b)[1..] == a[1..] + b;
      match RunStage(env, a[0], v)
      case None =>
      case Some(w) => RunStagesConcat(env, a[1..], b, w);
    }
  }

  lemma {:induction false} MapsMeanApplyAll<V>(env: Env<V>, calls: seq<Callable>, stages: seq<Stage>, v: V)
    requires |calls| == |stages|
    requires forall i :: 0 <= i < |calls| ==> CallIsStage(calls[i], stages[i], Map)
    ensures RunStages(env, stages, v) == Some(ApplyAll(env, calls, v))
  {
    if calls != [] {
      assert CallIsStage(calls[0], stages[0], Map);
      MapsMeanApplyAll(env, calls[1..], stages[1..], env.apply(calls[0].id, v));
    }
  }

  // A matched node means the stages it covers.
  lemma NodeMeansStages<V>(env: Env<V>, node: Node, stages: seq<Stage>, first: nat, v: V)
    requires Matches(node, stages, first)
    ensures RunNode(env, node, v) == RunStages(env, stages[first..first + |Calls(node)|], v)
  {
    var calls := Calls(node);
    var mine := stages[first..first + |calls|];
    assert forall i :: 0 <= i < |calls| ==> mine[i] == stages[first + i];
    if node.op == OpFilter {
      assert CallIsStage(calls[0], mine[0], Filter);
      assert mine[1..] == [];
    } else {
      MapsMeanApplyAll(env, calls, mine, v);
    }
  }

  // A walk means the stages it covers.
  lemma {:induction false} WalkMeansStages<V>(env: Env<V>, stages: seq<Stage>, sg: Subgraph, node: nat, stage: nat,
                                              hops: seq<Hop>, v: V)
    requires stage <= |stages| && IsWalk(stages, sg, node, stage, hops)
    requires forall k :: 0 <= k < |hops| ==> hops[k].node < |sg.nodes|
    ensures RunHops(env, sg.nodes, hops, v) == RunStages(env, stages[stage..], v)
    decreases hops
  {
    hide Targets, Matches, GoodHop, RunNode, RunStage;
    if hops != [] {
      var h, rest := hops[0], hops[1..];
      var n := h.count;
      GoodFirst(stages, sg, node, stage, hops);
      ShiftWalk(stages, sg, node, stage, hops);
      NodeMeansStages(env, sg.nodes[h.node], stages, stage, v);
      assert stages[stage..] == stages[stage..stage + n] + stages[stage + n..];
      RunStagesConcat(env, stages[stage..stage + n], stages[stage + n..], v);
      match RunNode(env, sg.nodes[h.node], v)
      case None =>
      case Some(w) => WalkMeansStages(env, stages, sg, h.node, stage + n, rest, w);
    } else {
      assert stages[stage..] == [];
    }
  }

  function NodesOf(hops: seq<Hop>): (p: seq<nat>)
    ensures |p| == |hops| && forall k :: 0 <= k < |hops| ==> p[k] == hops[k].node
  {
    seq(|hops|, k requires 0 <= k < |hops| => hops[k].node)
  }

  // A walk is the way through its graph.
  lemma WalkIsRun(stages: seq<Stage>, sg: Subgraph, hops: seq<Hop>)
    requires IsWalk(stages, sg, sg.entry, 0, hops) && sg.entry < |sg.nodes|
    ensures IsRun(sg, [sg.entry] + NodesOf(hops))
  {
    hide Targets, Matches, Calls;
    var p := [sg.entry] + NodesOf(hops);
    HopsInRange(stages, sg, sg.entry, 0, hops);
    forall i, j | 0 <= i < |p| && j == i + 1 && j < |p| ensures Targets(sg.edges, p[i]) == [p[j]] {
      assert GoodHop(stages, sg, sg.entry, 0, hops, i);
      assert p[i] == At(sg.entry, hops, i) && p[j] == hops[i].node;
    }
    assert p[|p| - 1] == At(sg.entry, hops, |hops|);
  }

  lemma {:induction false} HopsMeanNodes<V>(env: Env<V>, nodes: seq<Node>, hops: seq<Hop>, v: V)
    requires forall k :: 0 <= k < |hops| ==> hops[k].node < |nodes|
    ensures RunNodes(env, nodes, NodesOf(hops), v) == RunHops(env, nodes, hops, v)
  {
    hide RunNode;
    if hops != [] {
      assert NodesOf(hops)[1..] == NodesOf(hops[1..]);
      match RunNode(env, nodes[hops[0].node], v)
      case None =>
      case Some(w) => HopsMeanNodes(env, nodes, hops[1..], w);
    }
  }

  lemma {:induction false} SameValuesSameOutputs<V>(env: Env<V>, nodes: seq<Node>, p: seq<nat>, stages: seq<Stage>,
                                                    inputs: seq<V>)
    requires forall k :: 0 <= k < |p| ==> p[k] < |nodes|
    requires forall v :: RunNodes(env, nodes, p, v) == RunStages(env, stages, v)
    ensures NodeOutputs(env, nodes, p, inputs) == Outputs(env, stages, inputs)
  {
    if inputs != [] { SameValuesSameOutputs(env, nodes, p, stages, inputs[1..]); }
  }

  // Soundness of the graph match: the matched graph has one way through, and it
  // and the pipeline produce the same output on every input sequence.
  lemma MatchedGraphMeansPipeline<V(!new)>(env: Env<V>, ir: Pipeline, g: Graph, hops: seq<Hop>, inputs: seq<V>)
    requires MatchesGraph(ir, g, hops)
    ensures HasRun(g.subgraphs[0])
    ensures GraphOutputs(env, g.subgraphs[0], inputs) == Outputs(env, ir.stages, inputs)
  {
    hide ValidPipeline, GoodHop, RunHops, RunStages, RunNodes, IsRun;
    var root := g.subgraphs[0];
    WalkIsPath(ir.stages, root, root.entry, 0, hops);
    HopsInRange(ir.stages, root, root.entry, 0, hops);
    var through := [root.entry] + NodesOf(hops);
    WalkIsRun(ir.stages, root, hops);
    forall p | IsRun(root, p) ensures p == through { RunIsUnique(root, p, through); }
    assert through[1..] == NodesOf(hops);
    forall v ensures RunNodes(env, root.nodes, NodesOf(hops), v) == RunStages(env, ir.stages, v) {
      WalkMeansStages(env, ir.stages, root, root.entry, 0, hops, v);
      HopsMeanNodes(env, root.nodes, hops, v);
      assert ir.stages[0..] == ir.stages;
    }
    SameValuesSameOutputs(env, root.nodes, NodesOf(hops), ir.stages, inputs);
  }

  lemma HopsInRange(stages: seq<Stage>, sg: Subgraph, node: nat, stage: nat, hops: seq<Hop>)
    requires IsWalk(stages, sg, node, stage, hops)
    ensures forall k :: 0 <= k < |hops| ==> hops[k].node < |sg.nodes|
  {
    forall k | 0 <= k < |hops| ensures hops[k].node < |sg.nodes| {
      assert GoodHop(stages, sg, node, stage, hops, k);
    }
  }
}
