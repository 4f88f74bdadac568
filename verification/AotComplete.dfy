/**
  What the checker must not refuse: every fusion of a valid pipeline's maps, every
  deletion of a repeated idempotent map. And what validation is for: in a valid
  pipeline no callable ever meets a value of another type.
 */
module AotComplete {
  import opened Common
  import opened FlowGraph
  import opened Aot
  import opened AotMeaning
  import opened AotTrace

  // ---- Types ----

  // Applied to a value of its parameter type, a mapped callable gives its result type.
  ghost predicate Typed<V(!new)>(env: Env<V>, typeOf: V -> TypeDesc, stages: seq<Stage>) {
    forall k, v :: 0 <= k < |stages| && stages[k].kind == Map && |stages[k].callable.params| == 1
                   && typeOf(v) == stages[k].callable.params[0] ==>
      typeOf(env.apply(stages[k].callable.id, v)) == stages[k].callable.result
  }

  // Every callable the value meets on its way takes values of its type.
  predicate Meets<V>(env: Env<V>, typeOf: V -> TypeDesc, stages: seq<Stage>, v: V) {
    stages == [] || (
      && stages[0].callable.params == [typeOf(v)]
      && (stages[0].kind == Filter ==> stages[0].callable.result == BOOL_TYPE)
      && match RunStage(env, stages[0], v)
         case None => true
         case Some(w) => Meets(env, typeOf, stages[1..], w))
  }

  lemma TypedRest<V(!new)>(env: Env<V>, typeOf: V -> TypeDesc, stages: seq<Stage>)
    requires Typed(env, typeOf, stages) && stages != []
    ensures Typed(env, typeOf, stages[1..])
  {
    var rest := stages[1..];
    forall k, v | 0 <= k < |rest| && rest[k].kind == Map && |rest[k].callable.params| == 1
                  && typeOf(v) == rest[k].callable.params[0]
      ensures typeOf(env.apply(rest[k].callable.id, v)) == rest[k].callable.result
    {
      assert rest[k] == stages[k + 1];
    }
  }

  lemma ChecksRest(stages: seq<Stage>, input: TypeDesc)
    requires TypeChecks(stages, input) && stages != []
    ensures TypeChecks(stages[1..], stages[0].outputType)
  {
    hide StageContract;
    var rest := stages[1..];
    forall k | 0 <= k < |rest| ensures StageContract(rest[k], FlowType(rest, stages[0].outputType, k)) {
      assert StageContract(stages[k + 1], FlowType(stages, input, k + 1));
    }
  }

  lemma {:induction false} ChecksMeansSafe<V(!new)>(env: Env<V>, typeOf: V -> TypeDesc, stages: seq<Stage>, v: V)
    requires TypeChecks(stages, typeOf(v)) && Typed(env, typeOf, stages)
    ensures Meets(env, typeOf, stages, v)
    ensures RunStages(env, stages, v).Some? ==>
              typeOf(RunStages(env, stages, v).value) == FlowType(stages, typeOf(v), |stages|)
    decreases |stages|
  {
    if stages != [] {
      assert StageContract(stages[0], FlowType(stages, typeOf(v), 0));
      ChecksRest(stages, typeOf(v));
      TypedRest(env, typeOf, stages);
      match RunStage(env, stages[0], v)
      case None =>
      case Some(w) =>
        assert typeOf(w) == stages[0].outputType;
        ChecksMeansSafe(env, typeOf, stages[1..], w);
    }
  }

  // A valid pipeline takes its input type to its output type, and never applies a
  // callable to a value of another type.
  lemma ValidIsTypeSafe<V(!new)>(env: Env<V>, typeOf: V -> TypeDesc, ir: Pipeline, v: V)
    requires ValidPipeline(ir) && Typed(env, typeOf, ir.stages) && typeOf(v) == ir.inputType
    ensures Meets(env, typeOf, ir.stages, v)
    ensures RunStages(env, ir.stages, v).Some? ==> typeOf(RunStages(env, ir.stages, v).value) == ir.outputType
  {
    ChecksMeansSafe(env, typeOf, ir.stages, v);
  }

  // A valid pipeline calls only what may be replayed at will: pure, deterministic, total
  // and alias-free functions, each with what its dispatch needs.
  lemma ValidStagesArePure(ir: Pipeline, k: nat)
    requires ValidPipeline(ir) && k < |ir.stages|
    ensures var stage, fn := ir.stages[k], ir.stages[k].callable;
            && fn.binds && fn.pure && fn.regular && stage.inputType.eligible && stage.outputType.eligible
            && (stage.dispatch == StaticTarget ==> fn.captureSize == 0 && stage.targetName != "")
            && (stage.dispatch == CanonicalRawBatch ==> fn.captureSize == 0 && fn.rawDispatch)
            && (stage.dispatch == Adapter ==> fn.hasInvoke)
  {
    assert StageContract(ir.stages[k], FlowType(ir.stages, ir.inputType, k));
  }

  // The nodes of an accepted graph hand each other the types of the pipeline: every
  // node takes what the one before it gives, the first the input and the last the output.
  lemma AcceptedGraphIsTyped(ir: Pipeline, g: Graph, hops: seq<Hop>, k: nat)
    requires MatchesGraph(ir, g, hops) && k < |hops|
    ensures forall i :: 0 <= i <= k ==> hops[i].node < |g.subgraphs[0].nodes|
    ensures var nodes := g.subgraphs[0].nodes;
            && nodes[hops[k].node].inputType == (if k == 0 then ir.inputType else nodes[hops[k - 1].node].outputType)
            && (k == |hops| - 1 ==> nodes[hops[k].node].outputType == ir.outputType)
  {
    hide Walk, Targets, TypeChecks, Matches, Calls, GoodHop;
    var sg := g.subgraphs[0];
    WalkIsPath(ir.stages, sg, sg.entry, 0, hops);
    forall i | 0 <= i <= k ensures hops[i].node < |sg.nodes| {
      HopTypes(ir.stages, sg, hops, i);
    }
    HopTypes(ir.stages, sg, hops, k);
    TakesTheFlow(ir.stages, ir.inputType, hops[k].first);
    if k > 0 {
      HopTypes(ir.stages, sg, hops, k - 1);
    }
  }

  // A hop's node has the types of the stages it covers.
  lemma HopTypes(stages: seq<Stage>, sg: Subgraph, hops: seq<Hop>, k: nat)
    requires k < |hops| && GoodHop(stages, sg, sg.entry, 0, hops, k)
    ensures hops[k].node < |sg.nodes| && hops[k].first == Covered(0, hops, k)
    ensures 0 < hops[k].count && hops[k].first + hops[k].count <= |stages|
    ensures sg.nodes[hops[k].node].inputType == stages[hops[k].first].inputType
    ensures sg.nodes[hops[k].node].outputType == stages[hops[k].first + hops[k].count - 1].outputType
  {
    hide Targets, CallIsStage;
  }

  // The nodes an accepted graph is walked through are plain filters and maps.
  lemma AcceptedNodesArePlain(ir: Pipeline, g: Graph, hops: seq<Hop>, k: nat)
    requires MatchesGraph(ir, g, hops) && k < |hops|
    ensures hops[k].node < |g.subgraphs[0].nodes|
    ensures var node := g.subgraphs[0].nodes[hops[k].node];
            && node.hasFn && !node.hasRelation && node.subgraphCount == 0
            && (node.op == OpMap || (node.op == OpFilter && node.chain == [])) && (node.chain != [] ==> !node.chainNull)
  {
    hide Walk, Targets, ValidPipeline, CallIsStage;
    var sg := g.subgraphs[0];
    WalkIsPath(ir.stages, sg, sg.entry, 0, hops);
    assert GoodHop(ir.stages, sg, sg.entry, 0, hops, k);
  }

  lemma TakesTheFlow(stages: seq<Stage>, input: TypeDesc, k: nat)
    requires TypeChecks(stages, input) && k < |stages|
    ensures stages[k].inputType == FlowType(stages, input, k)
  {
    assert StageContract(stages[k], FlowType(stages, input, k));
  }

  // ---- Every fusion is accepted ----

  // How many stages each node covers: groups of one, or of adjacent maps.
  function Start(counts: seq<nat>, k: nat): nat
    requires k <= |counts|
  {
    if k == 0 then 0 else Start(counts, k - 1) + counts[k - 1]
  }

  predicate Fusion(stages: seq<Stage>, counts: seq<nat>) {
    && counts != [] && Start(counts, |counts|) == |stages|
    && forall k :: 0 <= k < |counts| ==> Group(stages, counts, k)
  }

  predicate Group(stages: seq<Stage>, counts: seq<nat>, k: nat)
    requires k < |counts|
  {
    var first := Start(counts, k);
    && counts[k] > 0 && first + counts[k] <= |stages|
    && (counts[k] > 1 ==> forall i :: first <= i < first + counts[k] ==> stages[i].kind == Map)
  }

  function Chain(stages: seq<Stage>, first: nat, count: nat): (r: seq<Callable>)
    requires first + count <= |stages|
    ensures |r| == count && forall i :: 0 <= i < count ==> r[i] == stages[first + i].callable
  {
    seq(count, i requires 0 <= i < count => stages[first + i].callable)
  }

  // The node of group `k`: the stage's own callable, or the fused chain.
  function GroupNode(stages: seq<Stage>, counts: seq<nat>, k: nat): Node
    requires Fusion(stages, counts) && k < |counts|
  {
    assert Group(stages, counts, k);
    var first := Start(counts, k);
    var stage, last := stages[first], stages[first + counts[k] - 1];
    Node(if stage.kind == Filter then OpFilter else OpMap, true, false, 0, stage.callable,
         if counts[k] == 1 then [] else Chain(stages, first, counts[k]), false, stage.inputType, last.outputType)
  }

  function Source(ir: Pipeline): Node
    requires ir.stages != []
  {
    Node(OpInput, false, false, 0, ir.stages[0].callable, [], false, ir.inputType, ir.inputType)
  }

  function Line(n: nat): (r: seq<Edge>)
    ensures |r| == n && forall i :: 0 <= i < n ==> r[i] == Edge(i, i + 1)
  {
    seq(n, i requires 0 <= i => Edge(i, i + 1))
  }

  function FusedNodes(ir: Pipeline, counts: seq<nat>): (r: seq<Node>)
    requires ir.stages != [] && Fusion(ir.stages, counts)
    ensures |r| == |counts| + 1 && r[0] == Source(ir)
    ensures forall k :: 0 <= k < |counts| ==> r[k + 1] == GroupNode(ir.stages, counts, k)
  {
    [Source(ir)] + seq(|counts|, k requires 0 <= k < |counts| => GroupNode(ir.stages, counts, k))
  }

  // The graph of a pipeline with its maps fused as `counts` says.
  function FusedGraph(ir: Pipeline, counts: seq<nat>): Graph
    requires ir.stages != [] && Fusion(ir.stages, counts)
  {
    Graph([Subgraph(FusedNodes(ir, counts), Line(|counts|), 0, |counts|, ir.inputType, ir.outputType)], 0)
  }

  lemma {:induction false} LineTargets(n: nat, s: nat)
    ensures Targets(Line(n), s) == if s < n then [s + 1] else []
  {
    if n > 0 {
      assert Line(n)[..n - 1] == Line(n - 1);
      LineTargets(n - 1, s);
    }
  }

  lemma GroupMatches(stages: seq<Stage>, counts: seq<nat>, k: nat)
    requires Fusion(stages, counts) && k < |counts|
    ensures |Calls(GroupNode(stages, counts, k))| == counts[k]
    ensures Matches(GroupNode(stages, counts, k), stages, Start(counts, k))
  {
    hide Start;
    assert Group(stages, counts, k);
    var first, node := Start(counts, k), GroupNode(stages, counts, k);
    if counts[k] > 1 {
      assert stages[first].kind == Map;
    }
    assert |Calls(node)| == counts[k];
    forall i | 0 <= i < |Calls(node)|
      ensures CallIsStage(Calls(node)[i], stages[first + i], if node.op == OpFilter then Filter else Map)
    {
    }
  }

  function FusedHops(counts: seq<nat>): (r: seq<Hop>)
    ensures |r| == |counts| && forall k :: 0 <= k < |counts| ==> r[k] == Hop(k + 1, Start(counts, k), counts[k])
  {
    seq(|counts|, k requires 0 <= k < |counts| => Hop(k + 1, Start(counts, k), counts[k]))
  }

  lemma {:induction false} FusedCovers(counts: seq<nat>, k: nat)
    requires k <= |counts|
    ensures Covered(0, FusedHops(counts), k) == Start(counts, k) && At(0, FusedHops(counts), k) == k
  {
  }

  // The checker accepts every fusion of every valid pipeline, hop by hop.
  lemma EveryFusionMatches(ir: Pipeline, counts: seq<nat>)
    requires ValidPipeline(ir) && Fusion(ir.stages, counts)
    ensures MatchesGraph(ir, FusedGraph(ir, counts), FusedHops(counts))
  {
    hide ValidPipeline, Walk, Matches, Targets, GroupNode, Start, Calls;
    NotEmpty(ir);
    var sg, hops := FusedGraph(ir, counts).subgraphs[0], FusedHops(counts);
    forall k | 0 <= k < |hops| ensures GoodHop(ir.stages, sg, 0, 0, hops, k) {
      FusedCovers(counts, k);
      LineTargets(|counts|, k);
      GroupMatches(ir.stages, counts, k);
      assert sg.nodes[k + 1] == GroupNode(ir.stages, counts, k);
    }
    FusedCovers(counts, |counts|);
    LineTargets(|counts|, |counts|);
    PathIsWalk(ir.stages, sg, 0, 0, hops);
  }

  lemma NotEmpty(ir: Pipeline)
    requires ValidPipeline(ir)
    ensures ir.stages != []
  {
  }

  // ---- Every legitimate deletion is accepted ----

  // Stages `r` and `d` are neighbours among those that remain.
  predicate Neighbours(removed: seq<bool>, r: nat, d: nat) {
    r < d < |removed| && !removed[r] && !removed[d] && forall k :: r < k < d ==> removed[k]
  }

  // Two stages apply the same map, declared idempotent.
  predicate Repeats(stages: seq<Stage>, r: nat, d: nat)
    requires r < |stages| && d < |stages|
  {
    && stages[r].kind == Map && stages[d].kind == Map && stages[r].callable.id == stages[d].callable.id
    && Endomap(stages[r].callable) && Endomap(stages[d].callable)
  }

  // Declared pure and idempotent, with resolved metadata, on values of one type.
  predicate Endomap(c: Callable) {
    c.binds && c.pure && c.idempotent && c.valueProtocol && c.params == [c.result]
  }

  predicate Injective(coords: seq<Coord>) {
    forall i, j :: 0 <= i < j < |coords| ==> coords[i] != coords[j]
  }

  lemma {:induction false} NearestIsNeighbour(removed: seq<bool>, r: nat, d: nat)
    requires r < d <= |removed| && !removed[r]
    ensures Nearest(removed, d) == r <==> forall k :: r < k < d ==> removed[k]
    decreases d
  {
    if d - 1 > r && removed[d - 1] {
      NearestIsNeighbour(removed, r, d - 1);
    }
  }

  lemma CoordinateIsFound(coords: seq<Coord>, i: nat)
    requires Injective(coords) && i < |coords|
    ensures IndexOf(coords, coords[i]) == Some(i)
  {
    IndexOfFinds(coords, coords[i]);
    assert coords[i] in coords;
  }

  // An event is accepted exactly when it deletes the later of two neighbouring stages
  // that repeat an idempotent map.
  lemma AcceptedExactlyWhenNeighbours(stages: seq<Stage>, coords: seq<Coord>, removed: seq<bool>, r: nat, d: nat)
    requires |removed| == |stages| == |coords| && Injective(coords) && r < |stages| && d < |stages|
    ensures ApplyEvent(stages, coords, removed, Event(IdempotentMapElimination, 0, coords[r], coords[d])) ==
            if Neighbours(removed, r, d) && Repeats(stages, r, d) then Some(removed[d := true]) else None
  {
    hide IndexOf, Nearest;
    CoordinateIsFound(coords, r);
    CoordinateIsFound(coords, d);
    if r < d && !removed[r] {
      NearestIsNeighbour(removed, r, d);
    }
  }

  // Deleting all but the first of any number of repetitions, in order.
  function Collapse(coords: seq<Coord>, first: nat, n: nat): (r: seq<Event>)
    requires first + n < |coords|
    ensures |r| == n
    ensures forall k :: 0 <= k < n ==> r[k] == Event(IdempotentMapElimination, 0, coords[first], coords[first + 1 + k])
  {
    seq(n, k requires 0 <= k < n => Event(IdempotentMapElimination, 0, coords[first], coords[first + 1 + k]))
  }

  lemma {:induction false} CollapseIsAccepted(stages: seq<Stage>, coords: seq<Coord>, first: nat, n: nat)
    requires |coords| == |stages| && Injective(coords) && first + n < |stages|
    requires forall k :: first <= k <= first + n ==> Repeats(stages, first, k)
    ensures Replay(stages, coords, Collapse(coords, first, n)) ==
            Some(seq(|stages|, i => first < i <= first + n))
  {
    hide ApplyEvent, Repeats;
    var gone := seq(|stages|, i => first < i <= first + n);
    if n == 0 {
      assert gone == seq(|stages|, i => false);
    } else {
      CollapseIsAccepted(stages, coords, first, n - 1);
      var before := seq(|stages|, i => first < i <= first + n - 1);
      assert Collapse(coords, first, n)[..n - 1] == Collapse(coords, first, n - 1);
      AcceptedExactlyWhenNeighbours(stages, coords, before, first, first + n);
      assert Repeats(stages, first, first + n);
      assert before[first + n := true] == gone;
    }
  }
}
