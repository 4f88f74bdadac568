/**
  The ahead-of-time equivalence checker: pipelines of Filter and Map stages, the
  walk that matches them against a graph, and their meanings.

  Graphs are taken in normal form. A callable is the function it denotes: two
  callables are the same when they have the same identity.
 */
module Aot {
  import opened Common
  import opened FlowGraph

  const STAGE_LIMIT: nat := 16

  datatype TypeDesc = TypeDesc(id: nat, eligible: bool)

  datatype Callable = Callable(
    id: nat,
    binds: bool,          // metadata resolves
    pure: bool,
    regular: bool,        // declared deterministic, total and alias free
    idempotent: bool,     // declared deterministic, total and idempotent
    valueProtocol: bool,
    params: seq<TypeDesc>,
    result: TypeDesc,
    captureSize: nat,
    rawDispatch: bool,
    hasInvoke: bool
  )

  datatype StageKind = Filter | Map
  datatype Dispatch = StaticTarget | CanonicalRawBatch | Adapter

  datatype Stage = Stage(kind: StageKind, callable: Callable, inputType: TypeDesc, outputType: TypeDesc,
                         dispatch: Dispatch, targetName: string)

  datatype Pipeline = Pipeline(stages: seq<Stage>, inputType: TypeDesc, outputType: TypeDesc)

  datatype Op = OpInput | OpFilter | OpMap | OpOther

  // `chain` is a fused callable chain; `chainNull` says that its storage is missing.
  datatype Node = Node(op: Op, hasFn: bool, hasRelation: bool, subgraphCount: nat,
                       fn: Callable, chain: seq<Callable>, chainNull: bool,
                       inputType: TypeDesc, outputType: TypeDesc)

  datatype Subgraph = Subgraph(nodes: seq<Node>, edges: seq<Edge>, entry: nat, tail: nat,
                               inputType: TypeDesc, outputType: TypeDesc)

  datatype Graph = Graph(subgraphs: seq<Subgraph>, root: nat)

  const BOOL_TYPE: TypeDesc := TypeDesc(0, true)

  predicate Same(a: Callable, b: Callable) { a.id == b.id }

  // ---- Validation ----

  predicate StageContract(stage: Stage, flow: TypeDesc) {
    var fn := stage.callable;
    && stage.inputType.eligible && stage.outputType.eligible && stage.inputType == flow
    && fn.binds && fn.pure && fn.regular
    && fn.valueProtocol && |fn.params| == 1 && fn.params[0] == stage.inputType
    && (match stage.kind
        case Filter => fn.result == BOOL_TYPE && stage.outputType == stage.inputType
        case Map => fn.result == stage.outputType)
    && (match stage.dispatch
        case StaticTarget => fn.captureSize == 0 && stage.targetName != ""
        case CanonicalRawBatch => fn.captureSize == 0 && fn.rawDispatch
        case Adapter => fn.hasInvoke)
  }

  // The type that flows out of a pipeline's first `k` stages.
  function FlowType(stages: seq<Stage>, input: TypeDesc, k: nat): TypeDesc
    requires k <= |stages|
  {
    if k == 0 then input else stages[k - 1].outputType
  }

  predicate TypeChecks(stages: seq<Stage>, input: TypeDesc) {
    forall k :: 0 <= k < |stages| ==> StageContract(stages[k], FlowType(stages, input, k))
  }

  predicate ValidPipeline(ir: Pipeline) {
    && 0 < |ir.stages| <= STAGE_LIMIT && ir.inputType.eligible && ir.outputType.eligible
    && TypeChecks(ir.stages, ir.inputType)
    && FlowType(ir.stages, ir.inputType, |ir.stages|) == ir.outputType
  }

  // The stage's own checks, in the checker's order.
  method CheckStage(stage: Stage, flow: TypeDesc) returns (ok: bool)
    ensures ok <==> StageContract(stage, flow)
  {
    if !stage.inputType.eligible || !stage.outputType.eligible || stage.inputType != flow { return false; }
    var fn := stage.callable;
    if !fn.binds || !fn.pure || !fn.regular { return false; }
    if !fn.valueProtocol || |fn.params| != 1 || fn.params[0] != stage.inputType { return false; }
    if stage.kind == Filter {
      if fn.result != BOOL_TYPE || stage.outputType != stage.inputType { return false; }
    } else if fn.result != stage.outputType {
      return false;
    }
    match stage.dispatch
    case StaticTarget => ok := fn.captureSize == 0 && |stage.targetName| != 0;
    case CanonicalRawBatch => ok := fn.captureSize == 0 && fn.rawDispatch;
    case Adapter => ok := fn.hasInvoke;
  }

  method Validate(ir: Pipeline) returns (ok: bool)
    ensures ok <==> ValidPipeline(ir)
  {
    if |ir.stages| == 0 || |ir.stages| > STAGE_LIMIT || !ir.inputType.eligible || !ir.outputType.eligible {
      return false;
    }
    var flow := ir.inputType;
    for index := 0 to |ir.stages|
      invariant flow == FlowType(ir.stages, ir.inputType, index)
      invariant forall k :: 0 <= k < index ==> StageContract(ir.stages[k], FlowType(ir.stages, ir.inputType, k))
    {
      var checked := CheckStage(ir.stages[index], flow);
      if !checked { return false; }
      flow := ir.stages[index].outputType;
    }
    return flow == ir.outputType;
  }

  // ---- Matching one node ----

  // The callables a node applies, in order.
  function Calls(node: Node): seq<Callable> {
    if node.op == OpMap && node.chain != [] then node.chain else [node.fn]
  }

  predicate CallIsStage(call: Callable, stage: Stage, kind: StageKind) {
    stage.kind == kind && Same(call, stage.callable)
  }

  // The node's callables are the stages from `first` on.
  predicate Matches(node: Node, stages: seq<Stage>, first: nat) {
    var calls := Calls(node);
    && node.hasFn && !node.hasRelation && node.subgraphCount == 0
    && first + |calls| <= |stages|
    && (node.op == OpFilter || node.op == OpMap)
    && (node.op == OpFilter ==> node.chain == [])
    && (node.op == OpMap && node.chain != [] ==> !node.chainNull)
    && (forall i :: 0 <= i < |calls| ==>
          CallIsStage(calls[i], stages[first + i], if node.op == OpFilter then Filter else Map))
    && node.inputType == stages[first].inputType
    && node.outputType == stages[first + |calls| - 1].outputType
  }

  method NodeMatchesStages(node: Node, stages: seq<Stage>, first: nat) returns (ok: bool, next: nat)
    ensures ok <==> Matches(node, stages, first)
    ensures ok ==> next == first + |Calls(node)| <= |stages|
  {
    next := first;
    if !node.hasFn || node.hasRelation || node.subgraphCount != 0 || first >= |stages| { return false, next; }
    if node.op == OpFilter {
      if node.chain != [] || !CallIsStage(node.fn, stages[first], Filter) {
        assert Calls(node)[0] == node.fn && stages[first + 0] == stages[first];
        return false, next;
      }
      next := first + 1;
    } else if node.op == OpMap {
      var calls := if node.chain != [] then node.chain else [node.fn];
      assert calls == Calls(node);
      if (node.chain != [] && node.chainNull) || |calls| > |stages| - first { return false, next; }
      for index := 0 to |calls|
        invariant forall i :: 0 <= i < index ==> CallIsStage(calls[i], stages[first + i], Map)
      {
        if !CallIsStage(calls[index], stages[first + index], Map) { return false, next; }
      }
      next := first + |calls|;
    } else {
      return false, next;
    }
    ok := node.inputType == stages[first].inputType && node.outputType == stages[next - 1].outputType;
  }

  // ---- The walk ----

  // One step of the walk: the node entered, and the stages it covers.
  datatype Hop = Hop(node: nat, first: nat, count: nat)

  // The walk from `node` with `stage` stages already matched.
  function Walk(stages: seq<Stage>, sg: Subgraph, node: nat, stage: nat): Option<seq<Hop>>
    requires stage <= |stages|
    decreases |stages| - stage
  {
    if stage == |stages| then
      if (node < |sg.nodes| ==> Targets(sg.edges, node) == []) && sg.tail == node then Some([]) else None
    else match SingleSuccessor(sg.edges, |sg.nodes|, node)
      case None => None
      case Some(next) =>
        if next < |sg.nodes| && Matches(sg.nodes[next], stages, stage) then
          var n := |Calls(sg.nodes[next])|;
          match Walk(stages, sg, next, stage + n)
          case None => None
          case Some(rest) => Some([Hop(next, stage, n)] + rest)
        else None
  }

  // The shape of a graph that can be walked at all.
  predicate Walkable(ir: Pipeline, g: Graph) {
    && |g.subgraphs| == 1 && g.root == 0
    && var root := g.subgraphs[0];
      && |root.nodes| >= 2 && |root.edges| == |root.nodes| - 1 && root.entry < |root.nodes|
      && root.inputType == ir.inputType && root.outputType == ir.outputType
      && var source := root.nodes[root.entry];
        source.op == OpInput && !source.hasFn && source.subgraphCount == 0 && source.outputType == ir.inputType
  }

  // The pipeline matches the graph along these hops.
  ghost predicate MatchesGraph(ir: Pipeline, g: Graph, hops: seq<Hop>) {
    && ValidPipeline(ir) && Walkable(ir, g)
    && Walk(ir.stages, g.subgraphs[0], g.subgraphs[0].entry, 0) == Some(hops)
  }

  // The walk loop: follow single successors, matching nodes to stages.
  method WalkGraph(stages: seq<Stage>, root: Subgraph) returns (ok: bool)
    requires root.entry < |root.nodes|
    ensures ok <==> Walk(stages, root, root.entry, 0).Some?
  {
    hide Matches, Targets;
    var node: nat, stage: nat := root.entry, 0;
    while stage < |stages|
      invariant stage <= |stages| && node < |root.nodes|
      invariant Walk(stages, root, root.entry, 0).Some? <==> Walk(stages, root, node, stage).Some?
      decreases |stages| - stage
    {
      var successor := SingleSuccessor(root.edges, |root.nodes|, node);
      if successor.None? || successor.value >= |root.nodes| { return false; }
      var matched, next := NodeMatchesStages(root.nodes[successor.value], stages, stage);
      if !matched { return false; }
      node, stage := successor.value, next;
    }
    ok := Targets(root.edges, node) == [] && root.tail == node;
  }

  method MatchGraph(ir: Pipeline, g: Graph) returns (ok: bool)
    ensures ok <==> exists hops :: MatchesGraph(ir, g, hops)
  {
    hide Walk, ValidPipeline;
    ok := Validate(ir);
    if !ok { return; }
    if g.root >= |g.subgraphs| || |g.subgraphs| != 1 { return false; }
    var root := g.subgraphs[g.root];
    if |root.nodes| < 2 || |root.edges| != |root.nodes| - 1 || root.entry >= |root.nodes| ||
       root.inputType != ir.inputType || root.outputType != ir.outputType {
      return false;
    }
    var source := root.nodes[root.entry];
    if source.op != OpInput || source.hasFn || source.subgraphCount != 0 || source.outputType != ir.inputType {
      return false;
    }
    ok := WalkGraph(ir.stages, root);
    if ok { assert MatchesGraph(ir, g, Walk(ir.stages, root, root.entry, 0).value); }
  }
}
