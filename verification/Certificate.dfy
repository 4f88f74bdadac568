/**
  Plan certificates: the bounded walks over a subgraph's dense index, and the
  rows that list every call of a plan.
 */
module Certificate {
  import opened Common
  import opened Fnv
  import opened FlowGraph
  import opened BranchingSpec
  import opened DenseIndex
  import opened LinearWalk

  datatype ParamKind = NoParam | TakeParam | SkipParam | DistinctParam | SortedParam | ReduceSeed | TypedAdapter

  datatype Op = Input | Relation | Operator(code: nat)

  datatype Node = Node(
    op: Op, subgraphs: nat, hasFn: bool, effects: nat, properties: nat,
    hasSize: bool, size: nat, param: ParamKind, seed: Option<nat>, equatable: bool)

  datatype Subgraph = Subgraph(nodes: seq<Node>, edges: seq<Edge>, entry: nat)

  // ---- Walking a subgraph ----

  // What both walks ask before their first step.
  ghost predicate Startable(sg: Subgraph) {
    && 0 < |sg.nodes| <= INVALID_ID && sg.entry < |sg.nodes|
    && ValidEdges(sg.edges, |sg.nodes|) && Linear(sg.edges)
  }

  // Build the index the walks use, refusing graphs with fan-out.
  method Prepare(sg: Subgraph, memory: bool) returns (index: Option<Index>)
    ensures index.Some? <==> memory && Startable(sg)
    ensures index.Some? ==> index.value.nodes == |sg.nodes| && Represents(sg.edges, |sg.nodes|, index.value)
  {
    hide Targets;
    if sg.nodes == [] || sg.entry >= |sg.nodes| {
      return None;
    }
    var status, built := Build(sg.edges, |sg.nodes|, memory);
    if status != Ok || built.value.hasFanout {
      if status == Ok {
        assert FansOut(sg.edges, built.value.firstFanout);
      }
      return None;
    }
    forall n: nat ensures |Targets(sg.edges, n)| <= 1 {
      assert !FansOut(sg.edges, n);
    }
    index := built;
  }

  // Every path from the entry stops at nodes that pass the per-node check.
  ghost predicate ReachableOk(sg: Subgraph) {
    forall p :: From(sg.edges, sg.entry, p) ==> Last(p) < |sg.nodes| && Plain(sg.nodes[Last(p)])
  }

  predicate Plain(node: Node) { node.op != Relation && node.subgraphs == 0 }

  function Mix(hash: bv64, value: nat): bv64 { MixWord(hash, Word(value)) }

  function Code(op: Op): nat {
    match op case Input => 0 case Relation => 1 case Operator(code) => code + 2
  }

  function KindCode(kind: ParamKind): nat {
    match kind
    case NoParam => 0
    case TakeParam => 1
    case SkipParam => 2
    case DistinctParam => 3
    case SortedParam => 4
    case ReduceSeed => 5
    case TypedAdapter => 6
  }

  function NodeHash(hash: bv64, id: nat, node: Node): bv64 {
    var h := Mix(Mix(hash, id), Code(node.op));
    var h := Mix(Mix(h, if node.hasFn then node.effects else 0), if node.hasFn then node.properties else 0);
    Mix(Mix(Mix(h, if node.hasSize then 1 else 0), node.size), KindCode(node.param))
  }

  // The fingerprint of the nodes along a path.
  function PathHash(sg: Subgraph, p: seq<nat>): bv64
    requires p != [] && forall i :: 0 <= i < |p| ==> p[i] < |sg.nodes|
  {
    var last := Last(p);
    var before :=
      if |p| == 1 then Mix(Mix(1469598103934665603, |sg.nodes|), |sg.edges|)
      else Mix(PathHash(sg, p[..|p| - 1]), last);
    NodeHash(before, last, sg.nodes[last])
  }

  // ---- What a fingerprint sees ----

  // The numbers that are mixed for one node.
  function NodeTokens(id: nat, node: Node): (r: seq<nat>)
    ensures |r| == 7
  {
    [id, Code(node.op), if node.hasFn then node.effects else 0, if node.hasFn then node.properties else 0,
     if node.hasSize then 1 else 0, node.size, KindCode(node.param)]
  }

  // Everything that is mixed along a path: the counts, then every node, each after the
  // first announced by its id.
  function Tokens(sg: Subgraph, p: seq<nat>): seq<nat>
    requires p != [] && forall i :: 0 <= i < |p| ==> p[i] < |sg.nodes|
  {
    var last := Last(p);
    (if |p| == 1 then [|sg.nodes|, |sg.edges|] else Tokens(sg, p[..|p| - 1]) + [last]) + NodeTokens(last, sg.nodes[last])
  }

  function MixAll(hash: bv64, tokens: seq<nat>): bv64 {
    if tokens == [] then hash else Mix(MixAll(hash, tokens[..|tokens| - 1]), tokens[|tokens| - 1])
  }

  lemma {:induction false} MixAllAppend(hash: bv64, a: seq<nat>, b: seq<nat>)
    ensures MixAll(hash, a + b) == MixAll(MixAll(hash, a), b)
  {
    hide Mix;
    if b == [] {
      assert a + b == a;
    } else {
      var n := |b| - 1;
      assert (a + b)[..|a + b| - 1] == a + b[..n];
      MixAllAppend(hash, a, b[..n]);
    }
  }

  lemma MixAllTwo(hash: bv64, x: nat, y: nat)
    ensures MixAll(hash, [x]) == Mix(hash, x) && MixAll(hash, [x, y]) == Mix(Mix(hash, x), y)
  {
    hide Mix;
    assert [x][..0] == [] && [x, y][..1] == [x];
    assert MixAll(hash, [x]) == Mix(MixAll(hash, []), x);
  }

  lemma NodeHashMixes(hash: bv64, id: nat, node: Node)
    ensures NodeHash(hash, id, node) == MixAll(hash, NodeTokens(id, node))
  {
    hide Mix, MixAll, Code, KindCode;
    var t := NodeTokens(id, node);
    var a, b, c, d := [t[0], t[1]], [t[2], t[3]], [t[4], t[5]], [t[6]];
    assert t == a + b + c + d;
    MixAllAppend(hash, a + b + c, d);
    MixAllAppend(hash, a + b, c);
    MixAllAppend(hash, a, b);
    MixAllTwo(hash, t[0], t[1]);
    MixAllTwo(MixAll(hash, a), t[2], t[3]);
    MixAllTwo(MixAll(hash, a + b), t[4], t[5]);
    MixAllTwo(MixAll(hash, a + b + c), t[6], 0);
  }

  // The fingerprint of a path mixes its tokens, in order.
  lemma {:induction false} PathHashMixesTokens(sg: Subgraph, p: seq<nat>)
    requires p != [] && forall i :: 0 <= i < |p| ==> p[i] < |sg.nodes|
    ensures PathHash(sg, p) == MixAll(1469598103934665603, Tokens(sg, p))
  {
    hide Mix, MixAll, NodeHash, NodeTokens;
    var last, start := Last(p), 1469598103934665603;
    var tail := NodeTokens(last, sg.nodes[last]);
    if |p| == 1 {
      MixAllTwo(start, |sg.nodes|, |sg.edges|);
      MixAllAppend(start, [|sg.nodes|, |sg.edges|], tail);
      NodeHashMixes(MixAll(start, [|sg.nodes|, |sg.edges|]), last, sg.nodes[last]);
    } else {
      var before := Tokens(sg, p[..|p| - 1]);
      PathHashMixesTokens(sg, p[..|p| - 1]);
      MixAllAppend(start, before, [last]);
      MixAllTwo(MixAll(start, before), last, 0);
      MixAllAppend(start, before + [last], tail);
      NodeHashMixes(MixAll(start, before + [last]), last, sg.nodes[last]);
    }
  }

  // Changing a single token changes the fingerprint.
  lemma {:induction false} OneChangeIsSeen(g: bv64, a: seq<nat>, b: seq<nat>, k: nat)
    requires |a| == |b| && k < |a| && Word(a[k]) != Word(b[k])
    requires forall i :: 0 <= i < |a| && i != k ==> a[i] == b[i]
    ensures MixAll(g, a) != MixAll(g, b)
  {
    hide MixWord, Word;
    var n := |a| - 1;
    if k < n { OneChangeIsSeen(g, a[..n], b[..n], k); } else { assert a[..n] == b[..n]; }
    if MixAll(g, a) == MixAll(g, b) {
      MixIsInjective(MixAll(g, a[..n]), MixAll(g, b[..n]), Word(a[n]), Word(b[n]));
    }
  }

  // The two graphs agree along `p`, but for number `t` of what is mixed for node p[k].
  ghost predicate DifferAt(sg: Subgraph, sg': Subgraph, p: seq<nat>, k: nat, t: nat) {
    && p != [] && |sg.nodes| == |sg'.nodes| && |sg.edges| == |sg'.edges| && k < |p| && t < 7
    && (forall i :: 0 <= i < |p| ==> p[i] < |sg.nodes|)
    && (forall i :: 0 <= i < |p| && i != k ==> sg.nodes[p[i]] == sg'.nodes[p[i]])
    && (forall i :: 0 <= i < 7 && i != t ==>
          NodeTokens(p[k], sg.nodes[p[k]])[i] == NodeTokens(p[k], sg'.nodes[p[k]])[i])
  }

  lemma {:induction false} SameTokens(sg: Subgraph, sg': Subgraph, p: seq<nat>)
    requires p != [] && |sg.nodes| == |sg'.nodes| && |sg.edges| == |sg'.edges|
    requires forall i :: 0 <= i < |p| ==> p[i] < |sg.nodes| && sg.nodes[p[i]] == sg'.nodes[p[i]]
    ensures Tokens(sg, p) == Tokens(sg', p)
  {
    hide NodeTokens;
    if |p| > 1 { SameTokens(sg, sg', p[..|p| - 1]); }
  }

  lemma {:induction false} TokensDiffer(sg: Subgraph, sg': Subgraph, p: seq<nat>, k: nat, t: nat) returns (m: nat)
    requires DifferAt(sg, sg', p, k, t)
    ensures m < |Tokens(sg, p)| == |Tokens(sg', p)|
    ensures Tokens(sg, p)[m] == NodeTokens(p[k], sg.nodes[p[k]])[t]
    ensures Tokens(sg', p)[m] == NodeTokens(p[k], sg'.nodes[p[k]])[t]
    ensures forall i :: 0 <= i < |Tokens(sg, p)| && i != m ==> Tokens(sg, p)[i] == Tokens(sg', p)[i]
  {
    hide NodeTokens;
    var n := |p| - 1;
    var last := NodeTokens(p[n], sg.nodes[p[n]]);
    if k < n {
      m := TokensDiffer(sg, sg', p[..n], k, t);
      assert Tokens(sg, p) == Tokens(sg, p[..n]) + ([p[n]] + last);
      assert Tokens(sg', p) == Tokens(sg', p[..n]) + ([p[n]] + last);
    } else {
      if n > 0 { SameTokens(sg, sg', p[..n]); }
      var before := if n == 0 then [|sg.nodes|, |sg.edges|] else Tokens(sg, p[..n]) + [p[n]];
      assert Tokens(sg, p) == before + last && Tokens(sg', p) == before + NodeTokens(p[n], sg'.nodes[p[n]]);
      m := |before| + t;
    }
  }

  // Changing one field that is mixed, of one node on the path, changes the fingerprint.
  lemma FieldChangeIsSeen(sg: Subgraph, sg': Subgraph, p: seq<nat>, k: nat, t: nat)
    requires DifferAt(sg, sg', p, k, t)
    requires Word(NodeTokens(p[k], sg.nodes[p[k]])[t]) != Word(NodeTokens(p[k], sg'.nodes[p[k]])[t])
    ensures PathHash(sg, p) != PathHash(sg', p)
  {
    hide Word, Mix, MixAll, NodeTokens, PathHash;
    var m := TokensDiffer(sg, sg', p, k, t);
    PathHashMixesTokens(sg, p);
    PathHashMixesTokens(sg', p);
    OneChangeIsSeen(1469598103934665603, Tokens(sg, p), Tokens(sg', p), m);
  }

  // ---- The fingerprint walk ----

  // Walk from the entry to the end. The walk succeeds exactly on fan-out-free
  // graphs whose reachable nodes are plain and lie on no reachable cycle, and it
  // makes at most as many visits as there are nodes.
  method Fingerprint(sg: Subgraph, memory: bool) returns (r: Option<bv64>, ghost trail: seq<nat>)
    ensures r.Some? <==> memory && Startable(sg) && ReachableOk(sg) && !CycleReachable(sg.edges, sg.entry)
    ensures r.Some? ==> Complete(sg.edges, sg.entry, trail) && |trail| <= |sg.nodes|
    ensures r.Some? ==> (forall i :: 0 <= i < |trail| ==> trail[i] < |sg.nodes|) && r.value == PathHash(sg, trail)
  {
    hide Targets, Linear, NodeHash, Represents, Mix;
    trail := [sg.entry];
    var index := Prepare(sg, memory);
    if index.None? {
      return None, trail;
    }
    var id, visited := sg.entry, 0;
    var hash := Mix(Mix(1469598103934665603, |sg.nodes|), |sg.edges|);
    while true
      invariant From(sg.edges, sg.entry, trail) && Last(trail) == id && |trail| == visited + 1
      invariant visited <= |sg.nodes|
      invariant forall i :: 0 <= i < |trail| ==> trail[i] < |sg.nodes|
      invariant PathHash(sg, trail) == NodeHash(hash, id, sg.nodes[id])
      invariant PlainSoFar(sg, trail, visited)
      decreases |sg.nodes| - visited
    {
      visited := visited + 1;
      if visited > |sg.nodes| {
        TooLongMeansCycle(sg.edges, |sg.nodes|, sg.entry, trail);
        return None, trail;
      }
      var node := sg.nodes[id];
      if node.op == Relation || node.subgraphs != 0 {
        assert !ReachableOk(sg);
        return None, trail;
      }
      hash := NodeHash(hash, id, node);
      var next := Successor(index.value, id, sg.edges);
      if next.None? {
        break;
      }
      ghost var longer := trail + [next.value];
      assert longer[..|trail|] == trail;
      Extends(sg.edges, sg.entry, trail, next.value);
      PathInRange(sg.edges, |sg.nodes|, sg.entry, longer);
      trail := longer;
      hash := Mix(hash, next.value);
      id := next.value;
    }
    assert Complete(sg.edges, sg.entry, trail);
    CompleteMeansAcyclic(sg.edges, sg.entry, trail);
    WalkSeesAll(sg, trail);
    r := Some(hash);
  }

  predicate PlainSoFar(sg: Subgraph, p: seq<nat>, k: nat)
    requires k <= |p| && forall i :: 0 <= i < |p| ==> p[i] < |sg.nodes|
  {
    forall i :: 0 <= i < k ==> Plain(sg.nodes[p[i]])
  }

  // A walk that ends has seen every reachable node.
  lemma WalkSeesAll(sg: Subgraph, p: seq<nat>)
    requires Startable(sg) && Complete(sg.edges, sg.entry, p)
    requires forall i :: 0 <= i < |p| ==> p[i] < |sg.nodes|
    requires PlainSoFar(sg, p, |p|)
    ensures ReachableOk(sg)
  {
    hide Targets, Linear;
    forall q | From(sg.edges, sg.entry, q) ensures Last(q) < |sg.nodes| && Plain(sg.nodes[Last(q)]) {
      WithinComplete(sg.edges, sg.entry, p, q);
      PathsAgree(sg.edges, sg.entry, p, q, |q| - 1);
    }
  }

  // ---- Plan parameters ----

  datatype Opcode = Filter | Map | FlatMap | Reduce | Take | Skip

  datatype Call = Call(callable: nat, valid: bool, effects: nat, properties: nat, input: Option<nat>, output: Option<nat>)

  datatype Inst = Inst(
    opcode: Opcode, call: Call, chain: seq<Call>, input: nat, output: nat,
    hasSize: bool, size: nat, param: ParamKind, hasSeed: bool, seed: Option<nat>)

  predicate InstMatches(node: Node, inst: Inst) {
    && inst.param == node.param
    && if node.param == ReduceSeed
       then node.seed.Some? && inst.hasSeed && inst.seed == node.seed && node.equatable
       else !inst.hasSeed && inst.seed.None?
  }

  method CheckInst(node: Node, inst: Inst) returns (ok: bool)
    ensures ok <==> InstMatches(node, inst)
  {
    if inst.param != node.param { return false; }
    if node.param == ReduceSeed {
      if node.seed.None? || !inst.hasSeed || inst.seed.None? || !node.equatable { return false; }
      return inst.seed.value == node.seed.value;
    }
    return !inst.hasSeed && inst.seed.None?;
  }

  // The nodes along a path that become instructions.
  function Operators(sg: Subgraph, p: seq<nat>): seq<Node>
    requires forall i :: 0 <= i < |p| ==> p[i] < |sg.nodes|
  {
    if p == [] then []
    else Operators(sg, p[..|p| - 1]) + if sg.nodes[Last(p)].op == Input then [] else [sg.nodes[Last(p)]]
  }

  predicate CodeMatches(ops: seq<Node>, code: seq<Inst>) {
    |ops| == |code| && forall i :: 0 <= i < |ops| ==> InstMatches(ops[i], code[i])
  }

  // The whole path from the entry carries the code's parameters, in order.
  ghost predicate PathMatches(sg: Subgraph, code: seq<Inst>, p: seq<nat>) {
    && Complete(sg.edges, sg.entry, p)
    && (forall i :: 0 <= i < |p| ==> p[i] < |sg.nodes|)
    && CodeMatches(Operators(sg, p), code)
  }

  lemma {:induction false} OperatorsPrefix(sg: Subgraph, p: seq<nat>, k: nat)
    requires k <= |p| && forall i :: 0 <= i < |p| ==> p[i] < |sg.nodes|
    ensures Operators(sg, p[..k]) <= Operators(sg, p)
    decreases |p| - k
  {
    if k < |p| {
      assert p[..k + 1][..k] == p[..k];
      OperatorsPrefix(sg, p, k + 1);
    } else {
      assert p[..k] == p;
    }
  }

  // If the operators of a walked prefix already disagree, no path matches.
  lemma PrefixDecides(sg: Subgraph, code: seq<Inst>, trail: seq<nat>, p: seq<nat>)
    requires Startable(sg) && From(sg.edges, sg.entry, trail) && PathMatches(sg, code, p)
    ensures |trail| <= |p| && p[..|trail|] == trail
    ensures Operators(sg, p[..|trail|]) <= Operators(sg, p)
  {
    hide Targets, Linear, Operators, CodeMatches;
    WithinComplete(sg.edges, sg.entry, p, trail);
    forall i | 0 <= i < |trail| ensures p[i] == trail[i] {
      PathsAgree(sg.edges, sg.entry, p, trail, i);
    }
    OperatorsPrefix(sg, p, |trail|);
  }

  method ParametersMatch(sg: Subgraph, code: seq<Inst>, memory: bool) returns (ok: bool)
    ensures ok <==> memory && Startable(sg) && exists p :: PathMatches(sg, code, p)
  {
    hide Targets, Linear, Represents, InstMatches, Operators;
    var index := Prepare(sg, memory);
    if index.None? {
      return false;
    }
    ghost var trail: seq<nat> := [sg.entry];
    var id, visited, pc := sg.entry, 0, 0;
    StartsEmpty(sg);
    while true
      invariant From(sg.edges, sg.entry, trail) && Last(trail) == id && |trail| == visited + 1
      invariant forall i :: 0 <= i < |trail| ==> trail[i] < |sg.nodes|
      invariant visited <= |sg.nodes| && pc <= |code|
      invariant CodeMatches(Operators(sg, trail[..visited]), code[..pc])
      decreases |sg.nodes| - visited
    {
      visited := visited + 1;
      if visited > |sg.nodes| {
        NoPathWhenLong(sg, code, trail);
        return false;
      }
      assert trail[..visited] == trail;
      OperatorsStep(sg, trail);
      if sg.nodes[id].op != Input {
        if pc >= |code| {
          NoPathAfter(sg, code, trail, pc);
          return false;
        }
        var matches := CheckInst(sg.nodes[id], code[pc]);
        if !matches {
          NoPathAfter(sg, code, trail, pc);
          return false;
        }
        CodeStep(Operators(sg, trail[..visited - 1]), code, pc, sg.nodes[id]);
        pc := pc + 1;
      }
      var next := Successor(index.value, id, sg.edges);
      if next.None? {
        break;
      }
      ghost var longer := trail + [next.value];
      assert longer[..visited] == trail;
      Extends(sg.edges, sg.entry, trail, next.value);
      PathInRange(sg.edges, |sg.nodes|, sg.entry, longer);
      trail := longer;
      id := next.value;
    }
    ok := pc == |code|;
    WalkDecides(sg, code, trail, pc);
  }

  lemma StartsEmpty(sg: Subgraph)
    ensures Operators(sg, []) == [] && CodeMatches([], [])
  {
  }

  lemma OperatorsStep(sg: Subgraph, p: seq<nat>)
    requires p != [] && forall i :: 0 <= i < |p| ==> p[i] < |sg.nodes|
    ensures Operators(sg, p) ==
            if sg.nodes[Last(p)].op == Input then Operators(sg, p[..|p| - 1])
            else Operators(sg, p[..|p| - 1]) + [sg.nodes[Last(p)]]
  {
  }

  lemma CodeStep(ops: seq<Node>, code: seq<Inst>, pc: nat, node: Node)
    requires pc < |code| && CodeMatches(ops, code[..pc]) && InstMatches(node, code[pc])
    ensures CodeMatches(ops + [node], code[..pc + 1])
  {
    hide InstMatches;
    forall i | 0 <= i < |ops| ensures InstMatches(ops[i], code[i]) {
      assert code[..pc][i] == code[i];
    }
  }

  lemma NoPathWhenLong(sg: Subgraph, code: seq<Inst>, trail: seq<nat>)
    requires Startable(sg) && From(sg.edges, sg.entry, trail) && |trail| > |sg.nodes|
    ensures !exists p :: PathMatches(sg, code, p)
  {
    hide Targets, Linear, Operators, CodeMatches;
    TooLongMeansCycle(sg.edges, |sg.nodes|, sg.entry, trail);
    forall p | PathMatches(sg, code, p) ensures false {
      CompleteMeansAcyclic(sg.edges, sg.entry, p);
    }
  }

  // A matching path matches the node a walk has reached with the instruction the
  // walk has come to.
  lemma MatchReaches(sg: Subgraph, code: seq<Inst>, trail: seq<nat>, p: seq<nat>, pc: nat)
    requires Startable(sg) && From(sg.edges, sg.entry, trail) && PathMatches(sg, code, p)
    requires forall i :: 0 <= i < |trail| ==> trail[i] < |sg.nodes|
    requires sg.nodes[Last(trail)].op != Input && pc == |Operators(sg, trail[..|trail| - 1])|
    ensures pc < |code| && InstMatches(sg.nodes[Last(trail)], code[pc])
  {
    hide Targets, Linear, Operators, InstMatches;
    PrefixDecides(sg, code, trail, p);
    OperatorsStep(sg, trail);
    assert Operators(sg, p)[pc] == sg.nodes[Last(trail)];
  }

  lemma NoPathAfter(sg: Subgraph, code: seq<Inst>, trail: seq<nat>, pc: nat)
    requires Startable(sg) && From(sg.edges, sg.entry, trail) && pc <= |code|
    requires forall i :: 0 <= i < |trail| ==> trail[i] < |sg.nodes|
    requires sg.nodes[Last(trail)].op != Input && |Operators(sg, trail[..|trail| - 1])| == pc
    requires pc == |code| || !InstMatches(sg.nodes[Last(trail)], code[pc])
    ensures !exists p :: PathMatches(sg, code, p)
  {
    hide Targets, Linear, Operators, InstMatches, PathMatches;
    forall p | PathMatches(sg, code, p) ensures false {
      MatchReaches(sg, code, trail, p, pc);
    }
  }

  lemma MatchIsWalk(sg: Subgraph, code: seq<Inst>, trail: seq<nat>, p: seq<nat>)
    requires Startable(sg) && Complete(sg.edges, sg.entry, trail) && PathMatches(sg, code, p)
    ensures p == trail
  {
    hide Targets, Linear, Operators, CodeMatches;
    PrefixDecides(sg, code, trail, p);
    WithinComplete(sg.edges, sg.entry, trail, p);
  }

  lemma WalkDecides(sg: Subgraph, code: seq<Inst>, trail: seq<nat>, pc: nat)
    requires Startable(sg) && Complete(sg.edges, sg.entry, trail) && pc <= |code|
    requires forall i :: 0 <= i < |trail| ==> trail[i] < |sg.nodes|
    requires CodeMatches(Operators(sg, trail), code[..pc])
    ensures pc == |code| <==> exists p :: PathMatches(sg, code, p)
  {
    hide Targets, Linear, Operators, InstMatches;
    if pc == |code| {
      assert code[..pc] == code;
      assert PathMatches(sg, code, trail);
    }
    forall p | PathMatches(sg, code, p) ensures pc == |code| {
      MatchIsWalk(sg, code, trail, p);
    }
  }
}
