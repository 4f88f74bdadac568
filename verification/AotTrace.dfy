/**
  The optimizer-trace check: a trace of idempotent-map eliminations is replayed
  against a pipeline, and what survives must match the optimized graph.
 */
module AotTrace {
  import opened Common
  import opened FlowGraph
  import opened Aot
  import opened AotMeaning

  // A callable's position in the source graph.
  datatype Coord = Coord(node: nat, call: nat)

  datatype Rule = IdempotentMapElimination | OtherRule

  datatype Event = Event(rule: Rule, subgraph: nat, retained: Coord, removed: Coord)

  // ---- Source coordinates ----

  function HopCoord(nodes: seq<Node>, hop: Hop, i: nat): Coord
    requires hop.node < |nodes|
  {
    Coord(hop.node, if nodes[hop.node].op == OpMap && nodes[hop.node].chain != [] then i else 0)
  }

  // The coordinate of every stage a walk covers, in stage order.
  function Coordinates(nodes: seq<Node>, hops: seq<Hop>): seq<Coord>
    requires forall k :: 0 <= k < |hops| ==> hops[k].node < |nodes|
  {
    if hops == [] then []
    else
      var init, last := hops[..|hops| - 1], hops[|hops| - 1];
      Coordinates(nodes, init) + seq(last.count, i requires 0 <= i < last.count => HopCoord(nodes, last, i))
  }

  lemma {:induction false} CoordinatesNameHops(nodes: seq<Node>, hops: seq<Hop>, c: Coord)
    requires forall k :: 0 <= k < |hops| ==> hops[k].node < |nodes|
    requires c in Coordinates(nodes, hops)
    ensures exists k :: 0 <= k < |hops| && hops[k].node == c.node
  {
    var n := |hops| - 1;
    if c in Coordinates(nodes, hops[..n]) {
      CoordinatesNameHops(nodes, hops[..n], c);
    } else {
      assert hops[n].node == c.node;
    }
  }

  // A fused node covers several stages; any other node covers one.
  ghost predicate CountsCalls(nodes: seq<Node>, hops: seq<Hop>) {
    forall k :: 0 <= k < |hops| ==> hops[k].node < |nodes| && hops[k].count == |Calls(nodes[hops[k].node])|
  }

  lemma {:induction false} DistinctNodesDistinctCoordinates(nodes: seq<Node>, hops: seq<Hop>, i: nat, j: nat)
    requires CountsCalls(nodes, hops)
    requires forall k, l :: 0 <= k < l < |hops| ==> hops[k].node != hops[l].node
    requires i < j < |Coordinates(nodes, hops)|
    ensures Coordinates(nodes, hops)[i] != Coordinates(nodes, hops)[j]
  {
    var n := |hops| - 1;
    var init := hops[..n];
    var m := |Coordinates(nodes, init)|;
    var all := Coordinates(nodes, hops);
    if j < m {
      DistinctNodesDistinctCoordinates(nodes, init, i, j);
    } else {
      assert all[j] == HopCoord(nodes, hops[n], j - m);
      if i < m {
        assert all[i] == Coordinates(nodes, init)[i];
        CoordinatesNameHops(nodes, init, all[i]);
      } else {
        assert all[i] == HopCoord(nodes, hops[n], i - m);
      }
    }
  }

  // Coordinates collected along a walk are injective: they identify stages.
  lemma CoordinatesAreInjective(stages: seq<Stage>, sg: Subgraph, hops: seq<Hop>, i: nat, j: nat)
    requires Walk(stages, sg, sg.entry, 0) == Some(hops)
    requires forall k :: 0 <= k < |hops| ==> hops[k].node < |sg.nodes|
    requires i < j < |Coordinates(sg.nodes, hops)|
    ensures Coordinates(sg.nodes, hops)[i] != Coordinates(sg.nodes, hops)[j]
  {
    hide Walk, Matches, Targets, Coordinates;
    WalkIsPath(stages, sg, sg.entry, 0, hops);
    forall k | 0 <= k < |hops| ensures hops[k].count == |Calls(sg.nodes[hops[k].node])| {
      assert GoodHop(stages, sg, sg.entry, 0, hops, k);
    }
    forall k, l | 0 <= k < l < |hops| ensures hops[k].node != hops[l].node {
      WalkIsSimple(stages, sg, sg.entry, 0, hops, k + 1, l + 1);
    }
    DistinctNodesDistinctCoordinates(sg.nodes, hops, i, j);
  }

  // Where the stages of hop `k` start among the coordinates.
  lemma {:induction false} CoordinatesLength(stages: seq<Stage>, sg: Subgraph, hops: seq<Hop>, k: nat)
    requires IsWalk(stages, sg, sg.entry, 0, hops) && CountsCalls(sg.nodes, hops) && k <= |hops|
    ensures |Coordinates(sg.nodes, hops[..k])| == Covered(0, hops, k)
  {
    hide Matches, Targets, Calls;
    if k > 0 {
      CoordinatesLength(stages, sg, hops, k - 1);
      assert hops[..k][..k - 1] == hops[..k - 1];
      assert GoodHop(stages, sg, sg.entry, 0, hops, k - 1);
    }
  }

  lemma {:induction false} CoordinatesPrefix(nodes: seq<Node>, hops: seq<Hop>, k: nat)
    requires k <= |hops| && forall i :: 0 <= i < |hops| ==> hops[i].node < |nodes|
    ensures Coordinates(nodes, hops[..k]) <= Coordinates(nodes, hops)
    decreases |hops| - k
  {
    if k < |hops| {
      assert hops[..k + 1][..k] == hops[..k];
      CoordinatesPrefix(nodes, hops, k + 1);
    } else {
      assert hops[..k] == hops;
    }
  }

  // The i-th stage of a hop has the hop's node and its place in the node's chain.
  lemma CoordinatesAt(stages: seq<Stage>, sg: Subgraph, hops: seq<Hop>, k: nat, i: nat)
    requires Walk(stages, sg, sg.entry, 0) == Some(hops) && k < |hops| && i < hops[k].count
    requires forall n :: 0 <= n < |hops| ==> hops[n].node < |sg.nodes|
    ensures hops[k].first + i < |Coordinates(sg.nodes, hops)|
    ensures Coordinates(sg.nodes, hops)[hops[k].first + i] == Coord(hops[k].node, i)
  {
    hide Walk, Matches, Targets, Coordinates, Calls;
    WalkIsPath(stages, sg, sg.entry, 0, hops);
    forall n | 0 <= n < |hops| ensures hops[n].count == |Calls(sg.nodes[hops[n].node])| {
      assert GoodHop(stages, sg, sg.entry, 0, hops, n);
    }
    assert GoodHop(stages, sg, sg.entry, 0, hops, k);
    CoordinatesLength(stages, sg, hops, k);
    CoordinatesPrefix(sg.nodes, hops, k + 1);
    var upto := hops[..k + 1];
    assert upto[..k] == hops[..k];
    LastHopCoordinates(sg.nodes, upto, i);
  }

  lemma LastHopCoordinates(nodes: seq<Node>, hops: seq<Hop>, i: nat)
    requires forall n :: 0 <= n < |hops| ==> hops[n].node < |nodes|
    requires hops != [] && i < hops[|hops| - 1].count == |Calls(nodes[hops[|hops| - 1].node])|
    ensures var before := |Coordinates(nodes, hops[..|hops| - 1])|;
            && before + i < |Coordinates(nodes, hops)|
            && Coordinates(nodes, hops)[before + i] == Coord(hops[|hops| - 1].node, i)
  {
    var last := hops[|hops| - 1];
    assert HopCoord(nodes, last, i) == Coord(last.node, i);
  }

  lemma {:induction false} CoordinatesCover(stages: seq<Stage>, sg: Subgraph, hops: seq<Hop>)
    requires Walk(stages, sg, sg.entry, 0) == Some(hops)
    requires forall n :: 0 <= n < |hops| ==> hops[n].node < |sg.nodes|
    ensures |Coordinates(sg.nodes, hops)| == |stages|
  {
    hide Walk, Matches, Targets;
    WalkIsPath(stages, sg, sg.entry, 0, hops);
    forall n | 0 <= n < |hops| ensures hops[n].count == |Calls(sg.nodes[hops[n].node])| {
      assert GoodHop(stages, sg, sg.entry, 0, hops, n);
    }
    CoordinatesLength(stages, sg, hops, |hops|);
    assert hops[..|hops|] == hops;
  }

  // Continuing a walk that has already made the hops in `made`.
  ghost predicate Continues(stages: seq<Stage>, root: Subgraph, made: seq<Hop>, node: nat, stage: nat)
    requires stage <= |stages|
  {
    var rest := Walk(stages, root, node, stage);
    Walk(stages, root, root.entry, 0) == if rest.None? then None else Some(made + rest.value)
  }

  // Extends a continuing walk by one hop.
  lemma ContinueHop(stages: seq<Stage>, root: Subgraph, made: seq<Hop>, node: nat, stage: nat, h: Hop)
    requires stage < |stages| && Continues(stages, root, made, node, stage)
    requires SingleSuccessor(root.edges, |root.nodes|, node) == Some(h.node) && h.node < |root.nodes|
    requires Matches(root.nodes[h.node], stages, stage)
    requires h.first == stage && h.count == |Calls(root.nodes[h.node])|
    ensures Continues(stages, root, made + [h], h.node, stage + h.count)
  {
    hide SingleSuccessor, Matches;
    assert stage + h.count <= |stages| by { MatchesFits(root.nodes[h.node], stages, stage); }
    var rest := Walk(stages, root, h.node, stage + h.count);
    if rest.Some? { assert made + ([h] + rest.value) == made + [h] + rest.value; }
  }

  lemma MatchesFits(node: Node, stages: seq<Stage>, first: nat)
    requires Matches(node, stages, first)
    ensures first + |Calls(node)| <= |stages|
  {}

  method CollectCoordinates(stages: seq<Stage>, root: Subgraph, coords: array<Coord>)
    returns (ok: bool, ghost hops: seq<Hop>)
    requires |stages| <= coords.Length
    modifies coords
    ensures ok <==> Walk(stages, root, root.entry, 0).Some?
    ensures ok ==> Walk(stages, root, root.entry, 0) == Some(hops)
    ensures ok ==> (forall k :: 0 <= k < |hops| ==> hops[k].node < |root.nodes|) &&
                   coords[..|stages|] == Coordinates(root.nodes, hops)
    ensures ok ==> Placed(hops, coords[..|stages|])
  {
    hide Matches, Targets;
    var node: nat, stage: nat := root.entry, 0;
    hops := [];
    assert forall s: seq<Hop> :: hops + s == s;
    while stage < |stages|
      invariant stage <= |stages|
      invariant Continues(stages, root, hops, node, stage)
      invariant forall k :: 0 <= k < |hops| ==> hops[k].node < |root.nodes|
      invariant coords[..stage] == Coordinates(root.nodes, hops)
      decreases |stages| - stage
    {
      var successor := SingleSuccessor(root.edges, |root.nodes|, node);
      if successor.None? || successor.value >= |root.nodes| { return false, hops; }
      var next := successor.value;
      var first := stage;
      var matched, covered := NodeMatchesStages(root.nodes[next], stages, stage);
      if !matched { return false, hops; }
      var h := Hop(next, first, covered - first);
      ContinueHop(stages, root, hops, node, stage, h);
      FillHop(root.nodes, h, coords);
      assert (hops + [h])[..|hops|] == hops;
      assert coords[..covered] == coords[..first] + coords[first..covered];
      hops := hops + [h];
      node, stage := next, covered;
    }
    assert coords[..stage] == coords[..|stages|];
    ok := root.tail == node && (node >= |root.nodes| || Targets(root.edges, node) == []);
    assert hops + [] == hops;
    if ok {
      Located(stages, root, hops, coords[..|stages|]);
    }
  }

  lemma HopCoversSome(stages: seq<Stage>, sg: Subgraph, hops: seq<Hop>, k: nat)
    requires Walk(stages, sg, sg.entry, 0) == Some(hops) && k < |hops|
    ensures hops[k].count > 0
  {
    hide Walk, Matches, Targets;
    WalkIsPath(stages, sg, sg.entry, 0, hops);
    assert GoodHop(stages, sg, sg.entry, 0, hops, k);
  }

  lemma Located(stages: seq<Stage>, sg: Subgraph, hops: seq<Hop>, coords: seq<Coord>)
    requires Walk(stages, sg, sg.entry, 0) == Some(hops)
    requires forall n :: 0 <= n < |hops| ==> hops[n].node < |sg.nodes|
    requires coords == Coordinates(sg.nodes, hops)
    ensures |coords| == |stages| && Placed(hops, coords)
  {
    hide Walk, Coordinates;
    CoordinatesCover(stages, sg, hops);
    forall k | 0 <= k < |hops| ensures PlacedHop(hops[k], coords) {
      var hop := hops[k];
      HopCoversSome(stages, sg, hops, k);
      CoordinatesAt(stages, sg, hops, k, hop.count - 1);
      forall j | hop.first <= j < hop.first + hop.count ensures coords[j] == Coord(hop.node, j - hop.first) {
        CoordinatesAt(stages, sg, hops, k, j - hop.first);
      }
    }
  }

  // Every stage a hop covers has the hop's node and its place in the node's chain.
  predicate PlacedHop(hop: Hop, coords: seq<Coord>) {
    && hop.first + hop.count <= |coords|
    && forall j :: hop.first <= j < hop.first + hop.count ==> coords[j] == Coord(hop.node, j - hop.first)
  }

  predicate Placed(hops: seq<Hop>, coords: seq<Coord>) {
    forall k :: 0 <= k < |hops| ==> PlacedHop(hops[k], coords)
  }

  // The inner loop: the coordinates of one node's stages.
  method FillHop(nodes: seq<Node>, h: Hop, coords: array<Coord>)
    requires h.node < |nodes| && h.first + h.count <= coords.Length
    modifies coords
    ensures coords[..h.first] == old(coords[..h.first])
    ensures coords[h.first..h.first + h.count] == seq(h.count, i requires 0 <= i < h.count => HopCoord(nodes, h, i))
  {
    for index := h.first to h.first + h.count
      invariant coords[..h.first] == old(coords[..h.first])
      invariant forall i :: 0 <= i < index - h.first ==> coords[h.first + i] == HopCoord(nodes, h, i)
    {
      coords[index] := HopCoord(nodes, h, index - h.first);
    }
  }

  // The first stage with the given coordinate.
  function IndexOf(coords: seq<Coord>, c: Coord): Option<nat> {
    if coords == [] then None
    else match IndexOf(coords[..|coords| - 1], c)
      case Some(i) => Some(i)
      case None => if coords[|coords| - 1] == c then Some(|coords| - 1) else None
  }

  lemma {:induction false} IndexOfFinds(coords: seq<Coord>, c: Coord)
    ensures match IndexOf(coords, c)
            case None => c !in coords
            case Some(i) => i < |coords| && coords[i] == c && c !in coords[..i]
  {
    if coords != [] {
      var n := |coords| - 1;
      IndexOfFinds(coords[..n], c);
      match IndexOf(coords[..n], c)
      case Some(i) => assert coords[..i] == coords[..n][..i];
      case None => assert forall x :: x in coords ==> x in coords[..n] || x == coords[n];
    }
  }

  method FindCoordinate(coords: array<Coord>, count: nat, c: Coord) returns (index: Option<nat>)
    requires count <= coords.Length
    ensures index == IndexOf(coords[..count], c)
  {
    IndexOfFinds(coords[..count], c);
    for i := 0 to count
      invariant c !in coords[..i]
    {
      if coords[i] == c { return Some(i); }
    }
    return None;
  }

  // ---- Replaying the trace ----

  predicate DeclaresIdempotentEndomap(c: Callable) {
    && c.binds && c.pure && c.idempotent
    && c.valueProtocol && |c.params| == 1 && c.params[0] == c.result
  }

  // The nearest stage before `index` that is still there (or stage 0).
  function Nearest(removed: seq<bool>, index: nat): (r: nat)
    requires 0 < index <= |removed|
    ensures r < index
  {
    if removed[index - 1] && index - 1 != 0 then Nearest(removed, index - 1) else index - 1
  }

  // Whether deleting stage `deleted` because of `retained` is justified.
  predicate Justified(stages: seq<Stage>, removed: seq<bool>, retained: nat, deleted: nat)
    requires |removed| == |stages|
  {
    && retained < deleted < |stages| && !removed[retained] && !removed[deleted]
    && Nearest(removed, deleted) == retained
    && stages[retained].kind == Map && stages[deleted].kind == Map
    && Same(stages[retained].callable, stages[deleted].callable)
    && DeclaresIdempotentEndomap(stages[retained].callable)
    && DeclaresIdempotentEndomap(stages[deleted].callable)
  }

  function ApplyEvent(stages: seq<Stage>, coords: seq<Coord>, removed: seq<bool>, event: Event): (r: Option<seq<bool>>)
    requires |removed| == |stages|
    ensures r.Some? ==> |r.value| == |stages|
  {
    var retained, deleted := IndexOf(coords, event.retained), IndexOf(coords, event.removed);
    if event.rule == IdempotentMapElimination && event.subgraph == 0 && retained.Some? && deleted.Some? &&
       Justified(stages, removed, retained.value, deleted.value)
    then Some(removed[deleted.value := true])
    else None
  }

  // Which stages are gone after the whole trace; None if any event is refused.
  function Replay(stages: seq<Stage>, coords: seq<Coord>, events: seq<Event>): (r: Option<seq<bool>>)
    ensures r.Some? ==> |r.value| == |stages|
  {
    if events == [] then Some(seq(|stages|, i => false))
    else
      var init := Replay(stages, coords, events[..|events| - 1]);
      if init.None? then None else ApplyEvent(stages, coords, init.value, events[|events| - 1])
  }

  function Survivors(stages: seq<Stage>, removed: seq<bool>): seq<Stage>
    requires |removed| == |stages|
  {
    if stages == [] then []
    else
      var n := |stages| - 1;
      Survivors(stages[..n], removed[..n]) + if removed[n] then [] else [stages[n]]
  }

  function Remaining(ir: Pipeline, removed: seq<bool>): Pipeline
    requires |removed| == |ir.stages|
  {
    Pipeline(Survivors(ir.stages, removed), ir.inputType, ir.outputType)
  }

  // ---- Deleting a justified stage preserves the meaning ----

  // Callables declared idempotent, from a type to itself, are so.
  ghost predicate HonestEnv<V(!new)>(env: Env<V>, stages: seq<Stage>) {
    forall k :: 0 <= k < |stages| && stages[k].callable.idempotent &&
                stages[k].callable.params == [stages[k].callable.result] ==>
      Idempotent(env, stages[k].callable.id)
  }

  ghost predicate Idempotent<V(!new)>(env: Env<V>, id: nat) {
    forall v :: env.apply(id, env.apply(id, v)) == env.apply(id, v)
  }

  lemma {:induction false} SurvivorsSplit(stages: seq<Stage>, removed: seq<bool>, i: nat)
    requires |removed| == |stages| && i <= |stages|
    ensures Survivors(stages, removed) == Survivors(stages[..i], removed[..i]) + Survivors(stages[i..], removed[i..])
  {
    var n := |stages| - 1;
    if i == |stages| {
      assert stages[..i] == stages && removed[..i] == removed && stages[i..] == [];
    } else {
      SurvivorsSplit(stages[..n], removed[..n], i);
      assert stages[..n][..i] == stages[..i] && removed[..n][..i] == removed[..i];
      assert stages[..n][i..] == stages[i..][..n - i] && removed[..n][i..] == removed[i..][..n - i];
      var front, middle := Survivors(stages[..i], removed[..i]), Survivors(stages[i..][..n - i], removed[i..][..n - i]);
      var last := if removed[n] then [] else [stages[n]];
      assert Survivors(stages[i..], removed[i..]) == middle + last;
      assert front + middle + last == front + (middle + last);
    }
  }

  lemma {:induction false} AllRemoved(stages: seq<Stage>, removed: seq<bool>)
    requires |removed| == |stages| && forall k :: 0 <= k < |removed| ==> removed[k]
    ensures Survivors(stages, removed) == []
  {
    if stages != [] { AllRemoved(stages[..|stages| - 1], removed[..|stages| - 1]); }
  }

  // Between a stage and its nearest predecessor everything is gone.
  lemma {:induction false} NearestSkipsRemoved(removed: seq<bool>, index: nat)
    requires 0 < index <= |removed|
    ensures forall k :: Nearest(removed, index) < k < index ==> removed[k]
  {
    if removed[index - 1] && index - 1 != 0 { NearestSkipsRemoved(removed, index - 1); }
  }

  // The survivors around an adjacent pair.
  lemma SurvivorsAround(stages: seq<Stage>, removed: seq<bool>, retained: nat, deleted: nat)
    requires |removed| == |stages| && retained < deleted < |stages| && !removed[retained]
    requires forall k :: retained < k < deleted ==> removed[k]
    ensures Survivors(stages, removed) ==
            Survivors(stages[..retained], removed[..retained]) + [stages[retained]]
            + (if removed[deleted] then [] else [stages[deleted]])
            + Survivors(stages[deleted + 1..], removed[deleted + 1..])
  {
    hide Survivors;
    var kept := Survivors(stages[..retained], removed[..retained]) + [stages[retained]];
    var x := if removed[deleted] then [] else [stages[deleted]];
    var rest := Survivors(stages[deleted + 1..], removed[deleted + 1..]);
    SurvivorsSplit(stages, removed, deleted + 1);
    SurvivorsLast(stages, removed, deleted);
    SurvivorsBefore(stages, removed, retained, deleted);
    assert Survivors(stages, removed) == kept + x + rest;
  }

  lemma SurvivorsBefore(stages: seq<Stage>, removed: seq<bool>, retained: nat, deleted: nat)
    requires |removed| == |stages| && retained < deleted < |stages| && !removed[retained]
    requires forall k :: retained < k < deleted ==> removed[k]
    ensures Survivors(stages[..deleted], removed[..deleted]) ==
            Survivors(stages[..retained], removed[..retained]) + [stages[retained]]
  {
    hide Survivors;
    SurvivorsSplit(stages[..deleted], removed[..deleted], retained + 1);
    assert stages[..deleted][..retained + 1] == stages[..retained + 1];
    assert removed[..deleted][..retained + 1] == removed[..retained + 1];
    SurvivorsLast(stages, removed, retained);
    AllRemoved(stages[..deleted][retained + 1..], removed[..deleted][retained + 1..]);
  }

  lemma SurvivorsLast(stages: seq<Stage>, removed: seq<bool>, n: nat)
    requires |removed| == |stages| && n < |stages|
    ensures Survivors(stages[..n + 1], removed[..n + 1]) ==
            Survivors(stages[..n], removed[..n]) + if removed[n] then [] else [stages[n]]
  {
    assert stages[..n + 1][..n] == stages[..n] && removed[..n + 1][..n] == removed[..n];
  }

  // What a justified deletion takes out of the survivors.
  lemma AroundDeletion(stages: seq<Stage>, removed: seq<bool>, retained: nat, deleted: nat)
    requires |removed| == |stages| && Justified(stages, removed, retained, deleted)
    ensures var a := Survivors(stages[..retained], removed[..retained]) + [stages[retained]];
            var b := Survivors(stages[deleted + 1..], removed[deleted + 1..]);
            && Survivors(stages, removed) == a + [stages[deleted]] + b
            && Survivors(stages, removed[deleted := true]) == a + b
  {
    hide Survivors, Nearest, DeclaresIdempotentEndomap;
    NearestSkipsRemoved(removed, deleted);
    var after := removed[deleted := true];
    SurvivorsAround(stages, removed, retained, deleted);
    SurvivorsAround(stages, after, retained, deleted);
    assert after[..retained] == removed[..retained] && after[deleted + 1..] == removed[deleted + 1..];
  }

  lemma {:induction false} DoubledMap<V(!new)>(env: Env<V>, a: seq<Stage>, f: Stage, g: Stage, b: seq<Stage>, v: V)
    requires f.kind == Map && g.kind == Map && Same(f.callable, g.callable) && Idempotent(env, f.callable.id)
    ensures RunStages(env, a + [f] + [g] + b, v) == RunStages(env, a + [f] + b, v)
  {
    if a == [] {
      assert (a + [f] + [g] + b)[1..] == [g] + b && ([g] + b)[1..] == b;
      assert (a + [f] + b)[1..] == b;
    } else {
      assert (a + [f] + [g] + b)[1..] == a[1..] + [f] + [g] + b;
      assert (a + [f] + b)[1..] == a[1..] + [f] + b;
      match RunStage(env, a[0], v)
      case None =>
      case Some(w) => DoubledMap(env, a[1..], f, g, b, w);
    }
  }

  lemma DeletionPreserves<V(!new)>(env: Env<V>, stages: seq<Stage>, removed: seq<bool>, retained: nat, deleted: nat, v: V)
    requires |removed| == |stages| && Justified(stages, removed, retained, deleted) && HonestEnv(env, stages)
    ensures RunStages(env, Survivors(stages, removed[deleted := true]), v) == RunStages(env, Survivors(stages, removed), v)
  {
    hide Survivors, RunStages;
    AroundDeletion(stages, removed, retained, deleted);
    DoubledMap(env, Survivors(stages[..retained], removed[..retained]), stages[retained], stages[deleted],
               Survivors(stages[deleted + 1..], removed[deleted + 1..]), v);
  }

  lemma {:induction false} NothingRemoved(stages: seq<Stage>)
    ensures Survivors(stages, seq(|stages|, i => false)) == stages
  {
    if stages != [] {
      var n := |stages| - 1;
      NothingRemoved(stages[..n]);
      assert seq(|stages|, i => false)[..n] == seq(n, i => false);
    }
  }

  // Replaying a whole accepted trace preserves the meaning of the pipeline.
  lemma {:induction false} ReplayPreserves<V(!new)>(env: Env<V>, stages: seq<Stage>, coords: seq<Coord>,
                                                    events: seq<Event>, v: V)
    requires Replay(stages, coords, events).Some? && HonestEnv(env, stages)
    ensures RunStages(env, Survivors(stages, Replay(stages, coords, events).value), v) == RunStages(env, stages, v)
  {
    if events == [] {
      NothingRemoved(stages);
    } else {
      var n := |events| - 1;
      ReplayPreserves(env, stages, coords, events[..n], v);
      var removed := Replay(stages, coords, events[..n]).value;
      var retained, deleted := IndexOf(coords, events[n].retained), IndexOf(coords, events[n].removed);
      DeletionPreserves(env, stages, removed, retained.value, deleted.value, v);
    }
  }

  // Stage 0 survives every accepted trace, so the pipeline never empties, and
  // a trace with as many events as stages is never accepted.
  lemma {:induction false} FirstStageSurvives(stages: seq<Stage>, coords: seq<Coord>, events: seq<Event>)
    requires stages != [] && Replay(stages, coords, events).Some?
    ensures !Replay(stages, coords, events).value[0]
    ensures Survivors(stages, Replay(stages, coords, events).value) != []
    ensures |Survivors(stages, Replay(stages, coords, events).value)| + |events| == |stages|
    ensures |events| < |stages|
  {
    if events == [] {
      NothingRemoved(stages);
    } else {
      var n := |events| - 1;
      FirstStageSurvives(stages, coords, events[..n]);
      var removed := Replay(stages, coords, events[..n]).value;
      var retained, deleted := IndexOf(coords, events[n].retained).value, IndexOf(coords, events[n].removed).value;
      AroundDeletion(stages, removed, retained, deleted);
    }
  }

  // ---- The survivors still type-check ----

  // Dropping a stage whose input and output types agree keeps the type chain.
  lemma DropEndomap(a: seq<Stage>, x: Stage, b: seq<Stage>, input: TypeDesc)
    requires TypeChecks(a + [x] + b, input) && x.inputType == x.outputType
    ensures TypeChecks(a + b, input)
    ensures FlowType(a + b, input, |a + b|) == FlowType(a + [x] + b, input, |a + [x] + b|)
  {
    hide StageContract;
    var long, short := a + [x] + b, a + b;
    assert long[|a|] == x && StageContract(x, FlowType(long, input, |a|));
    assert x.inputType == FlowType(long, input, |a|) by { StageTakesFlow(x, FlowType(long, input, |a|)); }
    forall k | 0 <= k < |short| ensures StageContract(short[k], FlowType(short, input, k)) {
      if k < |a| {
        assert short[k] == long[k] && FlowType(short, input, k) == FlowType(long, input, k);
      } else {
        assert short[k] == long[k + 1] && StageContract(long[k + 1], FlowType(long, input, k + 1));
      }
    }
  }

  lemma StageTakesFlow(stage: Stage, flow: TypeDesc)
    requires StageContract(stage, flow)
    ensures stage.inputType == flow
    ensures stage.kind == Map && DeclaresIdempotentEndomap(stage.callable) ==> stage.inputType == stage.outputType
  {}

  lemma {:induction false} TypedStageIsEndomap(stages: seq<Stage>, input: TypeDesc, k: nat)
    requires TypeChecks(stages, input) && k < |stages|
    requires stages[k].kind == Map && DeclaresIdempotentEndomap(stages[k].callable)
    ensures stages[k].inputType == stages[k].outputType
  {
    StageTakesFlow(stages[k], FlowType(stages, input, k));
  }

  lemma DeletionKeepsTypes(stages: seq<Stage>, input: TypeDesc, removed: seq<bool>, retained: nat, deleted: nat)
    requires |removed| == |stages| && Justified(stages, removed, retained, deleted)
    requires TypeChecks(stages, input) && TypeChecks(Survivors(stages, removed), input)
    ensures var before, after := Survivors(stages, removed), Survivors(stages, removed[deleted := true]);
            && TypeChecks(after, input)
            && FlowType(after, input, |after|) == FlowType(before, input, |before|)
  {
    hide TypeChecks, Survivors, Nearest, FlowType;
    AroundDeletion(stages, removed, retained, deleted);
    TypedStageIsEndomap(stages, input, deleted);
    DropEndomap(Survivors(stages[..retained], removed[..retained]) + [stages[retained]], stages[deleted],
                Survivors(stages[deleted + 1..], removed[deleted + 1..]), input);
  }

  lemma {:induction false} ReplayKeepsTypes(stages: seq<Stage>, input: TypeDesc, coords: seq<Coord>, events: seq<Event>)
    requires TypeChecks(stages, input) && Replay(stages, coords, events).Some?
    ensures var after := Survivors(stages, Replay(stages, coords, events).value);
            TypeChecks(after, input) && FlowType(after, input, |after|) == FlowType(stages, input, |stages|)
  {
    hide TypeChecks, Survivors, Justified, IndexOf, FlowType;
    if events == [] {
      NothingRemoved(stages);
    } else {
      var n := |events| - 1;
      ReplayKeepsTypes(stages, input, coords, events[..n]);
      var removed := Replay(stages, coords, events[..n]).value;
      var retained, deleted := IndexOf(coords, events[n].retained).value, IndexOf(coords, events[n].removed).value;
      DeletionKeepsTypes(stages, input, removed, retained, deleted);
    }
  }

  // Validation of what an accepted trace leaves can never fail.
  lemma RemainingIsValid(ir: Pipeline, coords: seq<Coord>, events: seq<Event>)
    requires ValidPipeline(ir) && Replay(ir.stages, coords, events).Some?
    ensures ValidPipeline(Remaining(ir, Replay(ir.stages, coords, events).value))
  {
    hide TypeChecks, Survivors, Replay;
    FirstStageSurvives(ir.stages, coords, events);
    ReplayKeepsTypes(ir.stages, ir.inputType, coords, events);
  }

  // ---- The certificate check ----

  // Everything an accepted certificate establishes.
  ghost predicate Certified(ir: Pipeline, source: Graph, optimized: Graph, events: seq<Event>,
                            hops: seq<Hop>, removed: seq<bool>, optimizedHops: seq<Hop>)
  {
    && MatchesGraph(ir, source, hops)
    && (forall k :: 0 <= k < |hops| ==> hops[k].node < |source.subgraphs[0].nodes|)
    && |events| < |ir.stages|
    && Replay(ir.stages, Coordinates(source.subgraphs[0].nodes, hops), events) == Some(removed)
    && MatchesGraph(Remaining(ir, removed), optimized, optimizedHops)
  }

  ghost predicate IsCertified(ir: Pipeline, source: Graph, optimized: Graph, events: seq<Event>) {
    exists hops, removed, optimizedHops :: Certified(ir, source, optimized, events, hops, removed, optimizedHops)
  }

  // The do-while search for the nearest remaining predecessor.
  method FindNearest(removed: array<bool>, index: nat) returns (nearest: nat)
    requires 0 < index <= removed.Length
    ensures nearest < index && (forall k :: nearest < k < index ==> removed[k]) && (removed[nearest] ==> nearest == 0)
    ensures nearest == Nearest(removed[..], index)
  {
    nearest := index - 1;
    while removed[nearest] && nearest != 0
      invariant nearest < index && Nearest(removed[..], index) == Nearest(removed[..], nearest + 1)
      invariant forall k :: nearest < k < index ==> removed[k]
    {
      nearest := nearest - 1;
    }
  }

  lemma {:induction false} NearestOfPrefix(removed: seq<bool>, n: nat, index: nat)
    requires 0 < index <= n <= |removed|
    ensures Nearest(removed[..n], index) == Nearest(removed, index)
  {
    if removed[index - 1] && index - 1 != 0 { NearestOfPrefix(removed, n, index - 1); }
  }

  // Checks one event and marks its stage removed.
  method ReplayEvent(stages: seq<Stage>, coords: array<Coord>, removed: array<bool>, event: Event) returns (ok: bool)
    requires |stages| <= coords.Length && |stages| <= removed.Length
    modifies removed
    ensures var r := ApplyEvent(stages, coords[..|stages|], old(removed[..|stages|]), event);
            && (ok <==> r.Some?)
            && removed[..|stages|] == if ok then r.value else old(removed[..|stages|])
  {
    ghost var n := |stages|;
    IndexOfFinds(coords[..n], event.retained);
    IndexOfFinds(coords[..n], event.removed);
    hide IndexOf;
    if event.rule != IdempotentMapElimination || event.subgraph != 0 { return false; }
    var found := FindCoordinate(coords, |stages|, event.retained);
    if found.None? { return false; }
    var retained := found.value;
    found := FindCoordinate(coords, |stages|, event.removed);
    if found.None? { return false; }
    var deleted := found.value;
    if retained >= deleted || removed[retained] || removed[deleted] { return false; }
    var nearest := FindNearest(removed, deleted);
    NearestOfPrefix(removed[..], n, deleted);
    assert removed[..][..n] == removed[..n];
    if nearest != retained { return false; }
    if stages[retained].kind != Map || stages[deleted].kind != Map ||
       !Same(stages[retained].callable, stages[deleted].callable) ||
       !DeclaresIdempotentEndomap(stages[retained].callable) ||
       !DeclaresIdempotentEndomap(stages[deleted].callable) {
      return false;
    }
    removed[deleted] := true;
    ok := true;
  }

  // Gathers the stages that were not removed.
  method CollectSurvivors(stages: seq<Stage>, removed: array<bool>) returns (remaining: seq<Stage>)
    requires |stages| <= removed.Length
    ensures remaining == Survivors(stages, removed[..|stages|])
  {
    remaining := [];
    for index := 0 to |stages|
      invariant remaining == Survivors(stages[..index], removed[..index])
    {
      assert stages[..index + 1][..index] == stages[..index];
      assert removed[..index + 1][..index] == removed[..index];
      if !removed[index] { remaining := remaining + [stages[index]]; }
    }
    assert stages[..|stages|] == stages;
  }

  // Replays the whole trace in place.
  method ReplayTrace(stages: seq<Stage>, coords: array<Coord>, removed: array<bool>, events: seq<Event>)
    returns (ok: bool)
    requires |stages| <= coords.Length && |stages| <= removed.Length
    requires forall i :: 0 <= i < removed.Length ==> !removed[i]
    modifies removed
    ensures var r := Replay(stages, coords[..|stages|], events);
            (ok <==> r.Some?) && (ok ==> removed[..|stages|] == r.value)
  {
    hide ApplyEvent;
    ghost var cs := coords[..|stages|];
    assert removed[..|stages|] == seq(|stages|, i => false);
    for index := 0 to |events|
      invariant Replay(stages, cs, events[..index]) == Some(removed[..|stages|])
    {
      assert events[..index + 1][..index] == events[..index];
      ok := ReplayEvent(stages, coords, removed, events[index]);
      if !ok {
        RefusedPrefix(stages, cs, events, index + 1);
        return;
      }
    }
    assert events[..|events|] == events;
    ok := true;
  }

  lemma {:induction false} RefusedPrefix(stages: seq<Stage>, coords: seq<Coord>, events: seq<Event>, k: nat)
    requires k <= |events| && Replay(stages, coords, events[..k]).None?
    ensures Replay(stages, coords, events).None?
    decreases |events| - k
  {
    if k < |events| {
      assert events[..k + 1][..k] == events[..k];
      RefusedPrefix(stages, coords, events, k + 1);
    } else {
      assert events[..k] == events;
    }
  }

  // `normalized` and `bound` are the verdicts of the normal-form test on the
  // source and of the trace's binding to the two graphs.
  method MatchOptimizedGraph(ir: Pipeline, source: Graph, optimized: Graph, events: seq<Event>,
                             normalized: bool, bound: bool) returns (ok: bool)
    ensures ok <==> normalized && bound && IsCertified(ir, source, optimized, events)
  {
    hide ValidPipeline, Walk, Replay, Survivors, Coordinates;
    ok := Validate(ir);
    if !ok || !normalized { return false; }
    ok := MatchGraph(ir, source);
    if !ok || !bound { return false; }
    var root := source.subgraphs[source.root];
    var coords := new Coord[STAGE_LIMIT](_ => Coord(0, 0));
    var removed := new bool[STAGE_LIMIT](_ => false);
    ghost var hops;
    LimitFits(ir);
    ok, hops := CollectCoordinates(ir.stages, root, coords);
    if !ok { return; }
    if |events| >= |ir.stages| { return false; }
    ok := ReplayTrace(ir.stages, coords, removed, events);
    if !ok { return; }
    var remaining := CollectSurvivors(ir.stages, removed);
    ok := MatchGraph(Pipeline(remaining, ir.inputType, ir.outputType), optimized);
    ghost var gone := removed[..|ir.stages|];
    if ok {
      ghost var final :| MatchesGraph(Remaining(ir, gone), optimized, final);
      assert Certified(ir, source, optimized, events, hops, gone, final);
    }
  }

  lemma LimitFits(ir: Pipeline)
    requires ValidPipeline(ir)
    ensures 0 < |ir.stages| <= STAGE_LIMIT
  {}

  // Soundness of the whole check: an accepted optimization computes what the
  // source graph computes, on every input sequence.
  lemma CertifiedPreservesMeaning<V(!new)>(env: Env<V>, ir: Pipeline, source: Graph, optimized: Graph, events: seq<Event>,
                                           inputs: seq<V>)
    requires IsCertified(ir, source, optimized, events)
    requires HonestEnv(env, ir.stages)
    ensures |source.subgraphs| == |optimized.subgraphs| == 1
    ensures HasRun(source.subgraphs[0]) && HasRun(optimized.subgraphs[0])
    ensures GraphOutputs(env, optimized.subgraphs[0], inputs)
         == GraphOutputs(env, source.subgraphs[0], inputs)
         == Outputs(env, ir.stages, inputs)
  {
    hide ValidPipeline, Walk, Replay, Survivors, Coordinates, RunStages, HonestEnv, HasRun, GraphOutputs;
    var hops, removed, optimizedHops :| Certified(ir, source, optimized, events, hops, removed, optimizedHops);
    MatchedGraphMeansPipeline(env, ir, source, hops, inputs);
    MatchedGraphMeansPipeline(env, Remaining(ir, removed), optimized, optimizedHops, inputs);
    var coords := Coordinates(source.subgraphs[0].nodes, hops);
    forall v ensures RunStages(env, Survivors(ir.stages, removed), v) == RunStages(env, ir.stages, v) {
      ReplayPreserves(env, ir.stages, coords, events, v);
    }
    SameMeaningSameOutputs(env, Survivors(ir.stages, removed), ir.stages, inputs);
  }

  lemma {:induction false} SameMeaningSameOutputs<V(!new)>(env: Env<V>, a: seq<Stage>, b: seq<Stage>, inputs: seq<V>)
    requires forall v :: RunStages(env, a, v) == RunStages(env, b, v)
    ensures Outputs(env, a, inputs) == Outputs(env, b, inputs)
  {
    if inputs != [] { SameMeaningSameOutputs(env, a, b, inputs[1..]); }
  }
}
