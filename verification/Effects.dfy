/**
  Recursive static effect analysis over graphs whose nodes reference subgraphs.

  The analysis is a depth-first search that colours subgraphs and memoises their
  effects. It is proved to return exactly the effects of everything reachable,
  plus UNKNOWN exactly when a reference cycle or a dangling reference is reachable.
 */
module Effects {
  import opened Common

  // An effect word, as the set of its one bits.
  type EffectSet = set<nat>

  const UNKNOWN_BIT: nat := 4
  const PURE: EffectSet := {}
  const UNKNOWN: EffectSet := {UNKNOWN_BIT}

  datatype Op = Input | Relation | Operator(schema: Option<EffectSet>)

  // `calls` is the callable chain; `callsNull` says that its storage is missing.
  datatype Node = Node(op: Op, calls: seq<EffectSet>, callsNull: bool,
                       hasFn: bool, fn: EffectSet, subgraphs: seq<nat>)

  datatype Graph = Graph(subgraphs: seq<seq<Node>>, root: nat)

  datatype Color = New | Active | Done

  // ---- What the analysis is about ----

  // A callable contributes bit `e`: it declares `e` among known bits only, or it
  // declares some unknown bit and `e` is UNKNOWN.
  predicate Contributes(declared: EffectSet, e: nat) {
    || (e in declared && forall b :: b in declared ==> b <= UNKNOWN_BIT)
    || (e == UNKNOWN_BIT && exists b :: b in declared && b > UNKNOWN_BIT)
  }

  // Bit `e` is an effect of the node itself: of its operator, of its callable chain,
  // or of its callable if there is no chain. A missing schema or a missing chain
  // counts as UNKNOWN.
  predicate Owns(node: Node, e: nat) {
    || (node.op.Operator? && (if node.op.schema.Some? then e in node.op.schema.value else e == UNKNOWN_BIT))
    || (node.calls != [] && node.callsNull && e == UNKNOWN_BIT)
    || (node.calls != [] && !node.callsNull && exists i :: 0 <= i < |node.calls| && Contributes(node.calls[i], e))
    || (node.calls == [] && node.hasFn && Contributes(node.fn, e))
  }

  predicate OwnedIn(nodes: seq<Node>, e: nat) {
    exists n :: 0 <= n < |nodes| && Owns(nodes[n], e)
  }

  predicate RefersTo(nodes: seq<Node>, c: nat) {
    exists n :: 0 <= n < |nodes| && c in nodes[n].subgraphs
  }

  // Subgraph `a` references `b`, which may dangle.
  predicate Edge(g: Graph, a: nat, b: nat) {
    a < |g.subgraphs| && RefersTo(g.subgraphs[a], b)
  }

  ghost predicate IsPath(g: Graph, p: seq<nat>, a: nat, b: nat) {
    && |p| > 0 && p[0] == a && p[|p| - 1] == b
    && forall i, j :: 0 <= i < |p| && j == i + 1 && j < |p| ==> Edge(g, p[i], p[j])
  }

  ghost predicate Reach(g: Graph, a: nat, b: nat) {
    exists p :: IsPath(g, p, a, b)
  }

  // Reachable over at least one reference.
  ghost predicate ProperReach(g: Graph, a: nat, b: nat) {
    exists m: nat :: Edge(g, a, m) && Reach(g, m, b)
  }

  // A dangling reference or a reference cycle is reachable.
  ghost predicate Malformed(g: Graph, id: nat) {
    exists x: nat :: Reach(g, id, x) && (x >= |g.subgraphs| || ProperReach(g, x, x))
  }

  // The specification: effect bit `e` belongs to the analysis of `id`.
  ghost predicate Effective(g: Graph, id: nat, e: nat) {
    || (exists x: nat :: Reach(g, id, x) && x < |g.subgraphs| && OwnedIn(g.subgraphs[x], e))
    || (e == UNKNOWN_BIT && Malformed(g, id))
  }

  // ---- Reachability ----

  lemma ReachRefl(g: Graph, a: nat)
    ensures Reach(g, a, a)
  {
    assert IsPath(g, [a], a, a);
  }

  lemma ReachStep(g: Graph, a: nat, m: nat, b: nat)
    requires Edge(g, a, m) && Reach(g, m, b)
    ensures Reach(g, a, b)
  {
    var p :| IsPath(g, p, m, b);
    assert IsPath(g, [a] + p, a, b);
  }

  lemma ReachExtend(g: Graph, a: nat, m: nat, b: nat)
    requires Reach(g, a, m) && Edge(g, m, b)
    ensures Reach(g, a, b)
  {
    var p :| IsPath(g, p, a, m);
    assert IsPath(g, p + [b], a, b);
  }

  lemma ProperReachExtend(g: Graph, a: nat, m: nat, b: nat)
    requires a == m || ProperReach(g, a, m)
    requires Edge(g, m, b)
    ensures ProperReach(g, a, b)
  {
    if a == m {
      ReachRefl(g, b);
    } else {
      var k: nat :| Edge(g, a, k) && Reach(g, k, m);
      ReachExtend(g, k, m, b);
    }
  }

  // What is effective for a referenced subgraph is effective for the referrer.
  lemma EffectiveLifts(g: Graph, a: nat, b: nat, e: nat)
    requires Edge(g, a, b) && Effective(g, b, e)
    ensures Effective(g, a, e)
  {
    if x: nat :| Reach(g, b, x) && x < |g.subgraphs| && OwnedIn(g.subgraphs[x], e) {
      ReachStep(g, a, b, x);
    } else {
      var x: nat :| Reach(g, b, x) && (x >= |g.subgraphs| || ProperReach(g, x, x));
      ReachStep(g, a, b, x);
    }
  }

  // The references of some nodes, in the order they are followed.
  function NodesRefs(nodes: seq<Node>): seq<nat> {
    if nodes == [] then [] else NodesRefs(nodes[..|nodes| - 1]) + nodes[|nodes| - 1].subgraphs
  }

  lemma {:induction false} RefsAre(nodes: seq<Node>, c: nat)
    ensures c in NodesRefs(nodes) <==> RefersTo(nodes, c)
  {
    if nodes != [] {
      var m := |nodes| - 1;
      RefsAre(nodes[..m], c);
      if RefersTo(nodes, c) && c !in nodes[m].subgraphs {
        var n :| 0 <= n < |nodes| && c in nodes[n].subgraphs;
        assert nodes[..m][n] == nodes[n];
      }
      if RefersTo(nodes[..m], c) {
        var n :| 0 <= n < m && c in nodes[..m][n].subgraphs;
        assert nodes[n] == nodes[..m][n];
      }
    }
  }

  // One more node owns what it owns.
  lemma OwnedStep(nodes: seq<Node>, n: nat, e: nat)
    requires n < |nodes|
    ensures OwnedIn(nodes[..n + 1], e) <==> OwnedIn(nodes[..n], e) || Owns(nodes[n], e)
  {
    var shorter, longer := nodes[..n], nodes[..n + 1];
    assert longer[n] == nodes[n];
    if OwnedIn(shorter, e) {
      var k :| 0 <= k < n && Owns(shorter[k], e);
      assert longer[k] == shorter[k];
    }
    if OwnedIn(longer, e) && !Owns(nodes[n], e) {
      var k :| 0 <= k < n + 1 && Owns(longer[k], e);
      assert shorter[k] == longer[k];
    }
  }

  // ---- The invariant of the search ----

  // `c` comes before `x` in the finishing order.
  ghost predicate Before(order: seq<nat>, c: nat, x: nat) {
    exists i, j :: 0 <= i < j < |order| && order[i] == c && order[j] == x
  }

  ghost predicate RefHandled(g: Graph, st: seq<Color>, order: seq<nat>, acc: EffectSet, c: nat) {
    if c < |st| then st[c] != New && (UNKNOWN_BIT in acc || c in order) else UNKNOWN_BIT in acc
  }

  // What holds of a finished subgraph.
  ghost predicate Finished(g: Graph, st: seq<Color>, memo: seq<EffectSet>, order: seq<nat>, x: nat)
    requires |st| == |memo| == |g.subgraphs| && x < |st|
  {
    && (forall e :: OwnedIn(g.subgraphs[x], e) ==> e in memo[x])
    && (forall e :: e in memo[x] ==> Effective(g, x, e))
    && (forall c: nat :: Edge(g, x, c) ==>
          if c < |st| then st[c] != New && (UNKNOWN_BIT in memo[x] || Before(order, c, x))
          else UNKNOWN_BIT in memo[x])
  }

  ghost predicate Search(g: Graph, st: seq<Color>, memo: seq<EffectSet>, order: seq<nat>) {
    && |st| == |memo| == |g.subgraphs|
    && (forall i :: 0 <= i < |order| ==> order[i] < |st|)
    && (forall i, j :: 0 <= i < j < |order| ==> order[i] != order[j])
    && (forall x :: 0 <= x < |st| ==> (st[x] == Done <==> x in order))
    && (forall x :: 0 <= x < |st| && st[x] == Done ==> Finished(g, st, memo, order, x))
  }

  // Finished work is never revisited; nothing else becomes active.
  ghost predicate Grows(st: seq<Color>, memo: seq<EffectSet>, order: seq<nat>,
                        st': seq<Color>, memo': seq<EffectSet>, order': seq<nat>)
  {
    && |st| == |st'| == |memo| == |memo'| && order <= order'
    && (forall x :: 0 <= x < |st| ==> (st[x] == Active <==> st'[x] == Active))
    && (forall x :: 0 <= x < |st| && st[x] == Done ==> st'[x] == Done && memo'[x] == memo[x])
  }

  // Everything finished since `order` is accounted for in `acc`.
  ghost predicate Collected(memo: seq<EffectSet>, order: seq<nat>, order': seq<nat>, acc: EffectSet) {
    && order <= order'
    && forall i :: |order| <= i < |order'| ==> order'[i] < |memo| && memo[order'[i]] <= acc
  }

  ghost function Fresh(st: seq<Color>): set<nat> {
    set x | 0 <= x < |st| && st[x] == New
  }

  lemma FinishedGrows(g: Graph, st: seq<Color>, memo: seq<EffectSet>, order: seq<nat>, x: nat,
                      st': seq<Color>, memo': seq<EffectSet>, order': seq<nat>)
    requires |st| == |memo| == |st'| == |memo'| == |g.subgraphs| && x < |st|
    requires Finished(g, st, memo, order, x) && order <= order' && memo'[x] == memo[x]
    requires forall y :: 0 <= y < |st| && st[y] != New ==> st'[y] != New
    ensures Finished(g, st', memo', order', x)
  {
    forall c: nat | Edge(g, x, c) && c < |st| && Before(order, c, x) ensures Before(order', c, x) {
      var i, j :| 0 <= i < j < |order| && order[i] == c && order[j] == x;
      assert order'[i] == c && order'[j] == x;
    }
  }

  // Marking a new subgraph active keeps the search invariant.
  lemma ActivateKeeps(g: Graph, st: seq<Color>, memo: seq<EffectSet>, order: seq<nat>, id: nat)
    requires Search(g, st, memo, order) && id < |st| && st[id] == New
    ensures Search(g, st[id := Active], memo, order)
    ensures Fresh(st[id := Active]) < Fresh(st)
  {
    var st' := st[id := Active];
    forall x: nat | x < |st| && st'[x] == Done ensures Finished(g, st', memo, order, x) {
      FinishedGrows(g, st, memo, order, x, st', memo, order);
    }
    assert id in Fresh(st) && id !in Fresh(st');
  }

  // Finishing the active subgraph with the collected effects keeps it too.
  lemma FinishKeeps(g: Graph, st: seq<Color>, memo: seq<EffectSet>, order: seq<nat>, id: nat, acc: EffectSet)
    requires Search(g, st, memo, order) && id < |st| && st[id] == Active
    requires (forall e :: OwnedIn(g.subgraphs[id], e) ==> e in acc) && (forall e :: e in acc ==> Effective(g, id, e))
    requires forall c: nat :: Edge(g, id, c) ==> RefHandled(g, st, order, acc, c)
    ensures Search(g, st[id := Done], memo[id := acc], order + [id])
  {
    var st', memo', order' := st[id := Done], memo[id := acc], order + [id];
    forall x: nat | x < |st| && st'[x] == Done ensures Finished(g, st', memo', order', x) {
      if x == id {
        forall c: nat | Edge(g, id, c) && c in order ensures Before(order', c, id) {
          var i :| 0 <= i < |order| && order[i] == c;
          assert order'[i] == c && order'[|order|] == id;
        }
      } else {
        FinishedGrows(g, st, memo, order, x, st', memo', order');
      }
    }
  }

  // ---- The analysis ----

  // A callable's word, or UNKNOWN if it has bits outside the mask.
  method FnEffects(declared: EffectSet) returns (effects: EffectSet)
    ensures forall e :: e in effects <==> Contributes(declared, e)
  {
    if forall b :: b in declared ==> b <= UNKNOWN_BIT {
      effects := declared;
    } else {
      effects := UNKNOWN;
    }
  }

  // The operator and callable part of one node.
  method CollectOwn(node: Node) returns (effects: EffectSet)
    ensures forall e :: e in effects <==> Owns(node, e)
  {
    effects := PURE;
    match node.op {
      case Input =>
      case Relation =>
      case Operator(schema) =>
        effects := effects + if schema.Some? then schema.value else UNKNOWN;
    }
    if node.calls != [] {
      if node.callsNull {
        effects := effects + UNKNOWN;
      } else {
        ghost var intrinsic := effects;
        for i := 0 to |node.calls|
          invariant forall e :: e in effects <==>
                      e in intrinsic || exists k :: 0 <= k < i && Contributes(node.calls[k], e)
        {
          var more := FnEffects(node.calls[i]);
          effects := effects + more;
        }
      }
    } else if node.hasFn {
      var more := FnEffects(node.fn);
      effects := effects + more;
    }
  }

  // The outcome of visiting `id`: what it returns and what it leaves behind.
  ghost predicate Visited(g: Graph, id: nat, st: seq<Color>, memo: seq<EffectSet>, order: seq<nat>,
                          st': seq<Color>, memo': seq<EffectSet>, order': seq<nat>, effects: EffectSet)
  {
    && Search(g, st', memo', order') && Grows(st, memo, order, st', memo', order')
    && (forall e :: e in effects ==> Effective(g, id, e))
    && Collected(memo', order, order', effects)
    && Fresh(st') <= Fresh(st)
    && if id < |st'| then st'[id] != New && (if st'[id] == Done then memo'[id] <= effects else UNKNOWN_BIT in effects)
       else UNKNOWN_BIT in effects
  }

  // Where the visit of `id` stands with effects `acc` collected so far.
  ghost predicate Visiting(g: Graph, id: nat, st: seq<Color>, memo: seq<EffectSet>, order: seq<nat>,
                           st': seq<Color>, memo': seq<EffectSet>, order': seq<nat>, acc: EffectSet)
  {
    && Search(g, st', memo', order') && Grows(st, memo, order, st', memo', order')
    && id < |st'| && st'[id] == Active
    && (forall a :: 0 <= a < |st'| && st'[a] == Active ==> a == id || ProperReach(g, a, id))
    && (forall e :: e in acc ==> Effective(g, id, e))
    && Collected(memo', order, order', acc)
    && Fresh(st') <= Fresh(st)
  }

  // The references in `refs` have all been followed.
  ghost predicate Followed(g: Graph, refs: seq<nat>, st: seq<Color>, order: seq<nat>, acc: EffectSet) {
    forall c :: c in refs ==> RefHandled(g, st, order, acc, c)
  }

  ghost predicate Ancestors(g: Graph, id: nat, st: seq<Color>) {
    forall a :: 0 <= a < |st| && st[a] == Active ==> ProperReach(g, a, id)
  }

  lemma VisitStarts(g: Graph, id: nat, st: seq<Color>, memo: seq<EffectSet>, order: seq<nat>)
    requires Search(g, st, memo, order) && Ancestors(g, id, st) && id < |st| && st[id] == New
    ensures var st0 := st[id := Active];
            Visiting(g, id, st0, memo, order, st0, memo, order, PURE) && Fresh(st0) < Fresh(st)
  {
    ActivateKeeps(g, st, memo, order, id);
  }

  lemma VisitSkips(g: Graph, id: nat, st: seq<Color>, memo: seq<EffectSet>, order: seq<nat>)
    requires Search(g, st, memo, order) && Ancestors(g, id, st)
    requires id < |st| ==> st[id] != New
    ensures Visited(g, id, st, memo, order, st, memo, order,
                    if id < |st| && st[id] == Done then memo[id] else UNKNOWN)
  {
    ReachRefl(g, id);
    if id < |st| && st[id] == Done { assert Finished(g, st, memo, order, id); }
  }

  lemma VisitOwn(g: Graph, id: nat, n: nat, st: seq<Color>, memo: seq<EffectSet>, order: seq<nat>,
                 st': seq<Color>, memo': seq<EffectSet>, order': seq<nat>, acc: EffectSet, refs: seq<nat>,
                 own: EffectSet)
    requires Visiting(g, id, st, memo, order, st', memo', order', acc)
    requires id < |g.subgraphs| && n < |g.subgraphs[id]|
    requires Followed(g, refs, st', order', acc) && forall e :: e in own <==> Owns(g.subgraphs[id][n], e)
    ensures Visiting(g, id, st, memo, order, st', memo', order', acc + own)
    ensures Followed(g, refs, st', order', acc + own)
  {
    hide Owns;
    ReachRefl(g, id);
    forall e | e in own ensures Effective(g, id, e) { assert OwnedIn(g.subgraphs[id], e); }
  }

  lemma VisitChildReady(g: Graph, id: nat, c: nat, st: seq<Color>, memo: seq<EffectSet>, order: seq<nat>,
                        st': seq<Color>, memo': seq<EffectSet>, order': seq<nat>, acc: EffectSet)
    requires Visiting(g, id, st, memo, order, st', memo', order', acc) && Edge(g, id, c)
    ensures Search(g, st', memo', order') && Ancestors(g, c, st') && Fresh(st') <= Fresh(st)
  {
    forall a | 0 <= a < |st'| && st'[a] == Active ensures ProperReach(g, a, c) {
      ProperReachExtend(g, a, id, c);
    }
  }

  lemma VisitChild(g: Graph, id: nat, c: nat, st: seq<Color>, memo: seq<EffectSet>, order: seq<nat>,
                   st1: seq<Color>, memo1: seq<EffectSet>, order1: seq<nat>, acc: EffectSet,
                   st2: seq<Color>, memo2: seq<EffectSet>, order2: seq<nat>, more: EffectSet, refs: seq<nat>)
    requires Visiting(g, id, st, memo, order, st1, memo1, order1, acc) && Edge(g, id, c)
    requires Visited(g, c, st1, memo1, order1, st2, memo2, order2, more)
    requires Followed(g, refs, st1, order1, acc)
    ensures Visiting(g, id, st, memo, order, st2, memo2, order2, acc + more)
    ensures Followed(g, refs + [c], st2, order2, acc + more)
  {
    forall e | e in more ensures Effective(g, id, e) { EffectiveLifts(g, id, c, e); }
    forall i | |order| <= i < |order2| ensures order2[i] < |memo2| && memo2[order2[i]] <= acc + more {
      if i < |order1| {
        assert order2[i] == order1[i] && order1[i] in order1;
        assert st1[order1[i]] == Done;
      }
    }
    forall d | d in refs + [c] ensures RefHandled(g, st2, order2, acc + more, d) {
      if d != c { assert d in refs; }
    }
  }

  lemma VisitEnds(g: Graph, id: nat, st: seq<Color>, memo: seq<EffectSet>, order: seq<nat>,
                  st0: seq<Color>, st1: seq<Color>, memo1: seq<EffectSet>, order1: seq<nat>, acc: EffectSet)
    requires id < |st| && st[id] == New && st0 == st[id := Active] && |st| == |memo|
    requires Visiting(g, id, st0, memo, order, st1, memo1, order1, acc)
    requires (forall e :: OwnedIn(g.subgraphs[id], e) ==> e in acc) && Followed(g, NodesRefs(g.subgraphs[id]), st1, order1, acc)
    ensures Visited(g, id, st, memo, order, st1[id := Done], memo1[id := acc], order1 + [id], acc)
  {
    forall c: nat | Edge(g, id, c) ensures RefHandled(g, st1, order1, acc, c) { RefsAre(g.subgraphs[id], c); }
    FinishKeeps(g, st1, memo1, order1, id, acc);
    var st2 := st1[id := Done];
    assert Fresh(st2) <= Fresh(st) by {
      assert forall x :: x in Fresh(st2) ==> x in Fresh(st1) && x in Fresh(st0);
    }
    forall i | |order| <= i < |order1 + [id]| ensures memo1[id := acc][(order1 + [id])[i]] <= acc {
      if i < |order1| { assert order1[i] in order1 && st1[order1[i]] == Done; }
    }
  }

  // The colouring, memoising search from subgraph `id`. Every active subgraph
  // is an ancestor of `id`.
  method SubgraphEffectsRec(g: Graph, id: nat, state: array<Color>, memo: array<EffectSet>, ghost order: seq<nat>)
    returns (effects: EffectSet, ghost order': seq<nat>)
    requires state.Length == memo.Length == |g.subgraphs|
    requires Search(g, state[..], memo[..], order) && Ancestors(g, id, state[..])
    modifies state, memo
    ensures Visited(g, id, old(state[..]), old(memo[..]), order, state[..], memo[..], order', effects)
    decreases Fresh(state[..])
  {
    hide Search, Ancestors, Visiting, Visited, Owns, Fresh, RefHandled;
    if id >= |g.subgraphs| {
      VisitSkips(g, id, state[..], memo[..], order);
      return UNKNOWN, order;
    }
    if state[id] != New {
      VisitSkips(g, id, state[..], memo[..], order);
      return if state[id] == Done then memo[id] else UNKNOWN, order;
    }
    VisitStarts(g, id, state[..], memo[..], order);
    state[id] := Active;
    ghost var st0, memo0 := state[..], memo[..];
    assert st0 == old(state[..])[id := Active];

    effects, order' := PURE, order;
    var nodes := g.subgraphs[id];
    for n := 0 to |nodes|
      invariant Visiting(g, id, st0, memo0, order, state[..], memo[..], order', effects)
      invariant forall e :: OwnedIn(nodes[..n], e) ==> e in effects
      invariant Followed(g, NodesRefs(nodes[..n]), state[..], order', effects)
    {
      var node := nodes[n];
      assert nodes[..n + 1][..n] == nodes[..n];
      ghost var refs := NodesRefs(nodes[..n]);
      ghost var longer := nodes[..n + 1];
      var own := CollectOwn(node);
      VisitOwn(g, id, n, st0, memo0, order, state[..], memo[..], order', effects, refs, own);
      effects := effects + own;
      forall e | OwnedIn(longer, e) ensures e in effects { OwnedStep(nodes, n, e); }
      for i := 0 to |node.subgraphs|
        invariant Visiting(g, id, st0, memo0, order, state[..], memo[..], order', effects)
        invariant forall e :: OwnedIn(longer, e) ==> e in effects
        invariant Followed(g, refs + node.subgraphs[..i], state[..], order', effects)
      {
        var c := node.subgraphs[i];
        ghost var st1, memo1, order1, acc := state[..], memo[..], order', effects;
        assert Edge(g, id, c);
        VisitChildReady(g, id, c, st0, memo0, order, st1, memo1, order1, acc);
        var more;
        more, order' := SubgraphEffectsRec(g, c, state, memo, order1);
        effects := effects + more;
        VisitChild(g, id, c, st0, memo0, order, st1, memo1, order1, acc,
                   state[..], memo[..], order', more, refs + node.subgraphs[..i]);
        assert refs + node.subgraphs[..i] + [c] == refs + node.subgraphs[..i + 1];
      }
      assert node.subgraphs[..|node.subgraphs|] == node.subgraphs;
    }
    assert nodes[..|nodes|] == nodes;
    forall c: nat | RefersTo(nodes, c) ensures c in NodesRefs(nodes) { RefsAre(nodes, c); }
    VisitEnds(g, id, old(state[..]), memo0, order, st0, state[..], memo[..], order', effects);
    ghost var st1, memo1 := state[..], memo[..];
    state[id] := Done;
    memo[id] := effects;
    assert state[..] == st1[id := Done] && memo[..] == memo1[id := effects];
    order' := order' + [id];
  }

  // ---- A completed search is exact ----

  // No visit is in progress.
  ghost predicate Idle(st: seq<Color>) {
    forall x :: 0 <= x < |st| ==> st[x] != Active
  }

  // Following references from finished subgraphs meets finished ones only,
  // except where a reference dangles.
  lemma {:induction false} PathStaysFinished(g: Graph, st: seq<Color>, memo: seq<EffectSet>, order: seq<nat>,
                                             p: seq<nat>, a: nat, b: nat)
    requires Search(g, st, memo, order) && Idle(st) && a in order && IsPath(g, p, a, b)
    ensures b in order || (b >= |st| && exists y :: y in order && UNKNOWN_BIT in memo[y])
    decreases |p|
  {
    if |p| > 1 {
      var m := p[1];
      assert Edge(g, a, m);
      assert Finished(g, st, memo, order, a);
      if m in order {
        assert IsPath(g, p[1..], m, b);
        PathStaysFinished(g, st, memo, order, p[1..], m, b);
      } else {
        assert m >= |st|;
        assert |p| > 2 ==> Edge(g, m, p[2]);
      }
    }
  }

  ghost function Rank(order: seq<nat>, x: nat): (i: nat)
    requires x in order
    ensures i < |order| && order[i] == x
  {
    var i :| 0 <= i < |order| && order[i] == x;
    i
  }

  // Without UNKNOWN, references lead strictly back in the finishing order.
  lemma {:induction false} RankDescends(g: Graph, st: seq<Color>, memo: seq<EffectSet>, order: seq<nat>,
                                        p: seq<nat>, a: nat, b: nat)
    requires Search(g, st, memo, order) && Idle(st) && a in order && IsPath(g, p, a, b)
    requires forall y :: y in order ==> UNKNOWN_BIT !in memo[y]
    ensures b in order && Rank(order, b) <= Rank(order, a)
    ensures |p| > 1 ==> Rank(order, b) < Rank(order, a)
    decreases |p|
  {
    if |p| > 1 {
      var m := p[1];
      assert Edge(g, a, m);
      assert Finished(g, st, memo, order, a);
      assert m < |st| && Before(order, m, a);
      var i, j :| 0 <= i < j < |order| && order[i] == m && order[j] == a;
      assert i == Rank(order, m) && j == Rank(order, a);
      assert IsPath(g, p[1..], m, b);
      RankDescends(g, st, memo, order, p[1..], m, b);
    }
  }

  lemma MalformedIsSeen(g: Graph, st: seq<Color>, memo: seq<EffectSet>, order: seq<nat>, a: nat)
    requires Search(g, st, memo, order) && Idle(st) && a in order && Malformed(g, a)
    ensures exists y :: y in order && UNKNOWN_BIT in memo[y]
  {
    if forall y :: y in order ==> UNKNOWN_BIT !in memo[y] {
      var x: nat :| Reach(g, a, x) && (x >= |g.subgraphs| || ProperReach(g, x, x));
      var p :| IsPath(g, p, a, x);
      RankDescends(g, st, memo, order, p, a, x);
      var m: nat :| Edge(g, x, m) && Reach(g, m, x);
      var q :| IsPath(g, q, m, x);
      assert IsPath(g, [x] + q, x, x);
      RankDescends(g, st, memo, order, [x] + q, x, x);
    }
  }

  // Whatever is effective below a finished subgraph has been memoised.
  lemma FinishedIsComplete(g: Graph, st: seq<Color>, memo: seq<EffectSet>, order: seq<nat>, a: nat, e: nat)
    requires Search(g, st, memo, order) && Idle(st) && a in order && Effective(g, a, e)
    ensures exists y :: y in order && e in memo[y]
  {
    if x: nat :| Reach(g, a, x) && x < |g.subgraphs| && OwnedIn(g.subgraphs[x], e) {
      var p :| IsPath(g, p, a, x);
      PathStaysFinished(g, st, memo, order, p, a, x);
      assert Finished(g, st, memo, order, x);
    } else {
      MalformedIsSeen(g, st, memo, order, a);
    }
  }

  // ---- Entry points ----

  // `id` has been analysed into `acc` together with everything in `order`.
  ghost predicate Analysed(g: Graph, id: nat, acc: EffectSet) {
    forall e :: Effective(g, id, e) ==> e in acc
  }

  lemma VisitedIsAnalysed(g: Graph, id: nat, st: seq<Color>, memo: seq<EffectSet>, order: seq<nat>,
                          st': seq<Color>, memo': seq<EffectSet>, order': seq<nat>, more: EffectSet, acc: EffectSet)
    requires Search(g, st, memo, order) && Idle(st) && Collected(memo, [], order, acc)
    requires Visited(g, id, st, memo, order, st', memo', order', more)
    ensures Idle(st') && Collected(memo', [], order', acc + more)
    ensures Analysed(g, id, acc + more)
  {
    forall i | 0 <= i < |order'| ensures memo'[order'[i]] <= acc + more {
      if i < |order| { assert order'[i] == order[i] && order[i] in order && st[order[i]] == Done; }
    }
    forall e | Effective(g, id, e) ensures e in acc + more {
      if id < |st'| {
        assert st'[id] == Done && id in order';
        FinishedIsComplete(g, st', memo', order', id, e);
        var y :| y in order' && e in memo'[y];
        var i :| 0 <= i < |order'| && order'[i] == y;
      } else {
        DanglingOnly(g, id, e);
      }
    }
  }

  lemma DanglingOnly(g: Graph, id: nat, e: nat)
    requires id >= |g.subgraphs| && Effective(g, id, e)
    ensures e == UNKNOWN_BIT
  {
    if x: nat :| Reach(g, id, x) && x < |g.subgraphs| && OwnedIn(g.subgraphs[x], e) {
      var p :| IsPath(g, p, id, x);
      assert |p| > 1 ==> Edge(g, p[0], p[1]);
    }
  }

  // The effects of a subgraph; a failed allocation gives UNKNOWN.
  method SubgraphEffects(g: Graph, id: nat, memory: bool) returns (effects: EffectSet)
    ensures memory ==> forall e :: e in effects <==> Effective(g, id, e)
    ensures !memory ==> effects == UNKNOWN
  {
    ReachRefl(g, id);
    if id >= |g.subgraphs| {
      forall e | Effective(g, id, e) ensures e == UNKNOWN_BIT { DanglingOnly(g, id, e); }
      return UNKNOWN;
    }
    if !memory { return UNKNOWN; }
    var state := new Color[|g.subgraphs|](_ => New);
    var memo := new EffectSet[|g.subgraphs|](_ => PURE);
    ghost var st0, memo0 := state[..], memo[..];
    ghost var order;
    effects, order := SubgraphEffectsRec(g, id, state, memo, []);
    VisitedIsAnalysed(g, id, st0, memo0, [], state[..], memo[..], order, effects, {});
    assert {} + effects == effects;
  }

  // The effects of one node: its own and those of the subgraphs it references,
  // which share one memo table.
  method NodeEffects(g: Graph, node: Node, memory: bool) returns (effects: EffectSet)
    ensures memory || node.subgraphs == [] ==>
              forall e :: e in effects <==>
                Owns(node, e) || exists k :: 0 <= k < |node.subgraphs| && Effective(g, node.subgraphs[k], e)
    ensures !memory && node.subgraphs != [] ==> forall e :: e in effects <==> Owns(node, e) || e == UNKNOWN_BIT
  {
    effects := CollectOwn(node);
    if node.subgraphs == [] { return; }
    if !memory { return effects + UNKNOWN; }
    var state := new Color[|g.subgraphs|](_ => New);
    var memo := new EffectSet[|g.subgraphs|](_ => PURE);
    ghost var order: seq<nat> := [];
    for i := 0 to |node.subgraphs|
      invariant Search(g, state[..], memo[..], order) && Idle(state[..]) && Collected(memo[..], [], order, effects)
      invariant forall e :: Owns(node, e) ==> e in effects
      invariant forall e :: e in effects ==>
                  Owns(node, e) || exists k :: 0 <= k < i && Effective(g, node.subgraphs[k], e)
      invariant forall k :: 0 <= k < i ==> Analysed(g, node.subgraphs[k], effects)
    {
      ghost var st1, memo1, order1 := state[..], memo[..], order;
      var more;
      more, order := SubgraphEffectsRec(g, node.subgraphs[i], state, memo, order1);
      VisitedIsAnalysed(g, node.subgraphs[i], st1, memo1, order1, state[..], memo[..], order, more, effects);
      effects := effects + more;
    }
  }

  // The effects of a whole graph are those of its root.
  method GraphEffects(g: Graph, memory: bool) returns (effects: EffectSet)
    ensures memory ==> forall e :: e in effects <==> Effective(g, g.root, e)
    ensures !memory || g.root >= |g.subgraphs| ==> effects == UNKNOWN
  {
    if g.root < |g.subgraphs| {
      effects := SubgraphEffects(g, g.root, memory);
    } else {
      effects := UNKNOWN;
      ReachRefl(g, g.root);
      forall e | Effective(g, g.root, e) ensures e == UNKNOWN_BIT { DanglingOnly(g, g.root, e); }
    }
  }
}
