/**
  The linked view: one link per edge, chained per source in edge order. A link
  is named by its index in the link array.
 */
module BranchingPointer {
  import opened Common
  import opened FlowGraph
  import opened BranchingSpec
  import opened BranchingViews

  datatype PointerView = PointerView(
    nodes: nat, edges: nat, first: seq<Option<nat>>, target: seq<nat>, next: seq<Option<nat>>)

  // ---- Edges of one source ----

  function EdgeIds(edges: seq<Edge>, s: nat): (r: seq<nat>)
    ensures forall j :: 0 <= j < |r| ==> r[j] < |edges| && edges[r[j]].from == s
    ensures forall i, j :: 0 <= i < j < |r| ==> r[i] < r[j]
  {
    if edges == [] then []
    else
      var last := |edges| - 1;
      EdgeIds(edges[..last], s) + if edges[last].from == s then [last] else []
  }

  lemma IdsStep(edges: seq<Edge>, k: nat, s: nat)
    requires k < |edges|
    ensures EdgeIds(edges[..k + 1], s) ==
            if edges[k].from == s then EdgeIds(edges[..k], s) + [k] else EdgeIds(edges[..k], s)
  {
    assert edges[..k + 1][..k] == edges[..k];
  }

  lemma {:induction false} IdsAreTargets(edges: seq<Edge>, s: nat)
    ensures |EdgeIds(edges, s)| == |Targets(edges, s)|
    ensures forall j :: 0 <= j < |EdgeIds(edges, s)| ==> Targets(edges, s)[j] == edges[EdgeIds(edges, s)[j]].to
  {
    if edges != [] {
      var shorter := edges[..|edges| - 1];
      IdsAreTargets(shorter, s);
      forall j | 0 <= j < |EdgeIds(edges, s)| ensures Targets(edges, s)[j] == edges[EdgeIds(edges, s)[j]].to {
        if j < |EdgeIds(shorter, s)| {
          assert Targets(shorter, s)[j] == shorter[EdgeIds(shorter, s)[j]].to;
        }
      }
    }
  }

  // ---- Building the chains ----

  // The chain of `s` visits exactly `ids`, in order.
  ghost predicate Linked(ids: seq<nat>, first: Option<nat>, last: Option<nat>, next: seq<Option<nat>>) {
    && (forall j :: 0 <= j < |ids| ==> ids[j] < |next|)
    && (ids == [] ==> first == None && last == None)
    && (ids != [] ==> first == Some(ids[0]) && last == Some(ids[|ids| - 1]) && next[ids[|ids| - 1]] == None)
    && (forall j, n :: 0 <= j < |ids| && n == j + 1 && n < |ids| ==> next[ids[j]] == Some(ids[n]))
  }

  // One source's fields after the link of edge k is chained.
  lemma LinkAppends(ids: seq<nat>, first: Option<nat>, last: Option<nat>, next: seq<Option<nat>>, k: nat)
    requires Linked(ids, first, last, next) && k < |next|
    requires forall j :: 0 <= j < |ids| ==> ids[j] < k
    requires forall i, j :: 0 <= i < j < |ids| ==> ids[i] < ids[j]
    ensures last.Some? ==> last.value < k
    ensures Linked(ids + [k], if last.None? then Some(k) else first, Some(k), Chained(last, next, k))
  {
  }

  function Chained(last: Option<nat>, next: seq<Option<nat>>, k: nat): seq<Option<nat>>
    requires k < |next|
  {
    var cleared := next[k := None];
    if last.Some? && last.value < |next| then cleared[last.value := Some(k)] else cleared
  }

  // The other sources' chains do not meet the links that were written.
  lemma OthersKept(ids: seq<nat>, first: Option<nat>, last: Option<nat>, next: seq<Option<nat>>,
                   written: Option<nat>, k: nat)
    requires Linked(ids, first, last, next) && k < |next|
    requires forall j :: 0 <= j < |ids| ==> ids[j] < k && written != Some(ids[j])
    ensures Linked(ids, first, last, Chained(written, next, k))
  {
  }

  ghost predicate AllLinked(edges: seq<Edge>, k: nat, first: seq<Option<nat>>, last: seq<Option<nat>>,
                            next: seq<Option<nat>>)
    requires k <= |edges| && |first| == |last|
  {
    forall s :: 0 <= s < |first| ==> Linked(EdgeIds(edges[..k], s), first[s], last[s], next)
  }

  lemma ChainStep(edges: seq<Edge>, k: nat, first: seq<Option<nat>>, last: seq<Option<nat>>, next: seq<Option<nat>>)
    requires k < |edges| == |next| && |first| == |last|
    requires edges[k].from < |first|
    requires AllLinked(edges, k, first, last, next)
    ensures last[edges[k].from].Some? ==> last[edges[k].from].value < |next|
    ensures AllLinked(edges, k + 1,
                      if last[edges[k].from].Some? then first else first[edges[k].from := Some(k)],
                      last[edges[k].from := Some(k)],
                      Chained(last[edges[k].from], next, k))
  {
    hide Linked, Chained, EdgeIds;
    var from := edges[k].from;
    var seen, grown := edges[..k], edges[..k + 1];
    LinkAppends(EdgeIds(seen, from), first[from], last[from], next, k);
    var first' := if last[from].Some? then first else first[from := Some(k)];
    var last' := last[from := Some(k)];
    var next' := Chained(last[from], next, k);
    forall s | 0 <= s < |first| ensures Linked(EdgeIds(grown, s), first'[s], last'[s], next') {
      IdsStep(edges, k, s);
      if s != from {
        LastIsOwn(EdgeIds(seen, from), first[from], last[from], next, seen, from);
        OthersKept(EdgeIds(seen, s), first[s], last[s], next, last[from], k);
      }
    }
  }

  // The last link of a chain belongs to that chain's source.
  lemma LastIsOwn(ids: seq<nat>, first: Option<nat>, last: Option<nat>, next: seq<Option<nat>>, edges: seq<Edge>, s: nat)
    requires Linked(ids, first, last, next) && ids == EdgeIds(edges, s)
    ensures last.Some? ==> last.value < |edges| && edges[last.value].from == s
  {
  }

  // Links only lead forward in the link array.
  predicate Forward(nodes: nat, edges: nat, first: seq<Option<nat>>, next: seq<Option<nat>>) {
    && |first| == nodes && |next| == edges
    && (forall l :: 0 <= l < edges && next[l].Some? ==> l < next[l].value < edges)
    && (forall s :: 0 <= s < nodes && first[s].Some? ==> first[s].value < edges)
  }

  method ChainEdge(first: array<Option<nat>>, last: array<Option<nat>>, target: array<nat>, next: array<Option<nat>>,
                   edges: seq<Edge>, k: nat)
    requires k < |edges| == target.Length == next.Length && first.Length == last.Length && edges[k].from < first.Length
    requires first != last && first != next && last != next
    requires AllLinked(edges, k, first[..], last[..], next[..])
    requires Forward(first.Length, |edges|, first[..], next[..])
    modifies first, last, target, next
    ensures AllLinked(edges, k + 1, first[..], last[..], next[..])
    ensures Forward(first.Length, |edges|, first[..], next[..])
    ensures target[..] == old(target[..])[k := edges[k].to]
  {
    hide AllLinked;
    ChainStep(edges, k, first[..], last[..], next[..]);
    LastsBelow(edges, k, first[..], last[..], next[..], edges[k].from);
    ghost var firsts, lasts, nexts := first[..], last[..], next[..];
    var from := edges[k].from;
    target[k] := edges[k].to;
    next[k] := None;
    if last[from].Some? {
      next[last[from].value] := Some(k);
    } else {
      first[from] := Some(k);
    }
    last[from] := Some(k);
    assert next[..] == Chained(lasts[from], nexts, k);
    assert first[..] == if lasts[from].Some? then firsts else firsts[from := Some(k)];
    assert last[..] == lasts[from := Some(k)];
  }

  lemma LastsBelow(edges: seq<Edge>, k: nat, first: seq<Option<nat>>, last: seq<Option<nat>>, next: seq<Option<nat>>, s: nat)
    requires k <= |edges| && |first| == |last| && s < |first|
    requires AllLinked(edges, k, first, last, next)
    ensures last[s].Some? ==> last[s].value < k
  {
    LastIsOwn(EdgeIds(edges[..k], s), first[s], last[s], next, edges[..k], s);
  }

  // The bytes of nodes and links together fit a size_t.
  predicate LinksAccounted(edges: seq<Edge>, nodes: nat) { 16 * nodes + 16 * |edges| <= SIZE_MAX }

  method BuildPointer(edges: seq<Edge>, nodes: nat, nodesGranted: bool, linksGranted: bool)
    returns (status: Status, view: Option<PointerView>)
    ensures view.Some? <==> status == Ok
    ensures status == (if ShapeStatus(edges, nodes) != Ok then ShapeStatus(edges, nodes)
                       else if 16 * |edges| > SIZE_MAX then Overflow
                       else if (nodes != 0 && !nodesGranted) || (edges != [] && !linksGranted) then AllocationFailed
                       else if !LinksAccounted(edges, nodes) then Overflow else Ok)
    ensures view.Some? ==> Represents(edges, nodes, view.value)
  {
    hide AllLinked;
    view := None;
    status := ValidateShape(edges, nodes);
    if status != Ok {
      return;
    }
    if 16 * |edges| > SIZE_MAX {
      return Overflow, None;
    }
    if (nodes != 0 && !nodesGranted) || (edges != [] && !linksGranted) {
      return AllocationFailed, None;
    }
    if 16 * nodes + 16 * |edges| > SIZE_MAX {
      return Overflow, None;
    }
    var first := new Option<nat>[nodes](_ => None);
    var last := new Option<nat>[nodes](_ => None);
    var target := new nat[|edges|];
    var next := new Option<nat>[|edges|](_ => None);
    NothingLinked(edges, first[..], last[..], next[..]);
    for k := 0 to |edges|
      invariant forall i :: 0 <= i < k ==> target[i] == edges[i].to
      invariant AllLinked(edges, k, first[..], last[..], next[..])
      invariant Forward(nodes, |edges|, first[..], next[..])
    {
      assert ValidEdge(edges[k], nodes);
      ChainEdge(first, last, target, next, edges, k);
    }
    view := Some(PointerView(nodes, |edges|, first[..], target[..], next[..]));
    BuiltRepresents(edges, view.value, last[..]);
  }

  lemma NothingLinked(edges: seq<Edge>, first: seq<Option<nat>>, last: seq<Option<nat>>, next: seq<Option<nat>>)
    requires |first| == |last| && forall s :: 0 <= s < |first| ==> first[s] == last[s] == None
    ensures AllLinked(edges, 0, first, last, next)
  {
  }

  lemma BuiltRepresents(edges: seq<Edge>, v: PointerView, last: seq<Option<nat>>)
    requires |v.first| == |last| == v.nodes && |v.target| == |edges|
    requires AllLinked(edges, |edges|, v.first, last, v.next)
    requires Forward(v.nodes, |edges|, v.first, v.next) && v.edges == |edges|
    requires forall i :: 0 <= i < |edges| ==> v.target[i] == edges[i].to
    ensures Represents(edges, v.nodes, v)
  {
    assert edges[..|edges|] == edges;
    forall s | 0 <= s < v.nodes ensures ChainOf(EdgeIds(edges, s), v.first[s], v.next) {
      assert Linked(EdgeIds(edges, s), v.first[s], last[s], v.next);
    }
  }

  ghost predicate ChainOf(ids: seq<nat>, first: Option<nat>, next: seq<Option<nat>>) {
    exists last: Option<nat> :: Linked(ids, first, last, next)
  }

  // A view whose chains list the edges of each source in order.
  ghost predicate Represents(edges: seq<Edge>, nodes: nat, v: PointerView) {
    && v.nodes == nodes && v.edges == |edges| == |v.target|
    && Forward(nodes, |edges|, v.first, v.next)
    && (forall i :: 0 <= i < |edges| ==> v.target[i] == edges[i].to)
    && (forall s :: 0 <= s < nodes ==> ChainOf(EdgeIds(edges, s), v.first[s], v.next))
  }

  // ---- Observing the chains ----

  predicate Walkable(v: PointerView) {
    |v.target| == v.edges && Forward(v.nodes, v.edges, v.first, v.next)
  }

  function Chain(v: PointerView, link: Option<nat>): seq<nat>
    requires Walkable(v) && (link.Some? ==> link.value < v.edges)
    decreases if link.Some? then v.edges - link.value else 0
  {
    if link.None? then [] else [v.target[link.value]] + Chain(v, v.next[link.value])
  }

  function Chains(v: PointerView): (r: seq<seq<nat>>)
    requires Walkable(v)
    ensures |r| == v.nodes && forall s :: 0 <= s < v.nodes ==> r[s] == Chain(v, v.first[s])
  {
    seq(v.nodes, s requires 0 <= s < v.nodes => Chain(v, v.first[s]))
  }

  // The links still ahead of a walk that has found `found` targets of `row`.
  ghost predicate Ahead(v: PointerView, row: seq<nat>, found: nat, link: Option<nat>)
    requires Walkable(v)
  {
    (link.Some? ==> link.value < v.edges) && found <= |row| && row[found..] == Chain(v, link)
  }

  lemma AheadSteps(v: PointerView, row: seq<nat>, found: nat, link: Option<nat>)
    requires Walkable(v) && Ahead(v, row, found, link) && link.Some?
    ensures found < |row| && row[found] == v.target[link.value]
    ensures Ahead(v, row, found + 1, v.next[link.value])
  {
    var rest := row[found..];
    assert rest == [v.target[link.value]] + Chain(v, v.next[link.value]);
    assert row[found] == rest[0] && row[found + 1..] == rest[1..];
  }

  lemma AheadEnds(v: PointerView, row: seq<nat>, found: nat)
    requires Walkable(v) && Ahead(v, row, found, None)
    ensures found == |row|
  {
    assert row[found..] == [];
  }

  method WalkChain(v: PointerView, source: nat, count: nat) returns (sum: bv64, found: nat, ok: bool)
    requires Walkable(v) && source < v.nodes && count <= SIZE_MAX
    ensures ok <==> RowInRange(Chain(v, v.first[source]), v.nodes) && count + |Chain(v, v.first[source])| <= SIZE_MAX
    ensures ok ==> sum == Sum(Chain(v, v.first[source])) && found == |Chain(v, v.first[source])|
  {
    hide MixTarget, Sum, Chain;
    ghost var row := Chain(v, v.first[source]);
    var link: Option<nat> := v.first[source];
    sum, found, ok := SEED, 0, true;
    WalkStarts(v, row, source);
    while link.Some?
      invariant Ahead(v, row, found, link)
      invariant count + found <= SIZE_MAX && forall j :: 0 <= j < found ==> row[j] < v.nodes
      invariant sum == Sum(row[..found])
      decreases |row| - found
    {
      AheadSteps(v, row, found, link);
      if v.target[link.value] >= v.nodes || count + found == SIZE_MAX {
        ok := false;
        return;
      }
      SumStep(row, found);
      sum := MixTarget(sum, v.target[link.value]);
      found := found + 1;
      link := v.next[link.value];
    }
    AheadEnds(v, row, found);
    assert row[..found] == row;
  }

  lemma WalkStarts(v: PointerView, row: seq<nat>, source: nat)
    requires Walkable(v) && source < v.nodes && row == Chain(v, v.first[source])
    ensures source < |v.first| && Ahead(v, row, 0, v.first[source]) && Sum(row[..0]) == SEED
  {
    assert row[0..] == row;
  }

  lemma {:induction false} TotalPrefix(groups: seq<seq<nat>>, s: nat)
    requires s <= |groups|
    ensures Total(groups[..s]) <= Total(groups)
    decreases |groups| - s
  {
    if s < |groups| {
      assert groups[..s + 1][..s] == groups[..s];
      TotalPrefix(groups, s + 1);
    } else {
      assert groups[..s] == groups;
    }
  }

  method ObservePointer(v: PointerView) returns (o: Observation)
    requires Walkable(v) && v.edges <= SIZE_MAX
    ensures o.ok <==> InRange(Chains(v), v.nodes) && Total(Chains(v)) == v.edges
    ensures o.ok ==> o == Observation(v.nodes, v.edges, Digest(Chains(v)), true)
  {
    hide Commit, Sum, Total, InRange, Chain;
    var count, checksum := 0, SEED;
    ghost var rows := Chains(v);
    assert rows[..0] == [];
    NothingSeen(v.nodes);
    for source := 0 to v.nodes
      invariant InRange(rows[..source], v.nodes)
      invariant count == Total(rows[..source]) <= SIZE_MAX && checksum == Digest(rows[..source])
    {
      InRangeStep(rows, v.nodes, source);
      DigestStep(rows, source);
      TotalPrefix(rows, source + 1);
      var sum, found, valid := WalkChain(v, source, count);
      if !valid {
        return Observation(v.nodes, count, checksum, false);
      }
      count := count + found;
      checksum := Commit(checksum, source, sum);
    }
    assert rows[..v.nodes] == rows;
    o := Observation(v.nodes, count, checksum, count == v.edges);
  }

  // ---- The built chains are the targets ----

  lemma {:induction false} ChainFollows(edges: seq<Edge>, v: PointerView, s: nat, last: Option<nat>, j: nat)
    requires Represents(edges, v.nodes, v) && s < v.nodes && j < |EdgeIds(edges, s)|
    requires Linked(EdgeIds(edges, s), v.first[s], last, v.next)
    ensures |Targets(edges, s)| == |EdgeIds(edges, s)|
    ensures Chain(v, Some(EdgeIds(edges, s)[j])) == Targets(edges, s)[j..]
    decreases |EdgeIds(edges, s)| - j
  {
    var ids, row := EdgeIds(edges, s), Targets(edges, s);
    IdsAreTargets(edges, s);
    assert row[j..] == [row[j]] + row[j + 1..];
    if j + 1 < |ids| {
      ChainFollows(edges, v, s, last, j + 1);
      assert v.next[ids[j]] == Some(ids[j + 1]);
    } else {
      assert v.next[ids[j]] == None;
      assert row[j + 1..] == [];
    }
  }

  lemma PointerRows(edges: seq<Edge>, v: PointerView)
    requires Represents(edges, v.nodes, v)
    ensures Walkable(v) && Chains(v) == Groups(edges, v.nodes)
  {
    forall s | 0 <= s < v.nodes ensures Chain(v, v.first[s]) == Targets(edges, s) {
      assert ChainOf(EdgeIds(edges, s), v.first[s], v.next);
      var last: Option<nat> :| Linked(EdgeIds(edges, s), v.first[s], last, v.next);
      IdsAreTargets(edges, s);
      if EdgeIds(edges, s) != [] {
        ChainFollows(edges, v, s, last, 0);
        assert Targets(edges, s)[0..] == Targets(edges, s);
      }
    }
  }
}
