/**
  The five views of a subgraph's edges and their observers: flat lookup, one
  pass over flat edges, linked rows, compressed rows and hashed rows.
 */
module BranchingViews {
  import opened Common
  import opened FlowGraph
  import opened BranchingSpec
  import opened BranchingCsr

  const ID_COUNT: nat := 0x1_0000_0000  // node and edge ids are 32 bits wide

  datatype Status = Ok | InvalidArgument | InvalidEdge | Overflow | AllocationFailed

  datatype CsrView = CsrView(nodes: nat, edges: nat, offsets: seq<nat>, targets: seq<nat>)

  datatype Span = Span(offset: nat, count: nat)

  datatype HashView = HashView(nodes: nat, edges: nat, targets: seq<nat>, spans: map<nat, Span>)

  // ---- Shape ----

  function ShapeStatus(edges: seq<Edge>, nodes: nat): Status {
    if nodes > INVALID_ID then InvalidArgument
    else if 4 * |edges| > SIZE_MAX then Overflow
    else if ValidEdges(edges, nodes) then Ok
    else InvalidEdge
  }

  method ValidateShape(edges: seq<Edge>, nodes: nat) returns (status: Status)
    ensures status == ShapeStatus(edges, nodes)
  {
    if nodes > INVALID_ID {
      return InvalidArgument;
    }
    if |edges| > SIZE_MAX / 4 {
      return Overflow;
    }
    for k := 0 to |edges|
      invariant forall i :: 0 <= i < k ==> ValidEdge(edges[i], nodes)
    {
      if edges[k].from >= nodes || edges[k].to >= nodes {
        assert !ValidEdge(edges[k], nodes);
        return InvalidEdge;
      }
    }
    status := Ok;
  }

  // ---- Rows seen so far ----

  lemma InRangeStep(groups: seq<seq<nat>>, nodes: nat, s: nat)
    requires s < |groups|
    ensures InRange(groups[..s + 1], nodes) <==> InRange(groups[..s], nodes) && RowInRange(groups[s], nodes)
    ensures InRange(groups, nodes) ==> InRange(groups[..s + 1], nodes)
  {
    var shorter, longer := groups[..s], groups[..s + 1];
    if InRange(shorter, nodes) && RowInRange(groups[s], nodes) {
      forall t, j | 0 <= t < |longer| && 0 <= j < |longer[t]| ensures longer[t][j] < nodes {
        if t < s {
          assert shorter[t][j] < nodes;
        }
      }
    }
    if InRange(longer, nodes) {
      forall t, j | 0 <= t < |shorter| && 0 <= j < |shorter[t]| ensures shorter[t][j] < nodes {
        assert longer[t][j] < nodes;
      }
      forall j | 0 <= j < |groups[s]| ensures groups[s][j] < nodes {
        assert longer[s][j] < nodes;
      }
    }
  }

  predicate RowInRange(row: seq<nat>, nodes: nat) {
    forall j :: 0 <= j < |row| ==> row[j] < nodes
  }

  // ---- Flat edges ----

  method OutDegree(edges: seq<Edge>, nodes: nat, node: nat) returns (n: nat)
    ensures n == if node < nodes then |Targets(edges, node)| else 0
  {
    if node >= nodes {
      return 0;
    }
    n := 0;
    for i := 0 to |edges|
      invariant n == |Targets(edges[..i], node)|
    {
      TargetsStep(edges, i, node);
      if edges[i].from == node {
        n := n + 1;
      }
    }
    TargetsWhole(edges, node);
  }

  // The edges that flat lookup reads: it narrows its index to an edge id.
  function Narrowed(edges: seq<Edge>): (r: seq<Edge>)
    ensures |r| == |edges| && forall k :: 0 <= k < |edges| ==> r[k] == edges[k % ID_COUNT]
  {
    seq(|edges|, k requires 0 <= k < |edges| => edges[k % ID_COUNT])
  }

  // What flat lookup asks: the edges it reads are valid, and each source has as
  // many of them as its out-degree says.
  predicate LookupOk(edges: seq<Edge>, nodes: nat) {
    ValidEdges(Narrowed(edges), nodes) && forall s :: 0 <= s < nodes ==> DegreeOk(edges, s)
  }

  predicate DegreeOk(edges: seq<Edge>, s: nat) {
    |Targets(Narrowed(edges), s)| == |Targets(edges, s % ID_COUNT)|
  }

  // The targets of one source, found by scanning every edge.
  method LookupRow(edges: seq<Edge>, nodes: nat, source: nat) returns (sum: bv64, observed: nat, ok: bool)
    ensures ok <==> ValidEdges(Narrowed(edges), nodes)
    ensures ok ==> sum == Sum(Targets(Narrowed(edges), source)) && observed == |Targets(Narrowed(edges), source)|
  {
    hide MixTarget, Sum, Targets;
    ghost var seen := Narrowed(edges);
    sum, observed, ok := SEED, 0, true;
    NothingFound(seen, source);
    for k := 0 to |edges|
      invariant forall i :: 0 <= i < k ==> ValidEdge(seen[i], nodes)
      invariant sum == Sum(Targets(seen[..k], source)) && observed == |Targets(seen[..k], source)|
    {
      var edge := edges[k % ID_COUNT];
      assert seen[k] == edge;
      if edge.from >= nodes || edge.to >= nodes {
        assert !ValidEdge(seen[k], nodes);
        ok := false;
        return;
      }
      TargetsStep(seen, k, source);
      if edge.from == source {
        SumAppend(Targets(seen[..k], source), edge.to);
        sum := MixTarget(sum, edge.to);
        observed := observed + 1;
      }
    }
    TargetsWhole(seen, source);
  }

  lemma NothingFound(edges: seq<Edge>, s: nat)
    ensures Targets(edges[..0], s) == [] && Sum(Targets(edges[..0], s)) == SEED
  {
  }

  method ObserveFlatLookup(edges: seq<Edge>, nodes: nat) returns (o: Observation)
    requires |edges| <= SIZE_MAX
    ensures o.ok <==> LookupOk(edges, nodes)
    ensures o.ok ==> o == Reference(Narrowed(edges), nodes)
  {
    hide Commit, Sum, Targets, Narrowed;
    ghost var seen := Narrowed(edges);
    ghost var groups := Groups(seen, nodes);
    var count, checksum := 0, SEED;
    for source := 0 to nodes
      invariant source > 0 ==> ValidEdges(seen, nodes)
      invariant forall s :: 0 <= s < source ==> DegreeOk(edges, s)
      invariant count == Total(groups[..source]) <= |edges| && checksum == Digest(groups[..source])
    {
      var expected := OutDegree(edges, nodes, source % ID_COUNT);
      var sum, observed, valid := LookupRow(edges, nodes, source);
      o := Observation(nodes, count, checksum, false);
      if !valid {
        return;
      }
      TotalBounded(seen, nodes, source + 1);
      DigestStep(groups, source);
      assert DegreeOk(edges, source) <==> observed == expected;
      if observed != expected || observed > SIZE_MAX - count {
        return;
      }
      count := count + observed;
      checksum := Commit(checksum, source, sum);
    }
    assert groups[..nodes] == groups;
    FlatTotal(seen, nodes);
    o := Observation(nodes, count, checksum, count == |edges|);
  }

  lemma TotalBounded(edges: seq<Edge>, nodes: nat, s: nat)
    requires ValidEdges(edges, nodes) && s <= nodes
    ensures Total(Groups(edges, nodes)[..s]) <= |edges|
  {
    TotalOfGroups(edges, nodes, s);
    BeforeMonotone(edges, s, nodes);
    BeforeAll(edges, nodes);
  }

  // A subgraph without nodes has no valid edge.
  lemma FlatTotal(edges: seq<Edge>, nodes: nat)
    requires nodes > 0 ==> ValidEdges(edges, nodes)
    ensures Total(Groups(edges, nodes)) == |edges| <==> ValidEdges(edges, nodes)
  {
    if ValidEdges(edges, nodes) {
      GroupsHoldEveryEdge(edges, nodes);
    } else {
      assert Groups(edges, nodes) == [];
    }
  }

  // One pass over the edges, mixing each target into its source's checksum.
  method MixEdges(checksums: array<bv64>, edges: seq<Edge>, nodes: nat) returns (count: nat, ok: bool)
    requires checksums.Length == nodes
    requires forall s :: 0 <= s < nodes ==> checksums[s] == SEED
    modifies checksums
    ensures ok <==> ValidEdges(edges, nodes)
    ensures ok ==> count == |edges| && forall s :: 0 <= s < nodes ==> checksums[s] == Sum(Targets(edges, s))
  {
    hide MixTarget;
    count, ok := 0, true;
    for k := 0 to |edges|
      invariant count == k && forall i :: 0 <= i < k ==> ValidEdge(edges[i], nodes)
      invariant forall s :: 0 <= s < nodes ==> checksums[s] == Sum(Targets(edges[..k], s))
    {
      if edges[k].from >= nodes || edges[k].to >= nodes {
        assert !ValidEdge(edges[k], nodes);
        ok := false;
        return;
      }
      ghost var seen, from, to := edges[..k + 1], edges[k].from, edges[k].to;
      forall s | 0 <= s < nodes
        ensures Sum(Targets(seen, s)) == if s == from then MixTarget(checksums[s], to) else checksums[s]
      {
        TargetsStep(edges, k, s);
        SumAppend(Targets(edges[..k], s), to);
      }
      checksums[edges[k].from] := MixTarget(checksums[edges[k].from], edges[k].to);
      count := count + 1;
    }
    assert edges[..|edges|] == edges;
  }

  method ObserveFlatOnce(checksums: array<bv64>, edges: seq<Edge>, nodes: nat) returns (o: Observation)
    requires checksums.Length == nodes
    modifies checksums
    ensures o.ok <==> ValidEdges(edges, nodes)
    ensures o.ok ==> o == Reference(edges, nodes)
  {
    hide Commit, Sum, MixToken;
    for source := 0 to nodes
      invariant forall s :: 0 <= s < source ==> checksums[s] == SEED
    {
      checksums[source] := SEED;
    }
    var count, valid := MixEdges(checksums, edges, nodes);
    if !valid {
      return Observation(nodes, count, SEED, false);
    }
    ghost var groups := Groups(edges, nodes);
    var checksum := SEED;
    for source := 0 to nodes
      invariant forall s :: 0 <= s < nodes ==> checksums[s] == Sum(Targets(edges, s))
      invariant checksum == Digest(groups[..source])
    {
      DigestStep(groups, source);
      checksum := Commit(checksum, source, checksums[source]);
    }
    assert groups[..nodes] == groups;
    o := Observation(nodes, count, checksum, true);
  }

  // ---- Compressed rows ----

  // The bytes of offsets and targets together fit a size_t.
  predicate CsrAccounted(edges: seq<Edge>, nodes: nat) { 8 * (nodes + 1) + 4 * |edges| <= SIZE_MAX }

  method BuildCsr(edges: seq<Edge>, nodes: nat, offsetsGranted: bool, targetsGranted: bool)
    returns (status: Status, view: Option<CsrView>)
    ensures view.Some? <==> status == Ok
    ensures status == (if ShapeStatus(edges, nodes) != Ok then ShapeStatus(edges, nodes)
                       else if !offsetsGranted || (edges != [] && !targetsGranted) then AllocationFailed
                       else if !CsrAccounted(edges, nodes) then Overflow else Ok)
    ensures view.Some? ==> view.value.nodes == nodes && view.value.edges == |edges|
                           && Csr(edges, nodes, view.value.offsets, view.value.targets)
  {
    view := None;
    status := ValidateShape(edges, nodes);
    if status != Ok {
      return;
    }
    if !offsetsGranted || (edges != [] && !targetsGranted) {
      return AllocationFailed, None;
    }
    if 8 * (nodes + 1) + 4 * |edges| > SIZE_MAX {
      return Overflow, None;
    }
    var offsets := new nat[nodes + 1];
    var targets := new nat[|edges|];
    BuildPrefixOffsets(offsets, edges, nodes);
    if edges != [] {
      StableGroupTargets(offsets, targets, edges, nodes);
    }
    view := Some(CsrView(nodes, |edges|, offsets[..], targets[..]));
  }

  predicate Sized(v: CsrView) { |v.offsets| == v.nodes + 1 && |v.targets| == v.edges }

  predicate CutAt(v: CsrView, s: nat)
    requires Sized(v) && s < v.nodes
  {
    v.offsets[s] <= v.offsets[s + 1] <= v.edges
  }

  // Offsets that cut the targets into rows.
  predicate Cuts(v: CsrView)
    requires Sized(v)
  {
    && v.offsets[0] == 0
    && v.offsets[v.nodes] == v.edges
    && (forall s :: 0 <= s < v.nodes ==> CutAt(v, s))
  }

  function RowOf(v: CsrView, s: nat): seq<nat>
    requires Sized(v) && s < v.nodes && CutAt(v, s)
  {
    v.targets[v.offsets[s]..v.offsets[s + 1]]
  }

  function Rows(v: CsrView): (r: seq<seq<nat>>)
    requires Sized(v) && Cuts(v)
    ensures |r| == v.nodes && forall s :: 0 <= s < v.nodes ==> r[s] == RowOf(v, s)
  {
    seq(v.nodes, s requires 0 <= s < v.nodes => RowOf(v, s))
  }

  // Fold the targets in [from, to), stopping at one out of range.
  method MixSlice(targets: seq<nat>, from: nat, to: nat, nodes: nat) returns (sum: bv64, ok: bool)
    requires from <= to <= |targets|
    ensures ok <==> RowInRange(targets[from..to], nodes)
    ensures ok ==> sum == Sum(targets[from..to])
  {
    hide MixTarget;
    sum, ok := SEED, true;
    ghost var row := targets[from..to];
    for k := from to to
      invariant sum == Sum(row[..k - from]) && forall j :: 0 <= j < k - from ==> row[j] < nodes
    {
      if targets[k] >= nodes {
        assert row[k - from] >= nodes;
        ok := false;
        return;
      }
      SumStep(row, k - from);
      sum := MixTarget(sum, targets[k]);
    }
    assert row[..to - from] == row;
  }

  method ObserveCsr(v: CsrView) returns (o: Observation)
    requires Sized(v)
    ensures o.ok <==> Cuts(v) && InRange(Rows(v), v.nodes)
    ensures o.ok ==> o == Observation(v.nodes, v.edges, Digest(Rows(v)), true)
  {
    hide Commit, Sum;
    if v.offsets[0] != 0 || v.offsets[v.nodes] != v.edges {
      return Observation(0, 0, SEED, false);
    }
    var count, checksum := 0, SEED;
    ghost var rows := [];
    for source := 0 to v.nodes
      invariant forall s :: 0 <= s < source ==> CutAt(v, s)
      invariant |rows| == source && forall s :: 0 <= s < source ==> rows[s] == RowOf(v, s)
      invariant InRange(rows, v.nodes)
      invariant count == v.offsets[source] && checksum == Digest(rows)
    {
      if v.offsets[source] > v.offsets[source + 1] || v.offsets[source + 1] > v.edges {
        assert !CutAt(v, source);
        return Observation(v.nodes, count, checksum, false);
      }
      var sum, valid := MixSlice(v.targets, v.offsets[source], v.offsets[source + 1], v.nodes);
      ghost var row := RowOf(v, source);
      if !valid {
        if Cuts(v) {
          InRangeStep(Rows(v), v.nodes, source);
        }
        return Observation(v.nodes, count, checksum, false);
      }
      ghost var longer := rows + [row];
      assert longer[..source] == rows && longer[..source + 1] == longer;
      InRangeStep(longer, v.nodes, source);
      DigestStep(longer, source);
      count := count + (v.offsets[source + 1] - v.offsets[source]);
      checksum := Commit(checksum, source, sum);
      rows := longer;
    }
    assert rows == Rows(v);
    o := Observation(v.nodes, count, checksum, count == v.edges);
  }

  lemma CsrRows(edges: seq<Edge>, v: CsrView)
    requires ValidEdges(edges, v.nodes) && v.edges == |edges|
    requires Csr(edges, v.nodes, v.offsets, v.targets)
    ensures Sized(v) && Cuts(v) && Rows(v) == Groups(edges, v.nodes)
  {
    hide Before, Targets;
    BeforeNone(edges);
    BeforeAll(edges, v.nodes);
    forall s | 0 <= s < v.nodes
      ensures CutAt(v, s) && RowOf(v, s) == Targets(edges, s)
    {
      BeforeNext(edges, s);
      BeforeMonotone(edges, s + 1, v.nodes);
      assert Row(edges, edges, s, v.targets);
    }
  }

  // ---- Hashed rows ----

  // A span for every source that has edges, cut by the offsets.
  ghost predicate Spans(v: CsrView, spans: map<nat, Span>, upto: nat)
    requires Sized(v) && Cuts(v) && upto <= v.nodes
  {
    && (forall s :: s in spans ==> s < upto)
    && (forall s: nat :: s < upto ==> SpanOf(v, spans, s))
  }

  ghost predicate SpanOf(v: CsrView, spans: map<nat, Span>, s: nat)
    requires Sized(v) && Cuts(v) && s < v.nodes
  {
    var first, next := v.offsets[s], v.offsets[s + 1];
    if first == next then s !in spans
    else s in spans && spans[s].offset == first && spans[s].offset + spans[s].count == next
  }

  // `mapAccounted` says that the map's own storage could be added to the totals.
  method BuildHash(edges: seq<Edge>, nodes: nat, offsetsGranted: bool, targetsGranted: bool, mapGranted: bool,
                   mapAccounted: bool)
    returns (status: Status, view: Option<HashView>, ghost csr: CsrView)
    ensures view.Some? <==> status == Ok
    ensures status == (if ShapeStatus(edges, nodes) != Ok then ShapeStatus(edges, nodes)
                       else if !offsetsGranted || (edges != [] && !targetsGranted) then AllocationFailed
                       else if !CsrAccounted(edges, nodes) then Overflow
                       else if !mapGranted then AllocationFailed
                       else if !mapAccounted then Overflow else Ok)
    ensures view.Some? ==> csr.nodes == view.value.nodes == nodes && csr.edges == view.value.edges == |edges|
                           && csr.targets == view.value.targets && Csr(edges, nodes, csr.offsets, csr.targets)
                           && Sized(csr) && Cuts(csr) && Spans(csr, view.value.spans, nodes)
  {
    hide Csr;
    var built;
    status, built := BuildCsr(edges, nodes, offsetsGranted, targetsGranted);
    csr := CsrView(0, 0, [], []);
    if status != Ok {
      return status, None, csr;
    }
    if !mapGranted {
      return AllocationFailed, None, csr;
    }
    if !mapAccounted {
      return Overflow, None, csr;
    }
    var offsets := built.value.offsets;
    csr := built.value;
    CsrRows(edges, csr);
    var spans: map<nat, Span> := map[];
    for source := 0 to nodes
      invariant Spans(csr, spans, source)
    {
      assert CutAt(csr, source);
      ghost var was := spans;
      if offsets[source] != offsets[source + 1] {
        spans := spans[source := Span(offsets[source], offsets[source + 1] - offsets[source])];
      }
      forall s: nat | s < source + 1 ensures SpanOf(csr, spans, s) {
        assert s < source ==> SpanOf(csr, was, s);
      }
    }
    view := Some(HashView(nodes, |edges|, built.value.targets, spans));
  }

  function SpanRow(v: HashView, s: nat): seq<nat>
    requires |v.targets| == v.edges
  {
    if s in v.spans && v.spans[s].offset + v.spans[s].count <= v.edges then
      v.targets[v.spans[s].offset..v.spans[s].offset + v.spans[s].count]
    else []
  }

  function SpanRows(v: HashView): (r: seq<seq<nat>>)
    requires |v.targets| == v.edges
    ensures |r| == v.nodes && forall s :: 0 <= s < v.nodes ==> r[s] == SpanRow(v, s)
  {
    seq(v.nodes, s requires 0 <= s => SpanRow(v, s))
  }

  predicate SpanFits(v: HashView, s: nat) {
    s in v.spans ==> v.spans[s].offset + v.spans[s].count <= v.edges
  }

  predicate SpansFit(v: HashView) {
    forall s :: 0 <= s < v.nodes ==> SpanFits(v, s)
  }

  // One source's lookup: no span is an empty row.
  method SpanSum(v: HashView, source: nat) returns (sum: bv64, count: nat, ok: bool)
    requires |v.targets| == v.edges <= SIZE_MAX
    ensures ok <==> SpanFits(v, source) && RowInRange(SpanRow(v, source), v.nodes)
    ensures ok ==> sum == Sum(SpanRow(v, source)) && count == |SpanRow(v, source)|
  {
    hide MixTarget;
    sum, count, ok := SEED, 0, true;
    if source in v.spans {
      var span := v.spans[source];
      if span.offset + span.count > SIZE_MAX || span.offset + span.count > v.edges {
        ok := false;
        return;
      }
      sum, ok := MixSlice(v.targets, span.offset, span.offset + span.count, v.nodes);
      count := span.count;
    }
  }

  method ObserveHash(v: HashView) returns (o: Observation)
    requires |v.targets| == v.edges <= SIZE_MAX
    ensures o.ok <==> SpansFit(v) && InRange(SpanRows(v), v.nodes) && Total(SpanRows(v)) == v.edges
    ensures o.ok ==> o == Observation(v.nodes, v.edges, Digest(SpanRows(v)), true)
  {
    hide Commit, Sum, Total, SpanRow, InRange;
    var count, checksum := 0, SEED;
    ghost var rows := SpanRows(v);
    assert rows[..0] == [];
    NothingSeen(v.nodes);
    for source := 0 to v.nodes
      invariant forall s :: 0 <= s < source ==> SpanFits(v, s)
      invariant InRange(rows[..source], v.nodes)
      invariant count == Total(rows[..source]) && checksum == Digest(rows[..source])
    {
      InRangeStep(rows, v.nodes, source);
      DigestStep(rows, source);
      var sum, found, valid := SpanSum(v, source);
      if !valid {
        return Observation(v.nodes, count, checksum, false);
      }
      count := count + found;
      checksum := Commit(checksum, source, sum);
    }
    assert rows[..v.nodes] == rows;
    o := Observation(v.nodes, count, checksum, count == v.edges);
  }

  lemma NothingSeen(nodes: nat)
    ensures InRange([], nodes) && Total([]) == 0
  {
  }

  lemma HashRows(v: HashView, csr: CsrView)
    requires csr.nodes == v.nodes && csr.edges == v.edges && csr.targets == v.targets
    requires Sized(csr) && Cuts(csr) && Spans(csr, v.spans, v.nodes)
    ensures SpansFit(v) && SpanRows(v) == Rows(csr)
  {
    forall s | 0 <= s < v.nodes
      ensures SpanRow(v, s) == RowOf(csr, s) && SpanFits(v, s)
    {
      assert CutAt(csr, s);
      assert SpanOf(csr, v.spans, s);
    }
  }
}
