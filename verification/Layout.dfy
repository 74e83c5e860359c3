/** Coordinates of the topology view: a column per layer, a row per node of the layer, and a band
    of caches below. */
module Layout {
  import opened Prelude
  import opened Graphs
  import opened CycleSearch
  import opened ProjectRoutes
  import opened Layering
  import opened Topology

  const NODE_W := 150
  const NODE_H := 48
  const COL_GAP := 90
  const ROW_GAP := 28
  const BAND_GAP := 60

  /** The layered nodes, in order. */
  function RouteIds(nodes: seq<TopoNode>): seq<string> {
    if nodes == [] then []
    else
      var n := nodes[|nodes| - 1];
      RouteIds(nodes[..|nodes| - 1]) + if n.kind == CacheNode then [] else [n.id]
  }

  /** A layered node of the list has this id. */
  ghost predicate HasRoute(nodes: seq<TopoNode>, id: string) {
    exists i :: 0 <= i < |nodes| && nodes[i].id == id && nodes[i].kind != CacheNode
  }

  lemma HasRouteSplit(nodes: seq<TopoNode>, id: string)
    requires nodes != []
    ensures
      var n := |nodes| - 1;
      HasRoute(nodes, id) <==> HasRoute(nodes[..n], id) || (nodes[n].id == id && nodes[n].kind != CacheNode)
  {
    var n := |nodes| - 1;
    if HasRoute(nodes, id) {
      var i :| 0 <= i < |nodes| && nodes[i].id == id && nodes[i].kind != CacheNode;
      assert i < n ==> nodes[..n][i] == nodes[i];
    }
    if HasRoute(nodes[..n], id) {
      var i :| 0 <= i < n && nodes[..n][i].id == id && nodes[..n][i].kind != CacheNode;
      assert nodes[i] == nodes[..n][i];
    }
  }

  lemma {:induction false} RouteIdsMember(nodes: seq<TopoNode>, id: string)
    ensures id in RouteIds(nodes) <==> HasRoute(nodes, id)
  {
    if nodes != [] {
      RouteIdsMember(nodes[..|nodes| - 1], id);
      HasRouteSplit(nodes, id);
      hide HasRoute;
    }
  }

  lemma {:induction false} RouteIdsDistinct(nodes: seq<TopoNode>)
    requires DistinctIds(nodes)
    ensures Distinct(RouteIds(nodes))
  {
    if nodes != [] {
      var n := |nodes| - 1;
      RouteIdsDistinct(nodes[..n]);
      RouteIdsMember(nodes[..n], nodes[n].id);
      assert forall i :: 0 <= i < n ==> nodes[..n][i].id != nodes[n].id;
    }
  }

  lemma RouteIdsShape(nodes: seq<TopoNode>)
    requires DistinctIds(nodes)
    ensures Distinct(RouteIds(nodes))
    ensures forall id :: id in RouteIds(nodes) <==> HasRoute(nodes, id)
  {
    hide DistinctIds, Distinct, RouteIds, HasRoute;
    RouteIdsDistinct(nodes);
    forall id ensures id in RouteIds(nodes) <==> HasRoute(nodes, id) {
      RouteIdsMember(nodes, id);
    }
  }

  // ---------- geometry

  ghost predicate Overlap(a: TopoNode, b: TopoNode) {
    && a.x < b.x + NODE_W && b.x < a.x + NODE_W
    && a.y < b.y + NODE_H && b.y < a.y + NODE_H
  }

  ghost predicate Increasing(s: seq<nat>) { forall i, j :: 0 <= i < j < |s| ==> s[i] < s[j] }

  /** The indices of the layered nodes, grouped by layer, in order. */
  ghost predicate Grouped(nodes: seq<TopoNode>, groups: map<nat, seq<nat>>) {
    && (forall l, r :: l in groups && 0 <= r < |groups[l]| ==> InGroup(nodes, groups[l][r], l))
    && (forall l :: l in groups ==> Increasing(groups[l]) && groups[l] != [])
    && (forall i :: 0 <= i < |nodes| && nodes[i].kind != CacheNode ==> IsListed(groups, nodes[i].layer, i))
  }

  ghost predicate InGroup(nodes: seq<TopoNode>, i: nat, l: nat) {
    i < |nodes| && nodes[i].kind != CacheNode && nodes[i].layer == l
  }

  ghost predicate IsListed(groups: map<nat, seq<nat>>, l: int, i: nat) {
    0 <= l && (l as nat) in groups && i in groups[l as nat]
  }

  /** The nodes of layer `l` stand in column l, one below the other. */
  ghost predicate InColumn(nodes: seq<TopoNode>, l: nat, group: seq<nat>) {
    forall r :: 0 <= r < |group| && group[r] < |nodes| ==>
      nodes[group[r]].x == l * (NODE_W + COL_GAP) && nodes[group[r]].y == r * (NODE_H + ROW_GAP)
  }

  /** The same node, wherever it is drawn. */
  predicate Same(a: TopoNode, b: TopoNode) {
    a.id == b.id && a.kind == b.kind && a.title == b.title && a.undeclared == b.undeclared
  }

  /** Every node and its layer stay the same. */
  ghost predicate SameNodes(a: seq<TopoNode>, b: seq<TopoNode>) {
    |a| == |b| && forall i :: 0 <= i < |a| ==> Same(a[i], b[i]) && a[i].layer == b[i].layer
  }

  ghost predicate SameIds(a: seq<TopoNode>, b: seq<TopoNode>) {
    |a| == |b| && forall i :: 0 <= i < |a| ==> Same(a[i], b[i])
  }

  /** The first i nodes carry their layer and are listed under it. */
  ghost predicate ListedUpTo(nodes: seq<TopoNode>, groups: map<nat, seq<nat>>, layer: map<string, nat>, i: nat) {
    && i <= |nodes|
    && forall k :: 0 <= k < i && nodes[k].kind != CacheNode ==>
         nodes[k].layer == Get(layer, nodes[k].id) && IsListed(groups, nodes[k].layer, k)
  }

  /** Only the first i nodes are listed, each under its layer. */
  ghost predicate MembersUpTo(nodes: seq<TopoNode>, groups: map<nat, seq<nat>>, i: nat) {
    forall l, r :: l in groups && 0 <= r < |groups[l]| ==> groups[l][r] < i && InGroup(nodes, groups[l][r], l)
  }

  ghost predicate InOrder(groups: map<nat, seq<nat>>) {
    forall l :: l in groups ==> Increasing(groups[l]) && groups[l] != []
  }

  /** The first i nodes carry their layer and are grouped by it. */
  ghost predicate GroupedUpTo(nodes: seq<TopoNode>, groups: map<nat, seq<nat>>, layer: map<string, nat>, i: nat) {
    ListedUpTo(nodes, groups, layer, i) && MembersUpTo(nodes, groups, i) && InOrder(groups)
  }

  function GroupOf(groups: map<nat, seq<nat>>, l: nat): seq<nat> { if l in groups then groups[l] else [] }

  lemma GroupOneMore(nodes: seq<TopoNode>, groups: map<nat, seq<nat>>, layer: map<string, nat>, i: nat)
    requires GroupedUpTo(nodes, groups, layer, i) && i < |nodes| && nodes[i].kind != CacheNode
    ensures
      var l := Get(layer, nodes[i].id);
      GroupedUpTo(nodes[i := nodes[i].(layer := l)], groups[l := GroupOf(groups, l) + [i]], layer, i + 1)
  {
    hide ListedUpTo, MembersUpTo, InOrder, GroupOf;
    ListOneMore(nodes, groups, layer, i);
    MemberOneMore(nodes, groups, i, Get(layer, nodes[i].id));
    OrderOneMore(nodes, groups, i, Get(layer, nodes[i].id));
  }

  lemma ListOneMore(nodes: seq<TopoNode>, groups: map<nat, seq<nat>>, layer: map<string, nat>, i: nat)
    requires ListedUpTo(nodes, groups, layer, i) && i < |nodes|
    ensures
      var l := Get(layer, nodes[i].id);
      ListedUpTo(nodes[i := nodes[i].(layer := l)], groups[l := GroupOf(groups, l) + [i]], layer, i + 1)
  {
    var l := Get(layer, nodes[i].id);
    var group := GroupOf(groups, l);
    var nodes', groups' := nodes[i := nodes[i].(layer := l)], groups[l := group + [i]];
    forall k | 0 <= k < i + 1 && nodes'[k].kind != CacheNode
      ensures nodes'[k].layer == Get(layer, nodes'[k].id) && IsListed(groups', nodes'[k].layer, k)
    {
      if k == i {
        assert groups'[l][|group|] == i;
      } else {
        StillListed(groups, l, group, i, nodes[k].layer, k);
      }
    }
  }

  lemma MemberOneMore(nodes: seq<TopoNode>, groups: map<nat, seq<nat>>, i: nat, l: nat)
    requires MembersUpTo(nodes, groups, i) && i < |nodes| && nodes[i].kind != CacheNode
    ensures MembersUpTo(nodes[i := nodes[i].(layer := l)], groups[l := GroupOf(groups, l) + [i]], i + 1)
  {
    var group := GroupOf(groups, l);
    var nodes', groups' := nodes[i := nodes[i].(layer := l)], groups[l := group + [i]];
    forall m, r | m in groups' && 0 <= r < |groups'[m]|
      ensures groups'[m][r] < i + 1 && InGroup(nodes', groups'[m][r], m)
    {
      if m != l || r < |group| {
        assert groups[m][r] < i && InGroup(nodes, groups[m][r], m);
      }
    }
  }

  lemma OrderOneMore(nodes: seq<TopoNode>, groups: map<nat, seq<nat>>, i: nat, l: nat)
    requires MembersUpTo(nodes, groups, i) && InOrder(groups)
    ensures InOrder(groups[l := GroupOf(groups, l) + [i]])
  {
    hide InGroup;
    OneMoreIncreasing(GroupOf(groups, l), i);
  }

  lemma OneMoreIncreasing(s: seq<nat>, i: nat)
    requires Increasing(s) && forall r :: 0 <= r < |s| ==> s[r] < i
    ensures Increasing(s + [i])
  {
  }

  lemma StillListed(groups: map<nat, seq<nat>>, l: nat, group: seq<nat>, i: nat, m: int, k: nat)
    requires IsListed(groups, m, k) && group == if l in groups then groups[l] else []
    ensures IsListed(groups[l := group + [i]], m, k)
  {
  }

  /** The nodes with the first of them layered and grouped, identity and kind unchanged. */
  ghost predicate LayeredUpTo(was: seq<TopoNode>, nodes: seq<TopoNode>, groups: map<nat, seq<nat>>,
                              layer: map<string, nat>, i: nat) {
    SameIds(nodes, was) && GroupedUpTo(nodes, groups, layer, i)
  }

  lemma NothingLayered(nodes: seq<TopoNode>, layer: map<string, nat>)
    ensures LayeredUpTo(nodes, nodes, map[], layer, 0)
  {
  }

  lemma LayerCache(was: seq<TopoNode>, nodes: seq<TopoNode>, groups: map<nat, seq<nat>>, layer: map<string, nat>,
                   i: nat)
    requires LayeredUpTo(was, nodes, groups, layer, i) && i < |nodes| && nodes[i].kind == CacheNode
    ensures LayeredUpTo(was, nodes, groups, layer, i + 1)
  {
  }

  lemma LayerRoute(was: seq<TopoNode>, nodes: seq<TopoNode>, groups: map<nat, seq<nat>>, layer: map<string, nat>,
                   i: nat)
    requires LayeredUpTo(was, nodes, groups, layer, i) && i < |nodes| && nodes[i].kind != CacheNode
    ensures
      var l := Get(layer, nodes[i].id);
      var group := if l in groups then groups[l] else [];
      LayeredUpTo(was, nodes[i := nodes[i].(layer := l)], groups[l := group + [i]], layer, i + 1)
  {
    hide GroupedUpTo;
    assert GroupOf(groups, Get(layer, nodes[i].id)) ==
        if Get(layer, nodes[i].id) in groups then groups[Get(layer, nodes[i].id)] else [];
    GroupOneMore(nodes, groups, layer, i);
  }

  lemma AllLayered(was: seq<TopoNode>, nodes: seq<TopoNode>, groups: map<nat, seq<nat>>, layer: map<string, nat>)
    requires LayeredUpTo(was, nodes, groups, layer, |nodes|)
    ensures SameIds(nodes, was) && Grouped(nodes, groups)
    ensures forall i :: 0 <= i < |nodes| && nodes[i].kind != CacheNode ==> nodes[i].layer == Get(layer, nodes[i].id)
  {
  }

  method AssignLayers(nodes: array<TopoNode>, layer: map<string, nat>) returns (groups: map<nat, seq<nat>>)
    modifies nodes
    ensures SameIds(nodes[..], old(nodes[..])) && Grouped(nodes[..], groups)
    ensures forall i :: 0 <= i < nodes.Length && nodes[i].kind != CacheNode ==>
            nodes[i].layer == Get(layer, nodes[i].id)
  {
    hide LayeredUpTo, SameIds, Grouped;
    groups := map[];
    NothingLayered(nodes[..], layer);
    for i := 0 to nodes.Length
      invariant LayeredUpTo(old(nodes[..]), nodes[..], groups, layer, i)
    {
      ghost var before := nodes[..];
      if nodes[i].kind == CacheNode {
        LayerCache(old(nodes[..]), before, groups, layer, i);
        continue;
      }
      LayerRoute(old(nodes[..]), before, groups, layer, i);
      var l := Get(layer, nodes[i].id);
      var group := if l in groups then groups[l] else [];
      nodes[i] := nodes[i].(layer := l);
      assert nodes[..] == before[i := before[i].(layer := l)];
      groups := groups[l := group + [i]];
    }
    AllLayered(old(nodes[..]), nodes[..], groups, layer);
  }

  method PlaceColumn(nodes: array<TopoNode>, l: nat, group: seq<nat>, ghost groups: map<nat, seq<nat>>)
    requires Grouped(nodes[..], groups) && l in groups && groups[l] == group
    modifies nodes
    ensures SameNodes(nodes[..], old(nodes[..])) && InColumn(nodes[..], l, group)
    ensures forall i :: 0 <= i < nodes.Length && i !in group ==> nodes[i] == old(nodes[i])
  {
    for row := 0 to |group|
      invariant SameNodes(nodes[..], old(nodes[..]))
      invariant forall r :: 0 <= r < row ==>
                nodes[group[r]].x == l * (NODE_W + COL_GAP) && nodes[group[r]].y == r * (NODE_H + ROW_GAP)
      invariant forall i :: 0 <= i < nodes.Length && i !in group[..row] ==> nodes[i] == old(nodes[i])
    {
      var i := group[row];
      assert InGroup(old(nodes[..]), i, l);
      assert forall r :: 0 <= r < row ==> group[r] < i;
      nodes[i] := nodes[i].(x := l * (NODE_W + COL_GAP), y := row * (NODE_H + ROW_GAP));
    }
  }

  lemma GroupedSame(a: seq<TopoNode>, b: seq<TopoNode>, groups: map<nat, seq<nat>>)
    requires Grouped(a, groups) && SameNodes(a, b)
    ensures Grouped(b, groups)
  {
    forall l, r | l in groups && 0 <= r < |groups[l]| ensures InGroup(b, groups[l][r], l) {
      assert InGroup(a, groups[l][r], l);
    }
    forall i | 0 <= i < |b| && b[i].kind != CacheNode ensures IsListed(groups, b[i].layer, i) {
      assert IsListed(groups, a[i].layer, i);
    }
  }

  lemma OtherColumnsKept(a: seq<TopoNode>, b: seq<TopoNode>, groups: map<nat, seq<nat>>, l: nat, k: nat)
    requires Grouped(a, groups) && SameNodes(a, b) && l in groups && k in groups && k != l && InColumn(a, k, groups[k])
    requires forall i :: 0 <= i < |a| && i !in groups[l] ==> b[i] == a[i]
    ensures InColumn(b, k, groups[k])
  {
    forall r | 0 <= r < |groups[k]| ensures groups[k][r] !in groups[l] {
      assert InGroup(a, groups[k][r], k);
    }
  }

  method PlaceRoutes(nodes: array<TopoNode>, groups: map<nat, seq<nat>>) returns (maxLayer: nat, maxRows: nat)
    requires Grouped(nodes[..], groups)
    modifies nodes
    ensures SameNodes(nodes[..], old(nodes[..])) && Grouped(nodes[..], groups)
    ensures forall i :: 0 <= i < nodes.Length && nodes[i].kind == CacheNode ==> nodes[i] == old(nodes[i])
    ensures forall l :: l in groups ==> InColumn(nodes[..], l, groups[l]) && l <= maxLayer && |groups[l]| <= maxRows
    ensures groups != map[] ==> maxLayer in groups && exists l :: l in groups && |groups[l]| == maxRows
  {
    maxLayer, maxRows := 0, 0;
    var rest := groups.Keys;
    while rest != {}
      invariant rest <= groups.Keys && SameNodes(nodes[..], old(nodes[..])) && Grouped(nodes[..], groups)
      invariant forall l :: l in groups && l !in rest ==>
                InColumn(nodes[..], l, groups[l]) && l <= maxLayer && |groups[l]| <= maxRows
      invariant forall i :: 0 <= i < nodes.Length && nodes[i].kind == CacheNode ==> nodes[i] == old(nodes[i])
      invariant if rest == groups.Keys then maxLayer == 0 && maxRows == 0
                else maxLayer in groups && exists l :: l in groups && |groups[l]| == maxRows
      decreases |rest|
    {
      var l :| l in rest;
      maxLayer := Max(maxLayer, l);
      maxRows := Max(maxRows, |groups[l]|);
      ghost var before := nodes[..];
      PlaceColumn(nodes, l, groups[l], groups);
      GroupedSame(before, nodes[..], groups);
      forall k | k in groups && k !in rest && k != l ensures InColumn(nodes[..], k, groups[k]) {
        OtherColumnsKept(before, nodes[..], groups, l, k);
      }
      forall i | 0 <= i < nodes.Length && nodes[i].kind == CacheNode ensures nodes[i] == before[i] {
        CacheNotGrouped(before, groups, l, i);
      }
      rest := rest - {l};
    }
  }

  lemma CacheNotGrouped(nodes: seq<TopoNode>, groups: map<nat, seq<nat>>, l: nat, i: nat)
    requires Grouped(nodes, groups) && l in groups && i < |nodes| && nodes[i].kind == CacheNode
    ensures i !in groups[l]
  {
  }

  /** The caches stand in one row at height `bandY`, in order. */
  ghost predicate InBand(nodes: seq<TopoNode>, cacheAt: seq<nat>, bandY: nat) {
    && Increasing(cacheAt)
    && (forall k :: 0 <= k < |cacheAt| ==> CacheAt(nodes, cacheAt[k], k, bandY))
    && (forall i :: 0 <= i < |nodes| && nodes[i].kind == CacheNode ==> i in cacheAt)
  }

  ghost predicate CacheAt(nodes: seq<TopoNode>, i: nat, k: nat, bandY: nat) {
    i < |nodes| && nodes[i].kind == CacheNode && nodes[i].x == k * (NODE_W + COL_GAP) && nodes[i].y == bandY &&
        nodes[i].layer == -1
  }

  /** The caches among the first nodes stand in the band; every other node is as before. */
  ghost predicate BandUpTo(was: seq<TopoNode>, nodes: seq<TopoNode>, cacheAt: seq<nat>, bandY: nat, i: nat) {
    && i <= |nodes| && SameIds(nodes, was) && Increasing(cacheAt)
    && (forall k :: 0 <= k < |cacheAt| ==> cacheAt[k] < i && CacheAt(nodes, cacheAt[k], k, bandY))
    && (forall k :: 0 <= k < i && nodes[k].kind == CacheNode ==> k in cacheAt)
    && (forall k :: 0 <= k < |nodes| && (nodes[k].kind != CacheNode || i <= k) ==> nodes[k] == was[k])
  }

  lemma BandOneMore(was: seq<TopoNode>, nodes: seq<TopoNode>, cacheAt: seq<nat>, bandY: nat, i: nat)
    requires BandUpTo(was, nodes, cacheAt, bandY, i) && i < |nodes| && nodes[i].kind == CacheNode
    ensures BandUpTo(was, nodes[i := nodes[i].(layer := -1, x := |cacheAt| * (NODE_W + COL_GAP), y := bandY)],
                     cacheAt + [i], bandY, i + 1)
  {
    var nodes' := nodes[i := nodes[i].(layer := -1, x := |cacheAt| * (NODE_W + COL_GAP), y := bandY)];
    var cacheAt' := cacheAt + [i];
    forall k | 0 <= k < |cacheAt'| ensures cacheAt'[k] < i + 1 && CacheAt(nodes', cacheAt'[k], k, bandY) {
      if k < |cacheAt| {
        assert cacheAt'[k] == cacheAt[k] && CacheAt(nodes, cacheAt[k], k, bandY);
      }
    }
    forall k | 0 <= k < i + 1 && nodes'[k].kind == CacheNode ensures k in cacheAt' {
      assert k == i ==> cacheAt'[|cacheAt|] == k;
    }
  }

  lemma BandSkip(was: seq<TopoNode>, nodes: seq<TopoNode>, cacheAt: seq<nat>, bandY: nat, i: nat)
    requires BandUpTo(was, nodes, cacheAt, bandY, i) && i < |nodes| && nodes[i].kind != CacheNode
    ensures BandUpTo(was, nodes, cacheAt, bandY, i + 1)
  {
  }

  lemma NoBand(nodes: seq<TopoNode>, bandY: nat)
    ensures BandUpTo(nodes, nodes, [], bandY, 0)
  {
  }

  lemma WholeBand(was: seq<TopoNode>, nodes: seq<TopoNode>, cacheAt: seq<nat>, bandY: nat)
    requires BandUpTo(was, nodes, cacheAt, bandY, |nodes|)
    ensures SameIds(nodes, was) && InBand(nodes, cacheAt, bandY)
    ensures forall i :: 0 <= i < |nodes| && nodes[i].kind != CacheNode ==> nodes[i] == was[i]
  {
  }

  method PlaceCaches(nodes: array<TopoNode>, bandY: nat) returns (count: nat, ghost cacheAt: seq<nat>)
    modifies nodes
    ensures SameIds(nodes[..], old(nodes[..])) && InBand(nodes[..], cacheAt, bandY) && count == |cacheAt|
    ensures forall i :: 0 <= i < nodes.Length && nodes[i].kind != CacheNode ==> nodes[i] == old(nodes[i])
  {
    hide BandUpTo, SameIds, InBand;
    count, cacheAt := 0, [];
    NoBand(nodes[..], bandY);
    for i := 0 to nodes.Length
      invariant BandUpTo(old(nodes[..]), nodes[..], cacheAt, bandY, i) && count == |cacheAt|
    {
      ghost var before := nodes[..];
      if nodes[i].kind == CacheNode {
        BandOneMore(old(nodes[..]), before, cacheAt, bandY, i);
        nodes[i] := nodes[i].(layer := -1, x := count * (NODE_W + COL_GAP), y := bandY);
        assert nodes[..] == before[i := before[i].(layer := -1, x := count * (NODE_W + COL_GAP), y := bandY)];
        cacheAt := cacheAt + [i];
        count := count + 1;
      } else {
        BandSkip(old(nodes[..]), before, cacheAt, bandY, i);
      }
    }
    WholeBand(old(nodes[..]), nodes[..], cacheAt, bandY);
  }

  // ---------- the whole layout

  ghost predicate Fits(n: TopoNode, width: int, height: int) {
    0 <= n.x && n.x + NODE_W <= width && 0 <= n.y && n.y + NODE_H <= height
  }

  function RouteWidth(maxLayer: nat): nat { (maxLayer + 1) * NODE_W + maxLayer * COL_GAP }

  function RouteHeight(maxRows: nat): nat { maxRows * NODE_H + (if maxRows == 0 then 0 else maxRows - 1) * ROW_GAP }

  /** A layered node stands in a column and row of the grid. */
  ghost predicate OnGrid(n: TopoNode, l: nat, r: nat) {
    n.x == l * (NODE_W + COL_GAP) && n.y == r * (NODE_H + ROW_GAP) && n.layer == l
  }

  lemma GridOf(nodes: seq<TopoNode>, groups: map<nat, seq<nat>>, i: nat) returns (l: nat, r: nat)
    requires Grouped(nodes, groups) && (forall l :: l in groups ==> InColumn(nodes, l, groups[l])) && i < |nodes| &&
             nodes[i].kind != CacheNode
    ensures l in groups && r < |groups[l]| && groups[l][r] == i && OnGrid(nodes[i], l, r)
  {
    assert IsListed(groups, nodes[i].layer, i);
    l := nodes[i].layer;
    r :| 0 <= r < |groups[l]| && groups[l][r] == i;
    assert InColumn(nodes, l, groups[l]);
  }

  lemma GridApart(a: nat, b: nat)
    requires a != b
    ensures a * (NODE_W + COL_GAP) + NODE_W <= b * (NODE_W + COL_GAP) ||
            b * (NODE_W + COL_GAP) + NODE_W <= a * (NODE_W + COL_GAP)
    ensures a * (NODE_H + ROW_GAP) + NODE_H <= b * (NODE_H + ROW_GAP) ||
            b * (NODE_H + ROW_GAP) + NODE_H <= a * (NODE_H + ROW_GAP)
  {
  }

  lemma RoutesApart(nodes: seq<TopoNode>, groups: map<nat, seq<nat>>, i: nat, j: nat)
    requires Grouped(nodes, groups) && (forall l :: l in groups ==> InColumn(nodes, l, groups[l]))
    requires i < |nodes| && j < |nodes| && i != j && nodes[i].kind != CacheNode && nodes[j].kind != CacheNode
    ensures !Overlap(nodes[i], nodes[j])
  {
    var l, r := GridOf(nodes, groups, i);
    var l2, r2 := GridOf(nodes, groups, j);
    if l != l2 {
      GridApart(l, l2);
    } else {
      GridApart(r, r2);
    }
  }

  lemma RouteFits(nodes: seq<TopoNode>, groups: map<nat, seq<nat>>, i: nat, maxLayer: nat, maxRows: nat)
    requires Grouped(nodes, groups) && i < |nodes| && nodes[i].kind != CacheNode
    requires forall l :: l in groups ==> InColumn(nodes, l, groups[l]) && l <= maxLayer && |groups[l]| <= maxRows
    ensures Fits(nodes[i], RouteWidth(maxLayer), RouteHeight(maxRows)) && maxRows > 0
  {
    var l, r := GridOf(nodes, groups, i);
  }

  lemma CachesApart(nodes: seq<TopoNode>, cacheAt: seq<nat>, bandY: nat, i: nat, j: nat)
    requires InBand(nodes, cacheAt, bandY) && i < |nodes| && j < |nodes| && i != j && nodes[i].kind == CacheNode &&
             nodes[j].kind == CacheNode
    ensures !Overlap(nodes[i], nodes[j])
  {
    var k :| 0 <= k < |cacheAt| && cacheAt[k] == i;
    var k2 :| 0 <= k2 < |cacheAt| && cacheAt[k2] == j;
    assert CacheAt(nodes, cacheAt[k], k, bandY) && CacheAt(nodes, cacheAt[k2], k2, bandY);
    GridApart(k, k2);
  }

  // ---------- where each box stands

  /** The boxes above box i in its column: the earlier nodes of its layer. */
  ghost function Above(nodes: seq<TopoNode>, i: nat): set<nat>
    requires i < |nodes|
  {
    set k: nat | k < i && nodes[k].kind != CacheNode && nodes[k].layer == nodes[i].layer
  }

  ghost function CachesBefore(nodes: seq<TopoNode>, i: nat): set<nat>
    requires i <= |nodes|
  {
    set k: nat | k < i && nodes[k].kind == CacheNode
  }

  /** A pipeline or router stands in the column of its layer, below the earlier nodes of the layer; a cache
      stands after the earlier caches. */
  ghost predicate Standing(nodes: seq<TopoNode>, i: nat)
    requires i < |nodes|
  {
    var n := nodes[i];
    if n.kind != CacheNode then
      n.layer >= 0 && n.x == n.layer * (NODE_W + COL_GAP) && n.y == |Above(nodes, i)| * (NODE_H + ROW_GAP)
    else n.layer == -1 && n.x == |CachesBefore(nodes, i)| * (NODE_W + COL_GAP)
  }

  /** Width and height are no larger than needed: some box touches the right edge, and the lowest row stands on
      the bottom; the caches stand there, one gap below the lowest route box. */
  ghost predicate Snug(nodes: seq<TopoNode>, width: int, height: int) {
    && (nodes == [] ==> width == 0 && height == 0)
    && (nodes != [] ==> exists i :: 0 <= i < |nodes| && nodes[i].x + NODE_W == width)
    && (forall i :: 0 <= i < |nodes| && nodes[i].kind == CacheNode ==> nodes[i].y + NODE_H == height)
    && (HasLayered(nodes) && !HasCache(nodes) ==> LowestAt(nodes, height))
    && (HasLayered(nodes) && HasCache(nodes) ==> LowestAt(nodes, height - NODE_H - BAND_GAP))
    && (!HasLayered(nodes) && HasCache(nodes) ==> height == NODE_H)
  }

  ghost predicate HasLayered(nodes: seq<TopoNode>) { exists i :: 0 <= i < |nodes| && nodes[i].kind != CacheNode }

  ghost predicate HasCache(nodes: seq<TopoNode>) { exists i :: 0 <= i < |nodes| && nodes[i].kind == CacheNode }

  /** Some route box ends at `y`. */
  ghost predicate LowestAt(nodes: seq<TopoNode>, y: int) {
    exists i :: 0 <= i < |nodes| && nodes[i].kind != CacheNode && nodes[i].y + NODE_H == y
  }

  lemma {:induction false} IndicesBelow(s: seq<nat>, r: nat)
    requires Increasing(s) && r <= |s|
    ensures |set j | 0 <= j < r :: s[j]| == r
  {
    var below := set j | 0 <= j < r :: s[j];
    if r > 0 {
      IndicesBelow(s, r - 1);
      var before := set j | 0 <= j < r - 1 :: s[j];
      assert s[r - 1] !in before;
      assert below == before + {s[r - 1]};
    }
  }

  lemma RouteStands(nodes: seq<TopoNode>, groups: map<nat, seq<nat>>, i: nat)
    requires Grouped(nodes, groups) && (forall l :: l in groups ==> InColumn(nodes, l, groups[l]))
    requires i < |nodes| && nodes[i].kind != CacheNode
    ensures Standing(nodes, i)
  {
    var l, r := GridOf(nodes, groups, i);
    var g := groups[l];
    IndicesBelow(g, r);
    hide InColumn;
    forall k: nat | k < i && nodes[k].kind != CacheNode && nodes[k].layer == l ensures k in set j | 0 <= j < r :: g[j] {
      assert IsListed(groups, nodes[k].layer, k);
      var j :| 0 <= j < |g| && g[j] == k;
      assert j < r;
    }
    forall j | 0 <= j < r ensures g[j] in Above(nodes, i) {
      assert InGroup(nodes, g[j], l);
    }
    assert Above(nodes, i) == set j | 0 <= j < r :: g[j];
  }

  lemma CacheStands(nodes: seq<TopoNode>, cacheAt: seq<nat>, bandY: nat, i: nat)
    requires InBand(nodes, cacheAt, bandY) && i < |nodes| && nodes[i].kind == CacheNode
    ensures Standing(nodes, i)
  {
    var r: nat :| r < |cacheAt| && cacheAt[r] == i;
    IndicesBelow(cacheAt, r);
    assert CacheAt(nodes, cacheAt[r], r, bandY);
    forall k: nat | k < i && nodes[k].kind == CacheNode ensures k in set j | 0 <= j < r :: cacheAt[j] {
      var j :| 0 <= j < |cacheAt| && cacheAt[j] == k;
      assert j < r;
    }
    forall j | 0 <= j < r ensures cacheAt[j] in CachesBefore(nodes, i) {
      assert CacheAt(nodes, cacheAt[j], j, bandY);
    }
    assert CachesBefore(nodes, i) == set j | 0 <= j < r :: cacheAt[j];
  }

  /** Reading the positions: a lower layer stands to the left, one gap or more apart, one layer in one column, the
      first at the left edge; rows and caches follow the order of the nodes, from the top and the left. */
  lemma PositionsInOrder(nodes: seq<TopoNode>, i: nat, j: nat)
    requires i < |nodes| && j < |nodes| && Standing(nodes, i) && Standing(nodes, j)
    ensures nodes[i].kind != CacheNode && nodes[j].kind != CacheNode && nodes[i].layer < nodes[j].layer ==>
            nodes[i].x + NODE_W + COL_GAP <= nodes[j].x
    ensures nodes[i].kind != CacheNode && nodes[j].kind != CacheNode && nodes[i].layer == nodes[j].layer ==>
            nodes[i].x == nodes[j].x && (i < j ==> nodes[i].y + NODE_H + ROW_GAP <= nodes[j].y)
    ensures nodes[i].kind != CacheNode && nodes[i].layer == 0 ==> nodes[i].x == 0
    ensures nodes[i].kind == CacheNode && nodes[j].kind == CacheNode && i < j ==>
            nodes[i].x + NODE_W + COL_GAP <= nodes[j].x
    ensures nodes[i].kind == CacheNode && (forall k :: 0 <= k < i ==> nodes[k].kind != CacheNode) ==> nodes[i].x == 0
  {
    if i < j && nodes[i].kind != CacheNode && nodes[j].kind != CacheNode && nodes[i].layer == nodes[j].layer {
      CardinalityDrops(Above(nodes, i), Above(nodes, j), i);
    }
    if i < j && nodes[i].kind == CacheNode && nodes[j].kind == CacheNode {
      CardinalityDrops(CachesBefore(nodes, i), CachesBefore(nodes, j), i);
    }
    if nodes[i].kind == CacheNode && forall k :: 0 <= k < i ==> nodes[k].kind != CacheNode {
      assert CachesBefore(nodes, i) == {};
    }
  }

  lemma SameAbove(a: seq<TopoNode>, b: seq<TopoNode>, i: nat)
    requires SameIds(a, b) && i < |a| && Standing(a, i) && a[i].kind != CacheNode
    requires forall k :: 0 <= k < |a| && a[k].kind != CacheNode ==> b[k] == a[k]
    ensures Standing(b, i)
  {
    assert Above(a, i) == Above(b, i);
  }

  function BandWidth(count: nat): nat { if count == 0 then 0 else count * NODE_W + (count - 1) * COL_GAP }

  lemma CacheFits(nodes: seq<TopoNode>, cacheAt: seq<nat>, bandY: nat, i: nat)
    requires InBand(nodes, cacheAt, bandY) && i < |nodes| && nodes[i].kind == CacheNode
    ensures Fits(nodes[i], BandWidth(|cacheAt|), bandY + NODE_H) && nodes[i].y == bandY && |cacheAt| > 0
  {
    var k :| 0 <= k < |cacheAt| && cacheAt[k] == i;
    assert CacheAt(nodes, cacheAt[k], k, bandY);
  }

  method RouteIdsOf(nodes: array<TopoNode>) returns (ids: seq<string>)
    ensures ids == RouteIds(nodes[..])
  {
    ids := [];
    for i := 0 to nodes.Length
      invariant ids == RouteIds(nodes[..i])
    {
      assert nodes[..i + 1][..i] == nodes[..i];
      if nodes[i].kind != CacheNode {
        ids := ids + [nodes[i].id];
      }
    }
    assert nodes[..nodes.Length] == nodes[..];
  }

  method LayeredEdgesOf(edges: seq<TopoEdge>) returns (es: seq<Edge>)
    ensures es == LayeredEdges(edges)
  {
    es := [];
    for i := 0 to |edges|
      invariant es == LayeredEdges(edges[..i])
    {
      assert edges[..i + 1][..i] == edges[..i];
      if edges[i].kind == RouteEdge {
        es := es + [(edges[i].source, edges[i].target)];
      }
    }
    assert edges[..|edges|] == edges;
  }

  /** Every topology, cyclic or not, is laid out so that every box stands where its layer and its order put it,
      no two boxes overlap, every box lies within width and height, which are no larger than needed, and
      every cache box lies below every route box; the layers are those of the worklist. */
  method ComputeLayout(nodes: array<TopoNode>, edges: seq<TopoEdge>)
    returns (width: nat, height: nat, ghost layer: map<string, nat>)
    requires DistinctIds(nodes[..])
    modifies nodes
    ensures SameIds(nodes[..], old(nodes[..]))
    ensures WorklistLayers(RouteIds(old(nodes[..])), LayeredEdges(edges), layer)
    ensures forall i :: 0 <= i < nodes.Length && nodes[i].kind != CacheNode ==>
            nodes[i].layer == Get(layer, nodes[i].id)
    ensures forall i :: 0 <= i < nodes.Length ==> Standing(nodes[..], i)
    ensures forall i, j :: 0 <= i < j < nodes.Length ==> !Overlap(nodes[i], nodes[j])
    ensures (forall i :: 0 <= i < nodes.Length ==> Fits(nodes[i], width, height)) && Snug(nodes[..], width, height)
    ensures forall i, j ::
              0 <= i < nodes.Length && 0 <= j < nodes.Length && nodes[i].kind != CacheNode &&
                  nodes[j].kind == CacheNode ==>
                nodes[i].y + NODE_H + BAND_GAP <= nodes[j].y
  {
    hide WorklistLayers, Overlap, Fits, DistinctIds, Grouped, InColumn, InBand, Standing, Snug, RouteIds;
    RouteIdsShape(nodes[..]);
    var ids := RouteIdsOf(nodes);
    var es := LayeredEdgesOf(edges);
    var lay;
    ghost var taken;
    lay, taken := ComputeLayers(ids, es);
    layer := lay;
    var groups := AssignLayers(nodes, lay);
    var maxLayer, maxRows := PlaceRoutes(nodes, groups);
    ghost var placed := nodes[..];
    var routeWidth := if |ids| > 0 then RouteWidth(maxLayer) else 0;
    var routeHeight := if |ids| > 0 then RouteHeight(maxRows) else 0;
    var bandY := if routeHeight > 0 then routeHeight + BAND_GAP else 0;
    var count;
    ghost var cacheAt;
    count, cacheAt := PlaceCaches(nodes, bandY);
    width := Max(routeWidth, BandWidth(count));
    height := if count > 0 then bandY + NODE_H else routeHeight;
    ghost var plan := Sizes(groups, maxLayer, maxRows, cacheAt, routeWidth, routeHeight, bandY, width, height);
    assert Follows(old(nodes[..]), placed, nodes[..], plan);
    AllPlaced(old(nodes[..]), placed, nodes[..], plan);
    AllStanding(old(nodes[..]), placed, nodes[..], plan);
    AllSnug(old(nodes[..]), placed, nodes[..], plan);
  }

  /** The numbers a layout is computed from. */
  datatype Sizes = Sizes(groups: map<nat, seq<nat>>, maxLayer: nat, maxRows: nat, cacheAt: seq<nat>,
                       routeWidth: nat, routeHeight: nat, bandY: nat, width: nat, height: nat)

  /** The routes are placed as in `placed`, the caches then in the band, and the sizes are the plan's. */
  ghost predicate Follows(before: seq<TopoNode>, placed: seq<TopoNode>, nodes: seq<TopoNode>, p: Sizes) {
    && DistinctIds(before) && SameIds(placed, before) && SameIds(nodes, placed) && Grouped(placed, p.groups)
    && InBand(nodes, p.cacheAt, p.bandY)
    && (forall l :: l in p.groups ==>
          InColumn(placed, l, p.groups[l]) && l <= p.maxLayer && |p.groups[l]| <= p.maxRows)
    && (p.groups != map[] ==> p.maxLayer in p.groups && exists l :: l in p.groups && |p.groups[l]| == p.maxRows)
    && (forall i :: 0 <= i < |nodes| && nodes[i].kind != CacheNode ==> nodes[i] == placed[i])
    && p.routeWidth == (if |RouteIds(before)| > 0 then RouteWidth(p.maxLayer) else 0)
    && p.routeHeight == (if |RouteIds(before)| > 0 then RouteHeight(p.maxRows) else 0)
    && p.bandY == (if p.routeHeight > 0 then p.routeHeight + BAND_GAP else 0)
    && p.width == Max(p.routeWidth, BandWidth(|p.cacheAt|))
    && p.height == if |p.cacheAt| > 0 then p.bandY + NODE_H else p.routeHeight
  }

  /** Layered nodes, layered ids and groups exist together. */
  lemma RoutesExist(before: seq<TopoNode>, placed: seq<TopoNode>, nodes: seq<TopoNode>, p: Sizes)
    requires Follows(before, placed, nodes, p)
    ensures |RouteIds(before)| > 0 <==> HasLayered(nodes)
    ensures p.groups != map[] <==> HasLayered(nodes)
  {
    hide InColumn, InBand, DistinctIds, RouteIds, Increasing;
    RouteIdsShape(before);
    if |RouteIds(before)| > 0 {
      assert RouteIds(before)[0] in RouteIds(before);
      var i :| 0 <= i < |before| && before[i].id == RouteIds(before)[0] && before[i].kind != CacheNode;
      assert nodes[i].kind != CacheNode;
    }
    if HasLayered(nodes) {
      var i :| 0 <= i < |nodes| && nodes[i].kind != CacheNode;
      assert before[i].id in RouteIds(before);
      assert IsListed(p.groups, placed[i].layer, i);
    }
    if p.groups != map[] {
      var l :| l in p.groups;
      assert InGroup(placed, p.groups[l][0], l);
    }
  }

  lemma AllPlaced(before: seq<TopoNode>, placed: seq<TopoNode>, nodes: seq<TopoNode>, p: Sizes)
    requires Follows(before, placed, nodes, p)
    ensures forall i, j :: 0 <= i < j < |nodes| ==> !Overlap(nodes[i], nodes[j])
    ensures forall i :: 0 <= i < |nodes| ==> Fits(nodes[i], p.width, p.height)
    ensures forall i, j ::
              0 <= i < |nodes| && 0 <= j < |nodes| && nodes[i].kind != CacheNode && nodes[j].kind == CacheNode ==>
                nodes[i].y + NODE_H + BAND_GAP <= nodes[j].y
  {
    hide Grouped, InColumn, InBand, DistinctIds;
    RoutesExist(before, placed, nodes, p);
    forall i | 0 <= i < |nodes| && nodes[i].kind != CacheNode
      ensures Fits(nodes[i], p.routeWidth, p.routeHeight) && p.routeHeight > 0
    {
      RouteFits(placed, p.groups, i, p.maxLayer, p.maxRows);
    }
    forall i | 0 <= i < |nodes| && nodes[i].kind == CacheNode
      ensures Fits(nodes[i], BandWidth(|p.cacheAt|), p.bandY + NODE_H) && nodes[i].y == p.bandY && |p.cacheAt| > 0
    {
      CacheFits(nodes, p.cacheAt, p.bandY, i);
    }
    forall i, j | 0 <= i < j < |nodes| ensures !Overlap(nodes[i], nodes[j]) {
      if nodes[i].kind != CacheNode && nodes[j].kind != CacheNode {
        RoutesApart(placed, p.groups, i, j);
      } else if nodes[i].kind == CacheNode && nodes[j].kind == CacheNode {
        CachesApart(nodes, p.cacheAt, p.bandY, i, j);
      }
    }
  }

  lemma AllStanding(before: seq<TopoNode>, placed: seq<TopoNode>, nodes: seq<TopoNode>, p: Sizes)
    requires Follows(before, placed, nodes, p)
    ensures forall i :: 0 <= i < |nodes| ==> Standing(nodes, i)
  {
    hide Grouped, InColumn, InBand, DistinctIds, Standing;
    forall i | 0 <= i < |nodes| ensures Standing(nodes, i) {
      if nodes[i].kind == CacheNode {
        CacheStands(nodes, p.cacheAt, p.bandY, i);
      } else {
        RouteStands(placed, p.groups, i);
        SameAbove(placed, nodes, i);
      }
    }
  }

  lemma AllSnug(before: seq<TopoNode>, placed: seq<TopoNode>, nodes: seq<TopoNode>, p: Sizes)
    requires Follows(before, placed, nodes, p)
    ensures Snug(nodes, p.width, p.height)
  {
    hide Grouped, InColumn, InBand, DistinctIds, RouteIds;
    RoutesExist(before, placed, nodes, p);
    CachesExist(nodes, p.cacheAt, p.bandY);
    forall i | 0 <= i < |nodes| && nodes[i].kind == CacheNode ensures nodes[i].y + NODE_H == p.height {
      CacheFits(nodes, p.cacheAt, p.bandY, i);
    }
    if HasLayered(nodes) {
      var l :| l in p.groups && |p.groups[l]| == p.maxRows;
      var low := LastInColumn(placed, p.groups, l);
      assert nodes[low] == placed[low] && nodes[low].y + NODE_H == p.routeHeight;
      assert LowestAt(nodes, p.routeHeight);
      var right := LastInColumn(placed, p.groups, p.maxLayer);
      assert nodes[right] == placed[right] && nodes[right].x + NODE_W == p.routeWidth;
    }
    if HasCache(nodes) {
      var last := LastCache(nodes, p.cacheAt, p.bandY);
      assert nodes[last].x + NODE_W == BandWidth(|p.cacheAt|);
    }
    SomeKind(nodes);
  }

  lemma SomeKind(nodes: seq<TopoNode>)
    ensures nodes != [] <==> HasLayered(nodes) || HasCache(nodes)
  {
    if nodes != [] {
      assert nodes[0].kind == CacheNode || nodes[0].kind != CacheNode;
    }
  }

  lemma LastInColumn(nodes: seq<TopoNode>, groups: map<nat, seq<nat>>, l: nat) returns (i: nat)
    requires Grouped(nodes, groups) && l in groups && InColumn(nodes, l, groups[l])
    ensures i < |nodes| && nodes[i].kind != CacheNode && nodes[i].x + NODE_W == RouteWidth(l)
    ensures nodes[i].y + NODE_H == RouteHeight(|groups[l]|) && RouteHeight(|groups[l]|) > 0
  {
    var r := |groups[l]| - 1;
    i := groups[l][r];
    assert InGroup(nodes, i, l);
    assert nodes[groups[l][r]].x == l * (NODE_W + COL_GAP);
  }

  lemma CachesExist(nodes: seq<TopoNode>, cacheAt: seq<nat>, bandY: nat)
    requires InBand(nodes, cacheAt, bandY)
    ensures cacheAt != [] <==> HasCache(nodes)
  {
    if cacheAt != [] {
      assert CacheAt(nodes, cacheAt[0], 0, bandY);
    }
    if HasCache(nodes) {
      var k :| 0 <= k < |nodes| && nodes[k].kind == CacheNode;
      assert k in cacheAt;
    }
  }

  lemma LastCache(nodes: seq<TopoNode>, cacheAt: seq<nat>, bandY: nat) returns (i: nat)
    requires InBand(nodes, cacheAt, bandY) && cacheAt != []
    ensures i < |nodes| && nodes[i].kind == CacheNode && nodes[i].x + NODE_W == BandWidth(|cacheAt|)
  {
    var r := |cacheAt| - 1;
    i := cacheAt[r];
    assert CacheAt(nodes, cacheAt[r], r, bandY);
  }

  // ---------- accepted projects

  /** The topology built for a project (as BuildTopology promises it). */
  ghost predicate BuiltFor(routes: seq<Route>, nodes: seq<TopoNode>, edges: seq<TopoEdge>) {
    WellBuilt(nodes) && EndsPresent(nodes, edges) && LayeredEdges(edges) == ExpandedEdges(routes)
  }

  lemma PresentIsLayered(nodes: seq<TopoNode>, id: string)
    requires WellBuilt(nodes) && HasId(nodes, id) && !("cache:" <= id)
    ensures id in RouteIds(nodes)
  {
    RouteIdsShape(nodes);
    var i :| 0 <= i < |nodes| && nodes[i].id == id;
    assert nodes[i].kind != CacheNode;
  }

  lemma {:induction false} LayeredEdgeSource(edges: seq<TopoEdge>, j: nat)
    requires j < |LayeredEdges(edges)|
    ensures exists i ::
              0 <= i < |edges| && edges[i].kind == RouteEdge &&
                  LayeredEdges(edges)[j] == (edges[i].source, edges[i].target)
  {
    var n := |edges| - 1;
    if j < |LayeredEdges(edges[..n])| {
      LayeredEdgeSource(edges[..n], j);
      var i :| 0 <= i < n && edges[..n][i].kind == RouteEdge &&
          LayeredEdges(edges[..n])[j] == (edges[..n][i].source, edges[..n][i].target);
      assert edges[i] == edges[..n][i];
    }
  }

  lemma ClosedForAccepted(project: Project, pipelines: map<string, PipelineView>, parses: string -> bool,
                          nodes: seq<TopoNode>, edges: seq<TopoEdge>)
    requires Accepted(project, pipelines, parses) && PlainNames(project.routes) &&
             BuiltFor(project.routes, nodes, edges)
    ensures Closed(RouteIds(nodes), LayeredEdges(edges))
  {
    hide HasCycle, RouteGraph, RouteIds, LayeredEdges, RouteEdges;
    var es := LayeredEdges(edges);
    forall j | 0 <= j < |es| ensures es[j].0 in RouteIds(nodes) && es[j].1 in RouteIds(nodes) {
      LayeredEdgeSource(edges, j);
      var i :| 0 <= i < |edges| && edges[i].kind == RouteEdge && es[j] == (edges[i].source, edges[i].target);
      ExpandedShape(project.routes, j);
      var m :| 0 <= m < |project.routes| && FromRoute(project.routes[m], es[j]);
      RouteEndsNamed(project, pipelines, parses, m, es[j]);
      PresentIsLayered(nodes, es[j].0);
      PresentIsLayered(nodes, es[j].1);
    }
  }

  lemma RouteEndsNamed(project: Project, pipelines: map<string, PipelineView>, parses: string -> bool, m: nat, e: Edge)
    requires Accepted(project, pipelines, parses) && PlainNames(project.routes) && m < |project.routes| &&
             FromRoute(project.routes[m], e)
    ensures e.0 != "" && e.1 != "" && !("cache:" <= e.0) && !("cache:" <= e.1)
  {
    hide HasCycle, RouteGraph;
    var r := project.routes[m];
    PlainIsNoPrefix(r.source);
    assert RouterId(r.name)[0] == 'r' && "cache:"[0] == 'c';
    if e != (r.source, RouterId(r.name)) {
      var k :| 0 <= k < |r.targets| && e == (RouterId(r.name), r.targets[k].pipeline);
      PlainIsNoPrefix(r.targets[k].pipeline);
    }
  }

  /** Names of live pipelines contain no colon. */
  ghost predicate PlainMembers(pipelines: map<string, PipelineView>) { forall p :: p in pipelines ==> PlainName(p) }

  lemma RoutesArePlain(project: Project, pipelines: map<string, PipelineView>, parses: string -> bool)
    requires Accepted(project, pipelines, parses) && PlainMembers(pipelines)
    ensures PlainNames(project.routes)
  {
    hide HasCycle, RouteGraph, PlainName;
  }

  lemma {:induction false} RouteEdgeLayered(edges: seq<TopoEdge>, k: nat)
    requires k < |edges| && edges[k].kind == RouteEdge
    ensures exists j :: 0 <= j < |LayeredEdges(edges)| && LayeredEdges(edges)[j] == (edges[k].source, edges[k].target)
  {
    var n := |edges| - 1;
    var before := LayeredEdges(edges[..n]);
    if k < n {
      RouteEdgeLayered(edges[..n], k);
      var j :| 0 <= j < |before| && before[j] == (edges[..n][k].source, edges[..n][k].target);
      assert LayeredEdges(edges)[j] == before[j];
    } else {
      assert LayeredEdges(edges)[|before|] == (edges[k].source, edges[k].target);
    }
  }

  /** Boxes i and j are the ends of an edge, in rising layers, the target wholly to the right of the source. */
  ghost predicate Forward(nodes: seq<TopoNode>, e: TopoEdge, i: int, j: int) {
    && 0 <= i < |nodes| && 0 <= j < |nodes| && nodes[i].id == e.source && nodes[j].id == e.target
    && nodes[i].kind != CacheNode && nodes[j].kind != CacheNode && 0 <= nodes[i].layer < nodes[j].layer
    && nodes[i].x + NODE_W < nodes[j].x
  }

  ghost predicate LeftToRight(nodes: seq<TopoNode>, edges: seq<TopoEdge>) {
    forall k :: 0 <= k < |edges| && edges[k].kind == RouteEdge ==> exists i, j :: Forward(nodes, edges[k], i, j)
  }

  /** The layer of every pipeline and router is the length of the longest route path into it. */
  ghost predicate LongestLayers(nodes: seq<TopoNode>, edges: seq<TopoEdge>) {
    forall i :: 0 <= i < |nodes| && nodes[i].kind != CacheNode ==>
      nodes[i].layer >= 0 && LongestInto(EdgeSet(LayeredEdges(edges)), nodes[i].id, nodes[i].layer)
  }

  /** For every accepted project the drawing reads left to right: each route edge goes to a strictly
      higher layer, further right, and a node's layer is the length of the longest route path into it. */
  lemma AcceptedProjectsReadLeftToRight(project: Project, pipelines: map<string, PipelineView>, parses: string -> bool,
                                        built: seq<TopoNode>, nodes: seq<TopoNode>, edges: seq<TopoEdge>,
                                        layer: map<string, nat>)
    requires Accepted(project, pipelines, parses) && PlainMembers(pipelines) && BuiltFor(project.routes, built, edges)
    requires WorklistLayers(RouteIds(built), LayeredEdges(edges), layer) && SameIds(nodes, built)
    requires forall i :: 0 <= i < |nodes| && nodes[i].kind != CacheNode ==> nodes[i].layer == Get(layer, nodes[i].id)
    requires forall i :: 0 <= i < |nodes| ==> Standing(nodes, i)
    ensures LeftToRight(nodes, edges) && LongestLayers(nodes, edges)
  {
    hide HasCycle, RouteGraph, RouteIds, LayeredEdges, RouteEdges, WorklistLayers, LongestInto, EdgeSet, PlainNames,
         Accepted, PlainMembers, Standing;
    RoutesArePlain(project, pipelines, parses);
    ClosedForAccepted(project, pipelines, parses, built, edges);
    assert UniqueNames(project.routes) && !HasCycle(RouteGraph(project.routes)) by {
      AcceptedBasics(project, pipelines, parses);
    }
    ExpandedAcyclic(project.routes);
    LayersAreLongestPaths(RouteIds(built), LayeredEdges(edges), layer);
    RouteIdsShape(built);
    forall k | 0 <= k < |edges| && edges[k].kind == RouteEdge ensures exists i, j :: Forward(nodes, edges[k], i, j) {
      RouteEdgeLayered(edges, k);
      var m :| 0 <= m < |LayeredEdges(edges)| && LayeredEdges(edges)[m] == (edges[k].source, edges[k].target);
      var i :| 0 <= i < |built| && built[i].id == edges[k].source && built[i].kind != CacheNode;
      var j :| 0 <= j < |built| && built[j].id == edges[k].target && built[j].kind != CacheNode;
      PositionsInOrder(nodes, i, j);
      assert Forward(nodes, edges[k], i, j);
    }
    forall i | 0 <= i < |nodes| && nodes[i].kind != CacheNode
      ensures nodes[i].layer >= 0 && LongestInto(EdgeSet(LayeredEdges(edges)), nodes[i].id, nodes[i].layer)
    {
      assert built[i].id in RouteIds(built);
    }
  }

  lemma AcceptedBasics(project: Project, pipelines: map<string, PipelineView>, parses: string -> bool)
    requires Accepted(project, pipelines, parses)
    ensures UniqueNames(project.routes) && !HasCycle(RouteGraph(project.routes))
  {
    hide HasCycle, RouteGraph;
  }

  lemma SameDrawn(a: TopoNode, b: TopoNode, routes: seq<Route>, caches: seq<CacheResource>)
    requires DrawnRight(a, routes, caches) && Same(b, a)
    ensures DrawnRight(b, routes, caches)
  {
  }

  lemma SameHasId(a: seq<TopoNode>, b: seq<TopoNode>, id: string)
    requires SameIds(a, b)
    ensures HasId(a, id) <==> HasId(b, id)
  {
    if HasId(a, id) {
      var i :| 0 <= i < |a| && a[i].id == id;
      assert b[i].id == id;
    }
    if HasId(b, id) {
      var i :| 0 <= i < |b| && b[i].id == id;
      assert a[i].id == id;
    }
  }

  /** The project page: the topology is built and laid out. No boxes overlap, all fit, caches lie below
      routes, and a project the operator accepts reads left to right with longest-path layers. */
  method DrawProject(project: Project, members: seq<string>, uses: seq<CacheUse>, links: seq<CacheLink>,
                     ghost pipelines: map<string, PipelineView>, ghost parses: string -> bool)
    returns (nodes: array<TopoNode>, edges: seq<TopoEdge>, width: nat, height: nat)
    ensures fresh(nodes)
    ensures Accepted(project, pipelines, parses) && PlainMembers(pipelines) ==>
            LeftToRight(nodes[..], edges) && LongestLayers(nodes[..], edges)
    ensures forall i, j :: 0 <= i < j < nodes.Length ==> !Overlap(nodes[i], nodes[j])
    ensures forall i :: 0 <= i < nodes.Length ==> Standing(nodes[..], i)
    ensures (forall i :: 0 <= i < nodes.Length ==> Fits(nodes[i], width, height)) && Snug(nodes[..], width, height)
    ensures forall id :: HasId(nodes[..], id) <==> Mentioned(project.routes, members, project.caches, uses, links, id)
    ensures forall i :: 0 <= i < nodes.Length ==> DrawnRight(nodes[i], project.routes, project.caches)
    ensures EdgesOf(edges, project.routes, uses, links)
    ensures forall i, j ::
              0 <= i < nodes.Length && 0 <= j < nodes.Length && nodes[i].kind != CacheNode &&
                  nodes[j].kind == CacheNode ==>
                nodes[i].y + NODE_H + BAND_GAP <= nodes[j].y
  {
    hide WorklistLayers, Overlap, Fits, EndsPresent, LayeredEdges, RouteEdges, Accepted, LeftToRight, LongestLayers,
         RouteIds, PlainMembers, Standing, Snug, Mentioned, EdgesOf, HasId, DrawnRight, Same;
    var built;
    built, edges := BuildTopology(project.routes, members, project.caches, uses, links);
    nodes := new TopoNode[|built|](i requires 0 <= i < |built| => built[i]);
    assert nodes[..] == built;
    ghost var layer;
    width, height, layer := ComputeLayout(nodes, edges);
    forall id ensures HasId(nodes[..], id) <==> HasId(built, id) {
      SameHasId(nodes[..], built, id);
    }
    forall i | 0 <= i < nodes.Length ensures DrawnRight(nodes[i], project.routes, project.caches) {
      assert built[i] in built;
      SameDrawn(built[i], nodes[i], project.routes, project.caches);
    }
    if Accepted(project, pipelines, parses) && PlainMembers(pipelines) {
      AcceptedProjectsReadLeftToRight(project, pipelines, parses, built, nodes[..], edges, layer);
    }
  }
}
