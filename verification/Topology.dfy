/** The project topology view: the node and edge graph built from a project, its layers, and the
    coordinates of the node boxes. */
module Topology {
  import opened Graphs
  import opened CycleSearch
  import opened ProjectRoutes
  import opened Layering

  datatype NodeKind = PipelineNode | RouterNode | CacheNode

  datatype TopoNode = TopoNode(id: string, kind: NodeKind, title: string, undeclared: bool, layer: int, x: int, y: int)

  datatype EdgeKind = RouteEdge | CacheEdge | CacheLinkEdge

  datatype TopoEdge = TopoEdge(source: string, target: string, kind: EdgeKind)

  datatype CacheUse = CacheUse(pipeline: string, cache: string)

  datatype CacheLink = CacheLink(composer: string, layer: string)

  function RouterId(route: string): string { "route:" + route }

  function CacheId(name: string): string { "cache:" + name }

  // ---------- building the graph

  predicate HasId(nodes: seq<TopoNode>, id: string) { exists i :: 0 <= i < |nodes| && nodes[i].id == id }

  ghost predicate DistinctIds(nodes: seq<TopoNode>) {
    forall i, j :: 0 <= i < j < |nodes| ==> nodes[i].id != nodes[j].id
  }

  /** Distinct ids, and only ids of caches on cache nodes. */
  ghost predicate WellBuilt(nodes: seq<TopoNode>) {
    DistinctIds(nodes) && forall i :: 0 <= i < |nodes| && nodes[i].kind == CacheNode ==> "cache:" <= nodes[i].id
  }

  /** Adds a node unless its id is taken. */
  function EnsureNode(nodes: seq<TopoNode>, n: TopoNode): (r: seq<TopoNode>)
    ensures forall id :: HasId(r, id) <==> HasId(nodes, id) || id == n.id
    ensures WellBuilt(nodes) && (n.kind == CacheNode ==> "cache:" <= n.id) ==> WellBuilt(r)
    ensures forall x :: x in r ==> x in nodes || (x == n && !HasId(nodes, n.id))
  {
    if HasId(nodes, n.id) then nodes
    else
      var r := nodes + [n];
      assert r[|nodes|] == n && forall i :: 0 <= i < |nodes| ==> r[i] == nodes[i];
      r
  }

  /** Sets a node under its id, keeping the place of an earlier one (insertion-ordered map). */
  method SetNode(nodes: seq<TopoNode>, n: TopoNode) returns (r: seq<TopoNode>)
    requires WellBuilt(nodes) && (n.kind == CacheNode ==> "cache:" <= n.id)
    ensures forall id :: HasId(r, id) <==> HasId(nodes, id) || id == n.id
    ensures WellBuilt(r) && forall x :: x in r ==> x == n || (x in nodes && x.id != n.id)
  {
    for i := 0 to |nodes|
      invariant forall k :: 0 <= k < i ==> nodes[k].id != n.id
    {
      if nodes[i].id == n.id {
        r := nodes[i := n];
        forall id ensures HasId(r, id) <==> HasId(nodes, id) {
          if HasId(nodes, id) {
            var k :| 0 <= k < |nodes| && nodes[k].id == id;
            assert r[k].id == id;
          }
          if HasId(r, id) {
            var k :| 0 <= k < |r| && r[k].id == id;
            assert nodes[k].id == id;
          }
        }
        return;
      }
    }
    r := EnsureNode(nodes, n);
  }

  function PipelineNodeOf(name: string): TopoNode { TopoNode(name, PipelineNode, name, false, 0, 0, 0) }

  function EnsurePipeline(nodes: seq<TopoNode>, name: string): seq<TopoNode> {
    if name == "" then nodes else EnsureNode(nodes, PipelineNodeOf(name))
  }

  function TargetEdges(route: string, targets: seq<Target>): seq<TopoEdge> {
    if targets == [] then []
    else
      var t := targets[|targets| - 1];
      TargetEdges(route, targets[..|targets| - 1]) + [TopoEdge(RouterId(route), t.pipeline, RouteEdge)]
  }

  /** The route edges, in declaration order: producer to router, then router to each target. */
  function RouteEdges(routes: seq<Route>): seq<TopoEdge> {
    if routes == [] then []
    else
      var r := routes[|routes| - 1];
      RouteEdges(routes[..|routes| - 1]) + [TopoEdge(r.source, RouterId(r.name), RouteEdge)] +
          TargetEdges(r.name, r.targets)
  }

  ghost predicate Present(nodes: seq<TopoNode>, id: string) { id == "" || HasId(nodes, id) }

  /** The ends of route edges are present (an empty name gets no node). */
  ghost predicate EndsPresent(nodes: seq<TopoNode>, edges: seq<TopoEdge>) {
    forall i :: 0 <= i < |edges| && edges[i].kind == RouteEdge ==>
        Present(nodes, edges[i].source) && Present(nodes, edges[i].target)
  }

  // ---------- what is drawn for each id

  /** The ids a route brings along. */
  predicate RouteNames(r: Route, id: string) {
    id == RouterId(r.name) || (id != "" && (id == r.source || IsTarget(r.targets, id)))
  }

  predicate IsRouter(routes: seq<Route>, id: string) {
    exists k :: 0 <= k < |routes| && id == RouterId(routes[k].name)
  }

  predicate IsDeclared(caches: seq<CacheResource>, id: string) {
    exists k :: 0 <= k < |caches| && id == CacheId(caches[k].name)
  }

  /** A router stands for a route and a pipeline for itself, unless its name looks like the id of a route or
      of a declared cache; a cache is marked undeclared exactly when the project does not declare it. */
  predicate DrawnRight(x: TopoNode, routes: seq<Route>, caches: seq<CacheResource>) {
    match x.kind
    case RouterNode => x.id == RouterId(x.title) && IsRouter(routes, x.id) && !x.undeclared
    case PipelineNode => x.id == x.title && x.id != "" && !IsRouter(routes, x.id) && !IsDeclared(caches, x.id) &&
        !x.undeclared
    case CacheNode => x.id == CacheId(x.title) && (x.undeclared <==> !IsDeclared(caches, x.id))
  }

  ghost predicate Right(nodes: seq<TopoNode>, routes: seq<Route>, caches: seq<CacheResource>) {
    && WellBuilt(nodes) && (forall x :: x in nodes ==> DrawnRight(x, routes, caches))
    && (forall id :: IsRouter(routes, id) || IsDeclared(caches, id) ==> HasId(nodes, id))
  }

  ghost predicate NoPhantom(nodes: seq<TopoNode>) { forall x :: x in nodes ==> !x.undeclared }

  lemma RouterSplit(routes: seq<Route>, r: Route, id: string)
    ensures IsRouter(routes + [r], id) <==> IsRouter(routes, id) || id == RouterId(r.name)
  {
    if IsRouter(routes, id) {
      var k :| 0 <= k < |routes| && id == RouterId(routes[k].name);
      assert (routes + [r])[k] == routes[k];
    }
    assert (routes + [r])[|routes|] == r;
  }

  lemma DeclaredSplit(caches: seq<CacheResource>, c: CacheResource, id: string)
    ensures IsDeclared(caches + [c], id) <==> IsDeclared(caches, id) || id == CacheId(c.name)
  {
    if IsDeclared(caches, id) {
      var k :| 0 <= k < |caches| && id == CacheId(caches[k].name);
      assert (caches + [c])[k] == caches[k];
    }
    assert (caches + [c])[|caches|] == c;
  }

  /** Setting a router under its id. */
  lemma RouterSet(nodes: seq<TopoNode>, after: seq<TopoNode>, routes: seq<Route>, r: Route)
    requires Right(nodes, routes, []) && NoPhantom(nodes) && WellBuilt(after)
    requires forall id :: HasId(after, id) <==> HasId(nodes, id) || id == RouterId(r.name)
    requires forall x :: x in after ==> x == RouterNodeOf(r.name) || (x in nodes && x.id != RouterId(r.name))
    ensures Right(after, routes + [r], []) && NoPhantom(after)
  {
    hide WellBuilt, HasId, RouterId, CacheId, IsRouter;
    forall id ensures IsRouter(routes + [r], id) <==> IsRouter(routes, id) || id == RouterId(r.name) {
      RouterSplit(routes, r, id);
    }
  }

  /** Setting a declared cache under its id. */
  lemma CacheSet(nodes: seq<TopoNode>, after: seq<TopoNode>, routes: seq<Route>, caches: seq<CacheResource>,
                 c: CacheResource)
    requires Right(nodes, routes, caches) && NoPhantom(nodes) && WellBuilt(after)
    requires forall id :: HasId(after, id) <==> HasId(nodes, id) || id == CacheId(c.name)
    requires forall x :: x in after ==> x == CacheNodeOf(c.name, false) || (x in nodes && x.id != CacheId(c.name))
    ensures Right(after, routes, caches + [c]) && NoPhantom(after)
  {
    hide WellBuilt, HasId, RouterId, CacheId, IsRouter, IsDeclared;
    forall id ensures IsDeclared(caches + [c], id) <==> IsDeclared(caches, id) || id == CacheId(c.name) {
      DeclaredSplit(caches, c, id);
    }
  }

  /** A pipeline, or a cache nobody declares, is added only where nothing stands yet. */
  lemma Ensured(nodes: seq<TopoNode>, n: TopoNode, routes: seq<Route>, caches: seq<CacheResource>)
    requires Right(nodes, routes, caches)
    requires (n.id != "" && n == PipelineNodeOf(n.id)) || n == CacheNodeOf(n.title, true)
    ensures Right(EnsureNode(nodes, n), routes, caches)
    ensures n.kind == PipelineNode && NoPhantom(nodes) ==> NoPhantom(EnsureNode(nodes, n))
  {
    assert n.kind == CacheNode ==> "cache:" <= n.id;
    hide WellBuilt, HasId, RouterId, CacheId, IsRouter, IsDeclared, EnsureNode;
  }

  lemma PipelineEnsured(nodes: seq<TopoNode>, name: string, routes: seq<Route>, caches: seq<CacheResource>)
    requires Right(nodes, routes, caches)
    ensures Right(EnsurePipeline(nodes, name), routes, caches)
    ensures NoPhantom(nodes) ==> NoPhantom(EnsurePipeline(nodes, name))
    ensures forall id :: HasId(EnsurePipeline(nodes, name), id) <==> HasId(nodes, id) || (id == name && id != "")
  {
    if name != "" {
      Ensured(nodes, PipelineNodeOf(name), routes, caches);
    }
    hide HasId;
  }

  function RouterNodeOf(route: string): TopoNode { TopoNode(RouterId(route), RouterNode, route, false, 0, 0, 0) }

  function CacheNodeOf(cache: string, undeclared: bool): TopoNode {
    TopoNode(CacheId(cache), CacheNode, cache, undeclared, 0, 0, 0)
  }

  method AddRoute(nodes0: seq<TopoNode>, edges0: seq<TopoEdge>, r: Route, ghost done: seq<Route>)
    returns (nodes: seq<TopoNode>, edges: seq<TopoEdge>)
    requires Right(nodes0, done, []) && NoPhantom(nodes0)
    ensures Right(nodes, done + [r], []) && NoPhantom(nodes)
    ensures forall id :: HasId(nodes, id) <==> HasId(nodes0, id) || RouteNames(r, id)
    ensures edges == edges0 + [TopoEdge(r.source, RouterId(r.name), RouteEdge)] + TargetEdges(r.name, r.targets)
  {
    hide HasId, WellBuilt, Right, NoPhantom, EnsurePipeline, RouterId;
    assert WellBuilt(nodes0) by { RightIsWellBuilt(nodes0, done, []); }
    nodes := SetNode(nodes0, RouterNodeOf(r.name));
    RouterSet(nodes0, nodes, done, r);
    PipelineEnsured(nodes, r.source, done + [r], []);
    nodes := EnsurePipeline(nodes, r.source);
    var first := TopoEdge(r.source, RouterId(r.name), RouteEdge);
    edges := edges0 + [first];
    for j := 0 to |r.targets|
      invariant Right(nodes, done + [r], []) && NoPhantom(nodes)
      invariant forall id :: HasId(nodes, id) <==> HasId(nodes0, id) || RouteNames(r.(targets := r.targets[..j]), id)
      invariant edges == edges0 + [first] + TargetEdges(r.name, r.targets[..j])
    {
      assert r.targets[..j + 1][..j] == r.targets[..j];
      PipelineEnsured(nodes, r.targets[j].pipeline, done + [r], []);
      nodes := EnsurePipeline(nodes, r.targets[j].pipeline);
      forall id ensures RouteNames(r.(targets := r.targets[..j + 1]), id) <==>
          RouteNames(r.(targets := r.targets[..j]), id) || (id == r.targets[j].pipeline && id != "")
      {
        TargetSplit(r.targets, j, id);
      }
      edges := edges + [TopoEdge(RouterId(r.name), r.targets[j].pipeline, RouteEdge)];
    }
    assert r.targets[..|r.targets|] == r.targets && r.(targets := r.targets) == r;
  }

  lemma TargetSplit(targets: seq<Target>, j: nat, id: string)
    requires j < |targets|
    ensures IsTarget(targets[..j + 1], id) <==> IsTarget(targets[..j], id) || targets[j].pipeline == id
  {
    if IsTarget(targets[..j], id) {
      var k :| 0 <= k < j && targets[..j][k].pipeline == id;
      assert targets[..j + 1][k] == targets[..j][k];
    }
    assert targets[..j + 1][j] == targets[j];
  }

  lemma RightIsWellBuilt(nodes: seq<TopoNode>, routes: seq<Route>, caches: seq<CacheResource>)
    requires Right(nodes, routes, caches)
    ensures WellBuilt(nodes)
  {
  }

  method AddMembers(nodes0: seq<TopoNode>, members: seq<string>, ghost routes: seq<Route>)
    returns (nodes: seq<TopoNode>)
    requires Right(nodes0, routes, []) && NoPhantom(nodes0)
    ensures Right(nodes, routes, []) && NoPhantom(nodes)
    ensures forall id :: HasId(nodes, id) <==> HasId(nodes0, id) || (id != "" && id in members)
  {
    hide HasId, Right, NoPhantom, EnsurePipeline;
    nodes := nodes0;
    for i := 0 to |members|
      invariant Right(nodes, routes, []) && NoPhantom(nodes)
      invariant forall id :: HasId(nodes, id) <==> HasId(nodes0, id) || (id != "" && id in members[..i])
    {
      assert members[..i + 1] == members[..i] + [members[i]];
      PipelineEnsured(nodes, members[i], routes, []);
      nodes := EnsurePipeline(nodes, members[i]);
    }
    assert members[..|members|] == members;
  }

  method AddCaches(nodes0: seq<TopoNode>, caches: seq<CacheResource>, ghost routes: seq<Route>)
    returns (nodes: seq<TopoNode>)
    requires Right(nodes0, routes, []) && NoPhantom(nodes0)
    ensures Right(nodes, routes, caches)
    ensures forall id :: HasId(nodes, id) <==> HasId(nodes0, id) || IsDeclared(caches, id)
  {
    hide HasId, WellBuilt, Right, NoPhantom, IsDeclared, CacheId;
    nodes := nodes0;
    NoneDeclared();
    for i := 0 to |caches|
      invariant Right(nodes, routes, caches[..i]) && NoPhantom(nodes)
      invariant forall id :: HasId(nodes, id) <==> HasId(nodes0, id) || IsDeclared(caches[..i], id)
    {
      RightIsWellBuilt(nodes, routes, caches[..i]);
      CachePrefix(caches[i].name);
      ghost var before := nodes;
      nodes := SetNode(nodes, CacheNodeOf(caches[i].name, false));
      CacheSet(before, nodes, routes, caches[..i], caches[i]);
      assert caches[..i + 1] == caches[..i] + [caches[i]];
      forall id ensures IsDeclared(caches[..i + 1], id) <==>
          IsDeclared(caches[..i], id) || id == CacheId(caches[i].name) {
        DeclaredSplit(caches[..i], caches[i], id);
      }
    }
    assert caches[..|caches|] == caches;
  }

  lemma NoneDeclared()
    ensures forall id :: !IsDeclared([], id)
  {
  }

  lemma CachePrefix(name: string)
    ensures "cache:" <= CacheId(name)
  {
  }

  /** The ids cache usages bring along: the pipeline that uses the cache, and the cache. */
  predicate UseNames(uses: seq<CacheUse>, id: string) {
    exists k :: 0 <= k < |uses| && ((id != "" && id == uses[k].pipeline) || id == CacheId(uses[k].cache))
  }

  predicate LinkNames(links: seq<CacheLink>, id: string) {
    exists k :: 0 <= k < |links| && id == CacheId(links[k].layer)
  }

  lemma UseSplit(uses: seq<CacheUse>, i: nat, id: string)
    requires i < |uses|
    ensures UseNames(uses[..i + 1], id) <==>
            UseNames(uses[..i], id) || (id != "" && id == uses[i].pipeline) || id == CacheId(uses[i].cache)
  {
    hide CacheId;
    assert forall k :: 0 <= k < i ==> uses[..i + 1][k] == uses[..i][k];
    assert uses[..i + 1][i] == uses[i];
  }

  lemma LinkSplit(links: seq<CacheLink>, i: nat, id: string)
    requires i < |links|
    ensures LinkNames(links[..i + 1], id) <==> LinkNames(links[..i], id) || id == CacheId(links[i].layer)
  {
    hide CacheId;
    assert forall k :: 0 <= k < i ==> links[..i + 1][k] == links[..i][k];
    assert links[..i + 1][i] == links[i];
  }

  /** Each cache usage is a dashed edge from the pipeline to the cache. */
  method AddUses(nodes0: seq<TopoNode>, uses: seq<CacheUse>, ghost routes: seq<Route>, ghost caches: seq<CacheResource>)
    returns (nodes: seq<TopoNode>, edges: seq<TopoEdge>)
    requires Right(nodes0, routes, caches)
    ensures Right(nodes, routes, caches) && |edges| == |uses|
    ensures forall id :: HasId(nodes, id) <==> HasId(nodes0, id) || UseNames(uses, id)
    ensures forall k :: 0 <= k < |uses| ==> edges[k] == TopoEdge(uses[k].pipeline, CacheId(uses[k].cache), CacheEdge)
  {
    hide HasId, Right, EnsurePipeline, EnsureNode, CacheId, UseNames;
    nodes, edges := nodes0, [];
    NoUses();
    for i := 0 to |uses|
      invariant Right(nodes, routes, caches) && |edges| == i
      invariant forall id :: HasId(nodes, id) <==> HasId(nodes0, id) || UseNames(uses[..i], id)
      invariant forall k :: 0 <= k < i ==> edges[k] == TopoEdge(uses[k].pipeline, CacheId(uses[k].cache), CacheEdge)
    {
      PipelineEnsured(nodes, uses[i].pipeline, routes, caches);
      nodes := EnsurePipeline(nodes, uses[i].pipeline);
      Ensured(nodes, CacheNodeOf(uses[i].cache, true), routes, caches);
      nodes := EnsureNode(nodes, CacheNodeOf(uses[i].cache, true));
      edges := edges + [TopoEdge(uses[i].pipeline, CacheId(uses[i].cache), CacheEdge)];
      forall id ensures UseNames(uses[..i + 1], id) <==>
          UseNames(uses[..i], id) || (id != "" && id == uses[i].pipeline) || id == CacheId(uses[i].cache)
      {
        UseSplit(uses, i, id);
      }
    }
    assert uses[..|uses|] == uses;
  }

  lemma NoUses()
    ensures forall id :: !UseNames([], id) && !LinkNames([], id)
  {
  }

  /** Each link is an edge from the composing cache to the layer it refers to. */
  method AddLinks(nodes0: seq<TopoNode>, links: seq<CacheLink>, ghost routes: seq<Route>,
                  ghost caches: seq<CacheResource>)
    returns (nodes: seq<TopoNode>, edges: seq<TopoEdge>)
    requires Right(nodes0, routes, caches)
    ensures Right(nodes, routes, caches) && |edges| == |links|
    ensures forall id :: HasId(nodes, id) <==> HasId(nodes0, id) || LinkNames(links, id)
    ensures forall k :: 0 <= k < |links| ==>
            edges[k] == TopoEdge(CacheId(links[k].composer), CacheId(links[k].layer), CacheLinkEdge)
  {
    hide HasId, Right, EnsureNode, CacheId, LinkNames;
    nodes, edges := nodes0, [];
    NoUses();
    for i := 0 to |links|
      invariant Right(nodes, routes, caches) && |edges| == i
      invariant forall id :: HasId(nodes, id) <==> HasId(nodes0, id) || LinkNames(links[..i], id)
      invariant forall k :: 0 <= k < i ==>
                edges[k] == TopoEdge(CacheId(links[k].composer), CacheId(links[k].layer), CacheLinkEdge)
    {
      Ensured(nodes, CacheNodeOf(links[i].layer, true), routes, caches);
      nodes := EnsureNode(nodes, CacheNodeOf(links[i].layer, true));
      edges := edges + [TopoEdge(CacheId(links[i].composer), CacheId(links[i].layer), CacheLinkEdge)];
      forall id ensures LinkNames(links[..i + 1], id) <==> LinkNames(links[..i], id) || id == CacheId(links[i].layer) {
        LinkSplit(links, i, id);
      }
    }
    assert links[..|links|] == links;
  }

  ghost predicate SomeRouteNames(routes: seq<Route>, id: string) {
    exists k :: 0 <= k < |routes| && RouteNames(routes[k], id)
  }

  /** The ids that appear: those of the routes, members, declared caches, cache usages and cache links. */
  ghost predicate Mentioned(routes: seq<Route>, members: seq<string>, caches: seq<CacheResource>, uses: seq<CacheUse>,
                            links: seq<CacheLink>, id: string) {
    || SomeRouteNames(routes, id) || (id != "" && id in members) || IsDeclared(caches, id)
    || UseNames(uses, id) || LinkNames(links, id)
  }

  lemma NamesSplit(routes: seq<Route>, i: nat, id: string)
    requires i < |routes|
    ensures SomeRouteNames(routes[..i + 1], id) <==> SomeRouteNames(routes[..i], id) || RouteNames(routes[i], id)
  {
    hide RouteNames;
    if SomeRouteNames(routes[..i], id) {
      var k :| 0 <= k < i && RouteNames(routes[..i][k], id);
      assert routes[..i + 1][k] == routes[..i][k];
    }
    if SomeRouteNames(routes[..i + 1], id) {
      var k :| 0 <= k < i + 1 && RouteNames(routes[..i + 1][k], id);
      assert k < i ==> routes[..i][k] == routes[..i + 1][k];
    }
    assert routes[..i + 1][i] == routes[i];
  }

  /** A route edge joins the producer to the router, or the router to a target. */
  ghost predicate IsRouteEdge(routes: seq<Route>, e: TopoEdge) {
    e.kind == RouteEdge && exists k :: 0 <= k < |routes| && FromRoute(routes[k], (e.source, e.target))
  }

  /** The three groups of edges, in order. */
  ghost predicate EdgesOf(edges: seq<TopoEdge>, routes: seq<Route>, uses: seq<CacheUse>, links: seq<CacheLink>) {
    var n := |RouteEdges(routes)|;
    && |edges| == n + |uses| + |links| && edges[..n] == RouteEdges(routes)
    && (forall k :: 0 <= k < |uses| ==> edges[n + k] == TopoEdge(uses[k].pipeline, CacheId(uses[k].cache), CacheEdge))
    && (forall k :: 0 <= k < |links| ==>
          edges[n + |uses| + k] == TopoEdge(CacheId(links[k].composer), CacheId(links[k].layer), CacheLinkEdge))
  }

  /** One node per mentioned id and no other, drawn as what it is; one edge per route end, cache usage and
      cache link, between what they name; the layered edges are exactly those of the route table. */
  method BuildTopology(routes: seq<Route>, members: seq<string>, caches: seq<CacheResource>, uses: seq<CacheUse>,
                       links: seq<CacheLink>)
    returns (nodes: seq<TopoNode>, edges: seq<TopoEdge>)
    ensures WellBuilt(nodes) && EndsPresent(nodes, edges)
    ensures forall id :: HasId(nodes, id) <==> Mentioned(routes, members, caches, uses, links, id)
    ensures forall x :: x in nodes ==> DrawnRight(x, routes, caches)
    ensures EdgesOf(edges, routes, uses, links)
    ensures forall e: TopoEdge :: e in edges && e.kind == RouteEdge <==> IsRouteEdge(routes, e)
    ensures LayeredEdges(edges) == LayeredEdges(RouteEdges(routes))
  {
    hide HasId, WellBuilt, EndsPresent, LayeredEdges, Right, NoPhantom, SomeRouteNames, IsDeclared, UseNames, LinkNames,
         DrawnRight, IsRouteEdge, RouteNames, Mentioned;
    nodes, edges := [], [];
    NothingBuilt();
    for i := 0 to |routes|
      invariant Right(nodes, routes[..i], []) && NoPhantom(nodes) && edges == RouteEdges(routes[..i])
      invariant forall id :: HasId(nodes, id) <==> SomeRouteNames(routes[..i], id)
    {
      assert routes[..i + 1][..i] == routes[..i] && routes[..i + 1] == routes[..i] + [routes[i]];
      nodes, edges := AddRoute(nodes, edges, routes[i], routes[..i]);
      forall id ensures SomeRouteNames(routes[..i + 1], id) <==>
          SomeRouteNames(routes[..i], id) || RouteNames(routes[i], id) {
        NamesSplit(routes, i, id);
      }
    }
    assert routes[..|routes|] == routes;
    nodes := AddMembers(nodes, members, routes);
    nodes := AddCaches(nodes, caches, routes);
    var useEdges, linkEdges;
    nodes, useEdges := AddUses(nodes, uses, routes, caches);
    nodes, linkEdges := AddLinks(nodes, links, routes, caches);
    ghost var routeEdges := edges;
    edges := edges + useEdges + linkEdges;
    forall id ensures HasId(nodes, id) <==> Mentioned(routes, members, caches, uses, links, id) {
      MentionedMeans(routes, members, caches, uses, links, id);
    }
    EdgesMeant(routes, uses, links, edges);
    RightNodes(nodes, routes, caches);
    EndsMentioned(nodes, edges, routes, members, caches, uses, links);
  }

  lemma NothingBuilt()
    ensures Right([], [], []) && NoPhantom([]) && forall id :: !HasId([], id) && !SomeRouteNames([], id)
  {
  }

  lemma RightNodes(nodes: seq<TopoNode>, routes: seq<Route>, caches: seq<CacheResource>)
    requires Right(nodes, routes, caches)
    ensures WellBuilt(nodes) && forall x :: x in nodes ==> DrawnRight(x, routes, caches)
  {
  }

  lemma MentionedMeans(routes: seq<Route>, members: seq<string>, caches: seq<CacheResource>, uses: seq<CacheUse>,
                       links: seq<CacheLink>, id: string)
    ensures Mentioned(routes, members, caches, uses, links, id) <==>
            SomeRouteNames(routes, id) || (id != "" && id in members) || IsDeclared(caches, id) || UseNames(uses, id) ||
            LinkNames(links, id)
  {
  }

  lemma EdgesMeant(routes: seq<Route>, uses: seq<CacheUse>, links: seq<CacheLink>, edges: seq<TopoEdge>)
    requires EdgesOf(edges, routes, uses, links)
    ensures forall e: TopoEdge :: e in edges && e.kind == RouteEdge <==> IsRouteEdge(routes, e)
    ensures LayeredEdges(edges) == LayeredEdges(RouteEdges(routes))
  {
    hide RouteEdges, LayeredEdges, IsRouteEdge, CacheId;
    var n := |RouteEdges(routes)|;
    forall k | n <= k < |edges| ensures edges[k].kind != RouteEdge {
      if k < n + |uses| {
        var m := k - n;
        assert edges[n + m] == TopoEdge(uses[m].pipeline, CacheId(uses[m].cache), CacheEdge);
      } else {
        var m := k - n - |uses|;
        assert edges[n + |uses| + m] == TopoEdge(CacheId(links[m].composer), CacheId(links[m].layer), CacheLinkEdge);
      }
    }
    OnlyRouteEdgesLayered(RouteEdges(routes), edges);
    forall e: TopoEdge ensures e in edges && e.kind == RouteEdge <==> IsRouteEdge(routes, e) {
      RouteEdgesExact(routes, e);
      if e in edges && e.kind == RouteEdge {
        var k :| 0 <= k < |edges| && edges[k] == e;
        assert edges[..n][k] == edges[k];
      }
      if e in RouteEdges(routes) {
        var k :| 0 <= k < n && RouteEdges(routes)[k] == e;
        assert edges[..n][k] == edges[k];
        RouteEdgeKind(routes, e);
      }
    }
  }

  lemma RouteEdgeKind(routes: seq<Route>, e: TopoEdge)
    requires IsRouteEdge(routes, e)
    ensures e.kind == RouteEdge
  {
  }

  lemma {:induction false} RouteEdgesExact(routes: seq<Route>, e: TopoEdge)
    ensures e in RouteEdges(routes) <==> IsRouteEdge(routes, e)
  {
    if routes != [] {
      var n := |routes| - 1;
      hide RouterId, TargetEdges, FromRoute;
      RouteEdgesExact(routes[..n], e);
      OneRouteExact(routes[n], e);
      RouteEdgeSplit(routes, e);
    }
  }

  lemma RouteEdgeSplit(routes: seq<Route>, e: TopoEdge)
    requires routes != []
    ensures
      var n := |routes| - 1;
      IsRouteEdge(routes, e) <==>
        IsRouteEdge(routes[..n], e) || (e.kind == RouteEdge && FromRoute(routes[n], (e.source, e.target)))
  {
    hide FromRoute;
    var n := |routes| - 1;
    if IsRouteEdge(routes[..n], e) {
      var k :| 0 <= k < n && FromRoute(routes[..n][k], (e.source, e.target));
      assert routes[k] == routes[..n][k];
    }
    if IsRouteEdge(routes, e) {
      var k :| 0 <= k < |routes| && FromRoute(routes[k], (e.source, e.target));
      assert k < n ==> routes[..n][k] == routes[k];
    }
  }

  lemma OneRouteExact(r: Route, e: TopoEdge)
    ensures e in [TopoEdge(r.source, RouterId(r.name), RouteEdge)] + TargetEdges(r.name, r.targets)
            <==> e.kind == RouteEdge && FromRoute(r, (e.source, e.target))
  {
    hide RouterId, TargetEdges;
    var es := TargetEdges(r.name, r.targets);
    forall k: nat | k < |r.targets|
      ensures |es| == |r.targets| && es[k] == TopoEdge(RouterId(r.name), r.targets[k].pipeline, RouteEdge)
    {
      TargetEdgesShape(r.name, r.targets, k);
    }
    TargetEdgesShape(r.name, r.targets, |r.targets|);
    if e.kind == RouteEdge && FromRoute(r, (e.source, e.target)) &&
        (e.source, e.target) != (r.source, RouterId(r.name)) {
      var k: nat :| k < |r.targets| && (e.source, e.target) == (RouterId(r.name), r.targets[k].pipeline);
      assert es[k] == e;
    }
    if e in es {
      var k: nat :| k < |es| && es[k] == e;
      assert (e.source, e.target) == (RouterId(r.name), r.targets[k].pipeline);
    }
  }

  lemma EndsMentioned(nodes: seq<TopoNode>, edges: seq<TopoEdge>, routes: seq<Route>, members: seq<string>,
                      caches: seq<CacheResource>, uses: seq<CacheUse>, links: seq<CacheLink>)
    requires forall e: TopoEdge :: e in edges && e.kind == RouteEdge ==> IsRouteEdge(routes, e)
    requires forall id :: HasId(nodes, id) <==> Mentioned(routes, members, caches, uses, links, id)
    ensures EndsPresent(nodes, edges)
  {
    hide HasId, IsDeclared, UseNames, LinkNames, RouterId, IsRouteEdge;
    forall i | 0 <= i < |edges| && edges[i].kind == RouteEdge
      ensures Present(nodes, edges[i].source) && Present(nodes, edges[i].target)
    {
      var e := edges[i];
      assert e in edges;
      EndsNamed(routes, e);
    }
  }

  lemma EndsNamed(routes: seq<Route>, e: TopoEdge)
    requires IsRouteEdge(routes, e)
    ensures (e.source == "" || SomeRouteNames(routes, e.source)) && (e.target == "" || SomeRouteNames(routes, e.target))
  {
    hide RouterId;
    var k :| 0 <= k < |routes| && FromRoute(routes[k], (e.source, e.target));
    var r := routes[k];
    assert e.source != "" ==> RouteNames(r, e.source);
    assert e.target != "" ==> RouteNames(r, e.target);
  }

  /** The edges the layout layers. */
  function LayeredEdges(edges: seq<TopoEdge>): seq<Edge> {
    if edges == [] then []
    else
      var e := edges[|edges| - 1];
      LayeredEdges(edges[..|edges| - 1]) + if e.kind == RouteEdge then [(e.source, e.target)] else []
  }

  lemma {:induction false} OnlyRouteEdgesLayered(a: seq<TopoEdge>, b: seq<TopoEdge>)
    requires |a| <= |b| && b[..|a|] == a && forall k :: |a| <= k < |b| ==> b[k].kind != RouteEdge
    ensures LayeredEdges(b) == LayeredEdges(a)
    decreases |b|
  {
    if |a| < |b| {
      assert b[..|b| - 1][..|a|] == a;
      OnlyRouteEdgesLayered(a, b[..|b| - 1]);
    } else {
      assert a == b;
    }
  }

  // ---------- acyclicity of the router-expanded graph

  /** Names of pipelines contain no colon, so they never look like router or cache ids. */
  ghost predicate PlainNames(routes: seq<Route>) {
    forall i :: 0 <= i < |routes| ==> PlainName(routes[i].source) && forall k :: 0 <= k < |routes[i].targets| ==>
        PlainName(routes[i].targets[k].pipeline)
  }

  predicate PlainName(name: string) { forall i :: 0 <= i < |name| ==> name[i] != ':' }

  lemma PlainIsNoPrefix(name: string)
    requires PlainName(name)
    ensures !("route:" <= name) && !("cache:" <= name)
  {
    assert "route:"[5] == ':' && "cache:"[5] == ':';
  }

  /** The edges a route contributes to the expanded graph. */
  ghost predicate FromRoute(r: Route, e: Edge) {
    e == (r.source, RouterId(r.name)) ||
        (exists k :: 0 <= k < |r.targets| && e == (RouterId(r.name), r.targets[k].pipeline))
  }

  lemma {:induction false} TargetEdgesShape(route: string, targets: seq<Target>, j: nat)
    ensures |TargetEdges(route, targets)| == |targets|
    ensures j < |targets| ==>
            TargetEdges(route, targets)[j] == TopoEdge(RouterId(route), targets[j].pipeline, RouteEdge)
  {
    hide RouterId;
    if targets != [] {
      TargetEdgesShape(route, targets[..|targets| - 1], j);
    }
  }

  lemma {:induction false} RouteEdgesShape(routes: seq<Route>, j: nat)
    requires j < |RouteEdges(routes)|
    ensures RouteEdges(routes)[j].kind == RouteEdge
    ensures exists i ::
              0 <= i < |routes| && FromRoute(routes[i], (RouteEdges(routes)[j].source, RouteEdges(routes)[j].target))
  {
    hide RouterId, FromRoute, TargetEdges;
    var n := |routes| - 1;
    var before, r := RouteEdges(routes[..n]), routes[n];
    var e := RouteEdges(routes)[j];
    if j < |before| {
      RouteEdgesShape(routes[..n], j);
      var i :| 0 <= i < n && FromRoute(routes[..n][i], (before[j].source, before[j].target));
      assert routes[i] == routes[..n][i];
    } else {
      LastRouteEdges(r, j - |before|);
      assert e == ([TopoEdge(r.source, RouterId(r.name), RouteEdge)] + TargetEdges(r.name, r.targets))[j - |before|];
    }
  }

  lemma LastRouteEdges(r: Route, j: nat)
    requires j < 1 + |TargetEdges(r.name, r.targets)|
    ensures
      var e := ([TopoEdge(r.source, RouterId(r.name), RouteEdge)] + TargetEdges(r.name, r.targets))[j];
      e.kind == RouteEdge && FromRoute(r, (e.source, e.target))
  {
    if j > 0 {
      TargetEdgesShape(r.name, r.targets, j - 1);
    }
  }

  lemma {:induction false} LayeredPointwise(edges: seq<TopoEdge>, j: nat)
    requires forall i :: 0 <= i < |edges| ==> edges[i].kind == RouteEdge
    ensures |LayeredEdges(edges)| == |edges|
    ensures j < |edges| ==> LayeredEdges(edges)[j] == (edges[j].source, edges[j].target)
  {
    if edges != [] {
      LayeredPointwise(edges[..|edges| - 1], j);
    }
  }

  function ExpandedEdges(routes: seq<Route>): seq<Edge> { LayeredEdges(RouteEdges(routes)) }

  lemma ExpandedShape(routes: seq<Route>, j: nat)
    requires j < |ExpandedEdges(routes)|
    ensures exists i :: 0 <= i < |routes| && FromRoute(routes[i], ExpandedEdges(routes)[j])
  {
    var es := RouteEdges(routes);
    forall i | 0 <= i < |es| ensures es[i].kind == RouteEdge {
      RouteEdgesShape(routes, i);
    }
    LayeredPointwise(es, j);
    RouteEdgesShape(routes, j);
  }

  function SourceOf(routes: seq<Route>, name: string): string {
    if routes == [] then "" else if routes[0].name == name then routes[0].source else SourceOf(routes[1..], name)
  }

  lemma {:induction false} SourceOfRoute(routes: seq<Route>, i: nat)
    requires UniqueNames(routes) && i < |routes|
    ensures SourceOf(routes, routes[i].name) == routes[i].source
  {
    if i > 0 {
      SourceOfRoute(routes[1..], i - 1);
      assert routes[1..][i - 1] == routes[i];
    }
  }

  /** Twice the rank of a pipeline, and a router just above its producer. */
  function ExpandedRank(routes: seq<Route>, rank: map<string, nat>, id: string): nat {
    if "route:" <= id then 2 * Get(rank, SourceOf(routes, id[6..])) + 1 else 2 * Get(rank, id)
  }

  lemma ExpandedRises(routes: seq<Route>, rank: map<string, nat>, i: nat, e: Edge)
    requires UniqueNames(routes) && PlainNames(routes) && Ranked(RouteGraph(routes), rank) && i < |routes| &&
             FromRoute(routes[i], e)
    ensures ExpandedRank(routes, rank, e.0) < ExpandedRank(routes, rank, e.1)
  {
    var r := routes[i];
    SourceOfRoute(routes, i);
    assert RouterId(r.name)[6..] == r.name && "route:" <= RouterId(r.name);
    if e == (r.source, RouterId(r.name)) {
      PlainIsNoPrefix(r.source);
    } else {
      var k :| 0 <= k < |r.targets| && e == (RouterId(r.name), r.targets[k].pipeline);
      PlainIsNoPrefix(r.targets[k].pipeline);
      assert r in routes && r.targets[k] in r.targets;
      assert (r.source, r.targets[k].pipeline) in RouteGraph(routes);
    }
  }

  /** Acyclicity carries over from the pipeline graph to the router-expanded graph. */
  lemma ExpandedAcyclic(routes: seq<Route>)
    requires UniqueNames(routes) && PlainNames(routes) && !HasCycle(RouteGraph(routes))
    ensures !HasCycle(EdgeSet(ExpandedEdges(routes)))
  {
    hide RouteGraph, HasCycle, PlainNames, UniqueNames, ExpandedEdges, ExpandedRank, FromRoute;
    var rank := AcyclicHasRank(RouteGraph(routes));
    var g := EdgeSet(ExpandedEdges(routes));
    var rank2 := map id | id in Nodes(g) :: ExpandedRank(routes, rank, id);
    forall e | e in g ensures e.0 in rank2 && e.1 in rank2 && rank2[e.0] < rank2[e.1] {
      assert e.0 in Nodes(g) && e.1 in Nodes(g);
      var j :| 0 <= j < |ExpandedEdges(routes)| && ExpandedEdges(routes)[j] == e;
      ExpandedShape(routes, j);
      var i :| 0 <= i < |routes| && FromRoute(routes[i], e);
      ExpandedRises(routes, rank, i, e);
    }
    RankedIsAcyclic(g, rank2);
  }
}
