/** The cycle check on a project's route table: a coloured depth-first search. */
module CycleSearch {
  import opened Prelude
  import opened Graphs

  datatype Target = Target(pipeline: string, when: string)

  datatype Route = Route(name: string, source: string, targets: seq<Target>)

  /** The edges of the route graph, from a route's producer to each of its targets. */
  function RouteGraph(routes: seq<Route>): Graph {
    set r, t | r in routes && t in r.targets :: (r.source, t.pipeline)
  }

  datatype Color = Gray | Black   // a node without a colour is white

  function Succ(adj: map<string, seq<string>>, n: string): seq<string> {
    if n in adj then adj[n] else []
  }

  /** Exactly the edges of `g`. */
  ghost predicate Represents(adj: map<string, seq<string>>, g: Graph) {
    forall u, v :: v in Succ(adj, u) <==> (u, v) in g
  }

  /** The gray nodes are the current path, and every edge out of a black node leads to a
      black node finished earlier. */
  ghost predicate Consistent(g: Graph, all: set<string>, color: map<string, Color>, path: seq<string>,
                             finish: map<string, nat>) {
    && color.Keys <= all
    && Distinct(path) && (path != [] ==> IsWalk(g, path))
    && (forall n :: n in color && color[n] == Gray <==> n in path)
    && (forall n :: n in color && color[n] == Black <==> n in finish)
    && (forall n :: n in finish ==> finish[n] < |finish|)
    && (forall n, m :: n in finish && (n, m) in g ==> m in finish && finish[m] < finish[n])
  }

  lemma EnterNode(g: Graph, all: set<string>, color: map<string, Color>, path: seq<string>, finish: map<string, nat>,
                  n: string)
    requires Consistent(g, all, color, path, finish) && n in all && n !in color
    requires path != [] ==> (path[|path| - 1], n) in g
    ensures Consistent(g, all, color[n := Gray], path + [n], finish)
  {
  }

  lemma LeaveNode(g: Graph, all: set<string>, color: map<string, Color>, path: seq<string>, finish: map<string, nat>,
                  n: string)
    requires Consistent(g, all, color, path + [n], finish)
    requires forall m :: (n, m) in g ==> m in finish
    ensures n !in finish && Consistent(g, all, color[n := Black], path, finish[n := |finish|])
  {
    var whole := path + [n];
    assert whole[|path|] == n && n in whole;
    assert path == whole[..|path|];
    assert forall i :: 0 <= i < |path| ==> path[i] == whole[i];
    if path != [] {
      assert forall i :: 0 <= i < |path| - 1 ==> (path[i], path[i + 1]) == (whole[i], whole[i + 1]);
    }
    assert |finish[n := |finish|]| == |finish| + 1;
    forall k ensures k in path <==> k in whole && k != n {
      if k in path {
        var i :| 0 <= i < |path| && path[i] == k;
        assert whole[i] == k && whole[|path|] == n;
      }
    }
  }

  lemma ColorCases(g: Graph, all: set<string>, color: map<string, Color>, path: seq<string>, finish: map<string, nat>,
                   n: string, m: string)
    requires Consistent(g, all, color, path, finish) && (n, m) in g && Nodes(g) <= all
    ensures m in all && Distinct(path) && (path != [] ==> IsWalk(g, path))
    ensures m in color ==> if color[m] == Gray then m in path else m in finish
  {
    assert m in Nodes(g) by { assert (n, m).1 == m; }
  }

  class Searcher {
    const adj: map<string, seq<string>>
    ghost const g: Graph
    ghost const all: set<string>
    var color: map<string, Color>
    var path: seq<string>
    ghost var finish: map<string, nat>

    constructor (adj: map<string, seq<string>>, ghost g: Graph, ghost all: set<string>)
      requires Represents(adj, g) && Nodes(g) <= all
      ensures this.adj == adj && this.g == g && this.all == all
      ensures Valid() && color == map[] && path == [] && finish == map[]
    {
      this.adj, this.g, this.all := adj, g, all;
      color, path, finish := map[], [], map[];
    }

    ghost predicate Valid()
      reads this
    {
      Represents(adj, g) && Nodes(g) <= all && Consistent(g, all, color, path, finish)
    }

    method IndexOnPath(m: string) returns (idx: nat)
      requires m in path
      ensures idx < |path| && path[idx] == m
    {
      idx := 0;
      while path[idx] != m
        invariant idx < |path| && m !in path[..idx]
        decreases |path| - idx
      {
        idx := idx + 1;
      }
    }

    /** Explores `n`. Without a cycle the path is restored and `n` is finished; otherwise the
        result is a simple cycle. */
    method Dfs(n: string) returns (c: Option<seq<string>>)
      requires Valid() && n in all && n !in color
      requires path != [] ==> (path[|path| - 1], n) in g
      modifies this`color, this`path, this`finish
      ensures c.None? ==> Valid() && path == old(path) && n in finish
      ensures c.None? ==> Grown(old(finish), finish) && Grown(old(color), color)
      ensures c.Some? ==> IsSimpleCycle(g, c.value)
      decreases White(all, color)
    {
      hide Consistent, Represents, Nodes, IsWalk, Distinct, IsSimpleCycle, Succ, Covered, White;
      EnterNode(g, all, color, path, finish, n);
      color := color[n := Gray];
      path := path + [n];
      var next := Succ(adj, n);
      NothingCovered(next, finish);
      for i := 0 to |next|
        invariant Valid() && path == old(path) + [n] && Covered(next, i, finish)
        invariant Grown(old(finish), finish) && n in color && Grown(old(color), color)
      {
        var m := next[i];
        ghost var before := finish;
        EdgeTo(adj, g, n, i);
        ColorCases(g, all, color, path, finish, n, m);
        if m in color && color[m] == Gray {
          var idx := IndexOnPath(m);
          CloseThePath(g, path, idx);
          return Some(path[idx..] + [m]);
        } else if m !in color {
          FewerWhite(all, old(color), color, n);
          var r := Dfs(m);
          if r.Some? { return r; }
        }
        CoverOneMore(next, i, before, finish);
      }
      EdgesCovered(adj, g, n, finish);
      LeaveNode(g, all, color, old(path), finish, n);
      path := path[..|path| - 1];
      color := color[n := Black];
      finish := finish[n := |finish|];
      c := None;
    }
  }

  /** No key is lost. */
  ghost predicate Grown<K, V>(a: map<K, V>, b: map<K, V>) { forall k :: k in a ==> k in b }

  /** The first `i` successors are finished. */
  ghost predicate Covered(next: seq<string>, i: nat, finish: map<string, nat>) {
    forall k :: 0 <= k < i && k < |next| ==> next[k] in finish
  }

  lemma NothingCovered(next: seq<string>, finish: map<string, nat>)
    ensures Covered(next, 0, finish)
  {
  }

  lemma EdgesCovered(adj: map<string, seq<string>>, g: Graph, n: string, finish: map<string, nat>)
    requires Represents(adj, g) && Covered(Succ(adj, n), |Succ(adj, n)|, finish)
    ensures forall m :: (n, m) in g ==> m in finish
  {
    hide Represents, Succ;
    SuccIsEdges(adj, g, n);
  }

  lemma CoverOneMore(next: seq<string>, i: nat, before: map<string, nat>, now: map<string, nat>)
    requires Covered(next, i, before) && Grown(before, now) && i < |next| && next[i] in now
    ensures Covered(next, i + 1, now)
  {
  }

  /** How many nodes have no colour yet. */
  ghost function White(all: set<string>, color: map<string, Color>): nat { |all - color.Keys| }

  lemma FewerWhite(all: set<string>, before: map<string, Color>, now: map<string, Color>, n: string)
    requires Grown(before, now) && n in all && n !in before && n in now
    ensures White(all, now) < White(all, before)
  {
    CardinalityDrops(all - now.Keys, all - before.Keys, n);
  }

  lemma EdgeTo(adj: map<string, seq<string>>, g: Graph, n: string, i: nat)
    requires Represents(adj, g) && i < |Succ(adj, n)|
    ensures (n, Succ(adj, n)[i]) in g
  {
    hide Represents, Succ;
    SuccIsEdges(adj, g, n);
  }

  lemma SuccIsEdges(adj: map<string, seq<string>>, g: Graph, n: string)
    requires Represents(adj, g)
    ensures forall i :: 0 <= i < |Succ(adj, n)| ==> (n, Succ(adj, n)[i]) in g
    ensures forall m :: (n, m) in g ==> m in Succ(adj, n)
  {
  }

  lemma CardinalityDrops<T>(a: set<T>, b: set<T>, x: T)
    requires a <= b && x in b && x !in a
    ensures |a| < |b|
  {
    CardinalityMonotone(a, b - {x});
  }

  lemma {:induction false} CardinalityMonotone<T>(a: set<T>, b: set<T>)
    requires a <= b
    ensures |a| <= |b|
  {
    if a != {} {
      var x :| x in a;
      CardinalityMonotone(a - {x}, b - {x});
    }
  }

  lemma CloseThePath(g: Graph, path: seq<string>, idx: nat)
    requires IsWalk(g, path) && Distinct(path) && idx < |path| && (path[|path| - 1], path[idx]) in g
    ensures IsSimpleCycle(g, path[idx..] + [path[idx]])
  {
    var c := path[idx..] + [path[idx]];
    forall i | 0 <= i < |c| - 1 ensures (c[i], c[i + 1]) in g {
      if i + 1 < |c| - 1 {
        assert (c[i], c[i + 1]) == (path[idx + i], path[idx + i + 1]);
      } else {
        assert c[i] == path[|path| - 1];
      }
    }
    assert c[..|c| - 1] == path[idx..];
  }

  // ---------- building the adjacency lists

  function AddEdge(adj: map<string, seq<string>>, u: string, v: string): (r: map<string, seq<string>>)
    ensures forall x, y :: y in Succ(r, x) <==> y in Succ(adj, x) || (x == u && y == v)
  {
    adj[u := Succ(adj, u) + [v]]
  }

  lemma GraphOfPrefix(routes: seq<Route>, i: nat)
    requires i < |routes|
    ensures RouteGraph(routes[..i + 1]) == RouteGraph(routes[..i]) + RouteGraph([routes[i]])
  {
    assert routes[..i + 1] == routes[..i] + [routes[i]];
  }

  lemma GraphOfTargets(r: Route, j: nat)
    requires j < |r.targets|
    ensures RouteGraph([r.(targets := r.targets[..j + 1])]) ==
            RouteGraph([r.(targets := r.targets[..j])]) + {(r.source, r.targets[j].pipeline)}
  {
    var a, b := r.(targets := r.targets[..j + 1]), r.(targets := r.targets[..j]);
    assert a.targets == b.targets + [r.targets[j]];
    forall t | t in b.targets ensures (r.source, t.pipeline) in RouteGraph([a]) {
      assert t in a.targets && a in [a];
    }
    assert r.targets[j] in a.targets && a in [a];
    forall e | e in RouteGraph([a]) ensures e in RouteGraph([b]) + {(r.source, r.targets[j].pipeline)} {
      var t :| t in a.targets && e == (a.source, t.pipeline);
      if t in b.targets {
        assert b in [b];
      }
    }
  }

  lemma AddEdgeRepresents(adj: map<string, seq<string>>, g: Graph, nodes: set<string>, u: string, v: string)
    requires Represents(adj, g) && Nodes(g) <= nodes
    ensures Represents(AddEdge(adj, u, v), g + {(u, v)}) && Nodes(g + {(u, v)}) <= nodes + {u, v}
  {
  }

  method BuildAdjacency(routes: seq<Route>) returns (adj: map<string, seq<string>>, nodes: set<string>)
    ensures Represents(adj, RouteGraph(routes)) && Nodes(RouteGraph(routes)) <= nodes
  {
    adj, nodes := map[], {};
    assert RouteGraph(routes[..0]) == {} && Nodes({}) == {} && Represents(adj, {});
    hide RouteGraph, Represents, Nodes;
    for i := 0 to |routes|
      invariant Represents(adj, RouteGraph(routes[..i])) && Nodes(RouteGraph(routes[..i])) <= nodes
    {
      var r := routes[i];
      var f := r.source;
      nodes := nodes + {f};
      ghost var before := RouteGraph(routes[..i]);
      ghost var g := before;
      NoTargets(r);
      for j := 0 to |r.targets|
        invariant g == before + RouteGraph([r.(targets := r.targets[..j])])
        invariant Represents(adj, g) && Nodes(g) <= nodes && f in nodes
      {
        GraphOfTargets(r, j);
        var to := r.targets[j].pipeline;
        AddEdgeRepresents(adj, g, nodes, f, to);
        adj := AddEdge(adj, f, to);
        nodes := nodes + {to};
        g := g + {(f, to)};
      }
      assert r.(targets := r.targets[..|r.targets|]) == r;
      GraphOfPrefix(routes, i);
    }
    assert routes[..|routes|] == routes;
  }

  lemma NoTargets(r: Route)
    ensures RouteGraph([r.(targets := r.targets[..0])]) == {}
  {
  }

  method SortAdjacency(adj: map<string, seq<string>>, ghost g: Graph) returns (sorted: map<string, seq<string>>)
    requires Represents(adj, g)
    ensures Represents(sorted, g)
    ensures forall k :: k in sorted ==> SortedBy(StringLe, sorted[k])
  {
    StringLeOrders();
    hide StringLe;
    sorted := map k | k in adj :: Sort(StringLe, adj[k]);
    forall u, v ensures v in Succ(sorted, u) <==> v in Succ(adj, u) {
      if u in adj {
        SameElements(Sort(StringLe, adj[u]), adj[u]);
      }
    }
    forall k | k in sorted ensures SortedBy(StringLe, sorted[k]) {
      SortSorted(StringLe, adj[k]);
    }
  }

  /** The nodes in sorted order, whatever order the set is walked in. */
  method SortedNodes(nodes: set<string>) returns (s: seq<string>)
    ensures multiset(s) == multiset(nodes) && SortedBy(StringLe, s)
    ensures forall n :: n in s <==> n in nodes
  {
    s := [];
    var rest := nodes;
    while rest != {}
      invariant rest <= nodes && multiset(s) + multiset(rest) == multiset(nodes)
      decreases |rest|
    {
      var n :| n in rest;
      s := s + [n];
      rest := rest - {n};
    }
    StringLeOrders();
    SortSorted(StringLe, s);
    s := Sort(StringLe, s);
    forall n ensures n in s <==> n in nodes {
      assert n in s <==> n in multiset(s);
      assert n in nodes <==> n in multiset(nodes);
    }
  }

  lemma FinishedIsAcyclic(g: Graph, finish: map<string, nat>)
    requires forall n :: n in Nodes(g) ==> n in finish
    requires forall n :: n in finish ==> finish[n] < |finish|
    requires forall n, m :: n in finish && (n, m) in g ==> m in finish && finish[m] < finish[n]
    ensures !HasCycle(g)
  {
    var rank := map n | n in finish :: |finish| - finish[n];
    forall e | e in g ensures e.0 in rank && e.1 in rank && rank[e.0] < rank[e.1] {
      assert e.0 in Nodes(g) && e == (e.0, e.1);
    }
    RankedIsAcyclic(g, rank);
  }

  lemma ColoredIsFinished(g: Graph, all: set<string>, color: map<string, Color>, finish: map<string, nat>, n: string)
    requires Consistent(g, all, color, [], finish) && n in color
    ensures n in finish
  {
  }

  lemma SimpleIsCycle(g: Graph, c: seq<string>)
    requires IsSimpleCycle(g, c)
    ensures c != [] && HasCycle(g)
  {
  }

  lemma AllFinishedIsAcyclic(g: Graph, all: set<string>, color: map<string, Color>, finish: map<string, nat>)
    requires Consistent(g, all, color, [], finish) && Nodes(g) <= all && forall n :: n in all ==> n in finish
    ensures !HasCycle(g)
  {
    FinishedIsAcyclic(g, finish);
  }

  /** Returns nothing exactly when the route graph has no cycle; otherwise a closed walk along
      real edges whose nodes are distinct but for the repeated end. */
  method FindCycle(routes: seq<Route>) returns (c: seq<string>)
    ensures c == [] <==> !HasCycle(RouteGraph(routes))
    ensures c != [] ==> IsSimpleCycle(RouteGraph(routes), c)
  {
    hide RouteGraph, Represents, Nodes, IsSimpleCycle, HasCycle, Consistent;
    ghost var g := RouteGraph(routes);
    var adj, nodeSet := BuildAdjacency(routes);
    var nodes := SortedNodes(nodeSet);
    adj := SortAdjacency(adj, g);
    var search := new Searcher(adj, g, nodeSet);
    for i := 0 to |nodes|
      invariant search.Valid() && search.path == [] && search.g == g && search.all == nodeSet
      invariant forall k :: 0 <= k < i ==> nodes[k] in search.finish
    {
      if nodes[i] !in search.color {
        var r := search.Dfs(nodes[i]);
        if r.Some? {
          SimpleIsCycle(g, r.value);
          return r.value;
        }
      } else {
        ColoredIsFinished(g, nodeSet, search.color, search.finish, nodes[i]);
      }
    }
    AllFinishedIsAcyclic(g, nodeSet, search.color, search.finish);
    c := [];
  }
}
