/** Longest-path layering of the topology view: Kahn's worklist over the route edges. */
module Layering {
  import opened Prelude
  import opened Graphs

  type Edge = (string, string)

  function Get(m: map<string, nat>, k: string): nat { if k in m then m[k] else 0 }

  /** Edges into `v` whose source is not in `done`. */
  function Waiting(edges: seq<Edge>, v: string, done: set<string>): nat {
    if edges == [] then 0
    else
      var e := edges[|edges| - 1];
      Waiting(edges[..|edges| - 1], v, done) + if e.1 == v && e.0 !in done then 1 else 0
  }

  /** The targets of the edges out of `u`, with repetitions. */
  function OutOf(edges: seq<Edge>, u: string): seq<string> {
    if edges == [] then []
    else
      var e := edges[|edges| - 1];
      if e.0 == u then OutOf(edges[..|edges| - 1], u) + [e.1] else OutOf(edges[..|edges| - 1], u)
  }

  lemma {:induction false} FinishSource(edges: seq<Edge>, v: string, done: set<string>, u: string)
    requires u !in done
    ensures Waiting(edges, v, done + {u}) + multiset(OutOf(edges, u))[v] == Waiting(edges, v, done)
  {
    if edges != [] {
      FinishSource(edges[..|edges| - 1], v, done, u);
    }
  }

  lemma {:induction false} WaitingWitness(edges: seq<Edge>, v: string, done: set<string>)
    ensures Waiting(edges, v, done) > 0 <==> exists i :: 0 <= i < |edges| && edges[i].1 == v && edges[i].0 !in done
  {
    if edges != [] {
      var n := |edges| - 1;
      WaitingWitness(edges[..n], v, done);
      if exists i :: 0 <= i < |edges| && edges[i].1 == v && edges[i].0 !in done {
        var i :| 0 <= i < |edges| && edges[i].1 == v && edges[i].0 !in done;
        if i < n {
          assert edges[..n][i] == edges[i];
        }
      }
      if Waiting(edges[..n], v, done) > 0 {
        var i :| 0 <= i < n && edges[..n][i].1 == v && edges[..n][i].0 !in done;
        assert edges[i] == edges[..n][i];
      }
    }
  }

  lemma {:induction false} OutOfWitness(edges: seq<Edge>, u: string, v: string)
    ensures v in OutOf(edges, u) <==> exists i :: 0 <= i < |edges| && edges[i] == (u, v)
  {
    if edges != [] {
      var n := |edges| - 1;
      OutOfWitness(edges[..n], u, v);
      if exists i :: 0 <= i < |edges| && edges[i] == (u, v) {
        var i :| 0 <= i < |edges| && edges[i] == (u, v);
        if i < n {
          assert edges[..n][i] == edges[i];
        }
      }
      if v in OutOf(edges[..n], u) {
        var i :| 0 <= i < n && edges[..n][i] == (u, v);
        assert edges[i] == edges[..n][i];
      }
    }
  }

  function Max(a: nat, b: nat): nat { if a < b then b else a }

  /** The targets in `outs` were raised above `base`, counted down, and pushed if nothing is left. */
  ghost predicate Relaxed(outs: seq<string>, base: nat, layer0: map<string, nat>, layer: map<string, nat>,
                          remaining0: map<string, nat>, remaining: map<string, nat>, pushed: seq<string>) {
    && (forall v :: Get(layer, v) == if v in outs then Max(Get(layer0, v), base + 1) else Get(layer0, v))
    && (forall v :: Get(remaining, v) + multiset(outs)[v] == Get(remaining0, v))
    && Distinct(pushed) && (forall v :: v in pushed <==> v in outs && Get(remaining, v) == 0)
  }

  /** One turn of the worklist: raise the layer of every target, count its edge down, and enqueue
      the targets whose last edge this was. */
  method Relax(outs: seq<string>, base: nat, layer0: map<string, nat>, remaining0: map<string, nat>,
               queue0: seq<string>)
    returns (layer: map<string, nat>, remaining: map<string, nat>, queue: seq<string>)
    requires forall v :: v in outs ==> multiset(outs)[v] <= Get(remaining0, v)
    ensures queue0 <= queue && Relaxed(outs, base, layer0, layer, remaining0, remaining, queue[|queue0|..])
  {
    hide Relaxed;
    layer, remaining, queue := layer0, remaining0, queue0;
    NothingRelaxed(base, layer0, remaining0);
    assert queue[|queue0|..] == [] && outs[..0] == [];
    for j := 0 to |outs|
      invariant queue0 <= queue && Relaxed(outs[..j], base, layer0, layer, remaining0, remaining, queue[|queue0|..])
    {
      var next := outs[j];
      assert outs[..j + 1] == outs[..j] + [next];
      RemainingPositive(outs, j, remaining0);
      RelaxOne(outs[..j], next, base, layer0, layer, remaining0, remaining, queue[|queue0|..]);
      layer := layer[next := Max(Get(layer, next), base + 1)];
      var left := Get(remaining, next) - 1;
      remaining := remaining[next := left];
      if left == 0 {
        assert (queue + [next])[|queue0|..] == queue[|queue0|..] + [next];
        queue := queue + [next];
      }
    }
    assert outs[..|outs|] == outs;
  }

  lemma NothingRelaxed(base: nat, layer: map<string, nat>, remaining: map<string, nat>)
    ensures Relaxed([], base, layer, layer, remaining, remaining, [])
  {
  }

  lemma RelaxOne(part: seq<string>, next: string, base: nat, layer0: map<string, nat>, layer: map<string, nat>,
                 remaining0: map<string, nat>, remaining: map<string, nat>, pushed: seq<string>)
    requires Relaxed(part, base, layer0, layer, remaining0, remaining, pushed) &&
             multiset(part)[next] < Get(remaining0, next)
    ensures Get(remaining, next) > 0
    ensures
      var left := Get(remaining, next) - 1;
      Relaxed(part + [next], base, layer0, layer[next := Max(Get(layer, next), base + 1)], remaining0,
              remaining[next := left],
              if left == 0 then pushed + [next] else pushed)
  {
  }

  lemma RemainingPositive(outs: seq<string>, j: nat, remaining0: map<string, nat>)
    requires j < |outs| && forall v :: v in outs ==> multiset(outs)[v] <= Get(remaining0, v)
    ensures multiset(outs[..j])[outs[j]] < Get(remaining0, outs[j])
  {
    assert outs == outs[..j] + [outs[j]] + outs[j + 1..];
    assert outs[j] in outs;
  }

  // ---------- the invariant

  ghost predicate Known(nodes: seq<string>, edges: seq<Edge>, v: string) {
    v in nodes || exists i :: 0 <= i < |edges| && edges[i].1 == v
  }

  /** Nodes taken from the queue whose edges have been followed (only listed nodes have any). */
  function Followed(nodes: seq<string>, taken: seq<string>): set<string> {
    set v | v in taken && v in nodes
  }

  /** A node is taken or queued, and once only, exactly if it is known and waits for no edge. */
  ghost predicate QueueOk(nodes: seq<string>, edges: seq<Edge>, taken: seq<string>, queue: seq<string>,
                          remaining: map<string, nat>) {
    && Distinct(taken + queue)
    && (forall v :: Get(remaining, v) == Waiting(edges, v, Followed(nodes, taken)))
    && (forall v :: v in taken || v in queue <==> Known(nodes, edges, v) && Get(remaining, v) == 0)
  }

  /** Every layer is one more than the largest layer of a followed predecessor, or zero. */
  ghost predicate LayersOk(edges: seq<Edge>, done: set<string>, layer: map<string, nat>) {
    && (forall i :: 0 <= i < |edges| && edges[i].0 in done ==> Get(layer, edges[i].0) < Get(layer, edges[i].1))
    && (forall v :: Get(layer, v) > 0 ==> HasTightEdge(edges, done, layer, v))
  }

  ghost predicate HasTightEdge(edges: seq<Edge>, done: set<string>, layer: map<string, nat>, v: string) {
    exists i :: 0 <= i < |edges| && edges[i].1 == v && edges[i].0 in done && Get(layer, v) == Get(layer, edges[i].0) + 1
  }

  function OutsOf(nodes: seq<string>, edges: seq<Edge>, id: string): seq<string> {
    if id in nodes then OutOf(edges, id) else []
  }

  lemma NotAgain(taken: seq<string>, queue: seq<string>)
    requires Distinct(taken + queue) && queue != []
    ensures queue[0] !in taken
  {
    var all := taken + queue;
    assert all[|taken|] == queue[0];
    forall i | 0 <= i < |taken| ensures taken[i] != queue[0] {
      assert all[i] == taken[i];
    }
  }

  lemma TakeOne(nodes: seq<string>, edges: seq<Edge>, taken: seq<string>, queue: seq<string>,
                remaining: map<string, nat>)
    requires QueueOk(nodes, edges, taken, queue, remaining) && queue != []
    ensures
      var id := queue[0];
      var done, done' := Followed(nodes, taken), Followed(nodes, taken + [id]);
      && id !in taken
      && done' == (if id in nodes then done + {id} else done)
      && (forall v :: Waiting(edges, v, done') + multiset(OutsOf(nodes, edges, id))[v] == Waiting(edges, v, done))
  {
    hide Waiting, OutOf;
    var id := queue[0];
    var done := Followed(nodes, taken);
    NotAgain(taken, queue);
    if id in nodes {
      forall v ensures Waiting(edges, v, done + {id}) + multiset(OutOf(edges, id))[v] == Waiting(edges, v, done) {
        FinishSource(edges, v, done, id);
      }
    }
  }

  lemma DistinctJoin(a: seq<string>, b: seq<string>)
    requires Distinct(a) && Distinct(b) && forall x :: x in a ==> x !in b
    ensures Distinct(a + b)
  {
    var c := a + b;
    forall i, j | 0 <= i < j < |c| ensures c[i] != c[j] {
      if i < |a| && j >= |a| {
        assert c[i] == a[i] && c[j] == b[j - |a|] && a[i] in a && b[j - |a|] in b;
      }
    }
  }

  lemma QueueStep(nodes: seq<string>, edges: seq<Edge>, taken: seq<string>, queue: seq<string>,
                  remaining: map<string, nat>,
                  remaining': map<string, nat>, pushed: seq<string>, base: nat, layer: map<string, nat>,
                  layer': map<string, nat>)
    requires QueueOk(nodes, edges, taken, queue, remaining) && queue != []
    requires Relaxed(OutsOf(nodes, edges, queue[0]), base, layer, layer', remaining, remaining', pushed)
    ensures QueueOk(nodes, edges, taken + [queue[0]], queue[1..] + pushed, remaining')
  {
    TakeOne(nodes, edges, taken, queue, remaining);
    hide Waiting, OutOf, Followed;
    var id := queue[0];
    var outs := OutsOf(nodes, edges, id);
    assert queue == [id] + queue[1..];
    assert taken + [id] + (queue[1..] + pushed) == (taken + queue) + pushed;
    forall v | v in pushed ensures v !in taken + queue {
      assert multiset(outs)[v] > 0;
    }
    assert forall x :: x in taken + queue ==> x !in pushed;
    DistinctJoin(taken + queue, pushed);
    forall v ensures v in taken + [id] || v in queue[1..] + pushed <==>
        Known(nodes, edges, v) && Get(remaining', v) == 0 {
      assert v in outs <==> multiset(outs)[v] > 0;
      assert v in taken + [id] || v in queue[1..] <==> v in taken || v in queue;
      if v in outs {
        KnownTarget(nodes, edges, id, v);
      }
    }
  }

  lemma KnownTarget(nodes: seq<string>, edges: seq<Edge>, id: string, v: string)
    requires v in OutsOf(nodes, edges, id)
    ensures Known(nodes, edges, v)
  {
    OutOfWitness(edges, id, v);
  }

  lemma LayerStep(nodes: seq<string>, edges: seq<Edge>, taken: seq<string>, queue: seq<string>,
                  remaining: map<string, nat>,
                  remaining': map<string, nat>, pushed: seq<string>, layer: map<string, nat>, layer': map<string, nat>)
    requires QueueOk(nodes, edges, taken, queue, remaining) && queue != []
    requires LayersOk(edges, Followed(nodes, taken), layer)
    requires Relaxed(OutsOf(nodes, edges, queue[0]), Get(layer, queue[0]), layer, layer', remaining, remaining', pushed)
    ensures LayersOk(edges, Followed(nodes, taken + [queue[0]]), layer')
  {
    TakeOne(nodes, edges, taken, queue, remaining);
    var id := queue[0];
    var outs := OutsOf(nodes, edges, id);
    var done, done' := Followed(nodes, taken), Followed(nodes, taken + [id]);
    forall u | u in taken || u == id ensures u !in outs {
      assert u in taken || u in queue;
      assert Get(remaining, u) == 0;
    }
    forall v ensures v in outs <==> id in nodes && exists i :: 0 <= i < |edges| && edges[i] == (id, v) {
      OutOfWitness(edges, id, v);
    }
    hide Waiting, OutOf, LayersOk, QueueOk, Followed, Max;
    assert forall u :: u in done ==> u !in outs by { FollowedTaken(nodes, taken); }
    RisingStep(edges, done, done', id, outs, layer, layer');
    TightStep(edges, done, done', id, outs, layer, layer');
    LayersFrom(edges, done', layer');
  }

  lemma FollowedTaken(nodes: seq<string>, taken: seq<string>)
    ensures forall u :: u in Followed(nodes, taken) ==> u in taken
  {
  }

  lemma LayersFrom(edges: seq<Edge>, done: set<string>, layer: map<string, nat>)
    requires forall i :: 0 <= i < |edges| && edges[i].0 in done ==> Get(layer, edges[i].0) < Get(layer, edges[i].1)
    requires forall v :: Get(layer, v) > 0 ==> HasTightEdge(edges, done, layer, v)
    ensures LayersOk(edges, done, layer)
  {
  }

  lemma RisingStep(edges: seq<Edge>, done: set<string>, done': set<string>, id: string, outs: seq<string>,
                   layer: map<string, nat>, layer': map<string, nat>)
    requires LayersOk(edges, done, layer) && done <= done' <= done + {id}
    requires forall v :: id in done' && id !in done && (exists i :: 0 <= i < |edges| && edges[i] == (id, v)) ==>
             v in outs
    requires id !in outs && forall u :: u in done ==> u !in outs
    requires forall v :: Get(layer', v) == if v in outs then Max(Get(layer, v), Get(layer, id) + 1) else Get(layer, v)
    ensures forall i :: 0 <= i < |edges| && edges[i].0 in done' ==> Get(layer', edges[i].0) < Get(layer', edges[i].1)
  {
    forall i | 0 <= i < |edges| && edges[i].0 in done' ensures Get(layer', edges[i].0) < Get(layer', edges[i].1) {
      if edges[i].0 !in done {
        assert edges[i] == (id, edges[i].1);
      }
    }
  }

  lemma TightStep(edges: seq<Edge>, done: set<string>, done': set<string>, id: string, outs: seq<string>,
                  layer: map<string, nat>, layer': map<string, nat>)
    requires LayersOk(edges, done, layer) && done <= done'
    requires forall v :: v in outs ==> id in done' && exists i :: 0 <= i < |edges| && edges[i] == (id, v)
    requires id !in outs && forall u :: u in done ==> u !in outs
    requires forall v :: Get(layer', v) == if v in outs then Max(Get(layer, v), Get(layer, id) + 1) else Get(layer, v)
    ensures forall v :: Get(layer', v) > 0 ==> HasTightEdge(edges, done', layer', v)
  {
    forall v | Get(layer', v) > 0 ensures HasTightEdge(edges, done', layer', v) {
      if Get(layer', v) == Get(layer, v) {
        var i :| 0 <= i < |edges| && edges[i].1 == v && edges[i].0 in done &&
            Get(layer, v) == Get(layer, edges[i].0) + 1;
        assert edges[i].0 in done';
      } else {
        var i :| 0 <= i < |edges| && edges[i] == (id, v);
        assert edges[i].0 in done';
      }
    }
  }

  // ---------- the algorithm

  method CountEdges(nodes: seq<string>, edges: seq<Edge>)
    returns (outgoing: map<string, seq<string>>, indeg: map<string, nat>)
    ensures forall u :: u in outgoing <==> u in nodes
    ensures forall u :: u in nodes ==> outgoing[u] == OutOf(edges, u)
    ensures forall v :: Get(indeg, v) == Waiting(edges, v, {})
  {
    outgoing, indeg := map[], map[];
    for i := 0 to |nodes|
      invariant forall u :: u in outgoing <==> u in nodes[..i]
      invariant forall u :: u in outgoing ==> outgoing[u] == []
      invariant forall v :: v in indeg ==> indeg[v] == 0
    {
      outgoing := outgoing[nodes[i] := []];
      indeg := indeg[nodes[i] := 0];
    }
    for i := 0 to |edges|
      invariant forall u :: u in outgoing <==> u in nodes
      invariant forall u :: u in nodes ==> outgoing[u] == OutOf(edges[..i], u)
      invariant forall v :: Get(indeg, v) == Waiting(edges[..i], v, {})
    {
      var e := edges[i];
      assert edges[..i + 1][..i] == edges[..i];
      if e.0 in outgoing {
        outgoing := outgoing[e.0 := outgoing[e.0] + [e.1]];
      }
      indeg := indeg[e.1 := Get(indeg, e.1) + 1];
    }
    assert edges[..|edges|] == edges;
  }

  method Sources(nodes: seq<string>, edges: seq<Edge>, indeg: map<string, nat>) returns (queue: seq<string>)
    requires Distinct(nodes) && forall v :: Get(indeg, v) == Waiting(edges, v, {})
    ensures Distinct(queue) && forall v :: v in queue <==> v in nodes && Get(indeg, v) == 0
  {
    queue := [];
    for i := 0 to |nodes|
      invariant Distinct(queue) && forall v :: v in queue <==> v in nodes[..i] && Get(indeg, v) == 0
    {
      if Get(indeg, nodes[i]) == 0 {
        queue := queue + [nodes[i]];
      }
    }
  }

  lemma StartOk(nodes: seq<string>, edges: seq<Edge>, indeg: map<string, nat>, queue: seq<string>)
    requires forall v :: Get(indeg, v) == Waiting(edges, v, {})
    requires Distinct(queue) && forall v :: v in queue <==> v in nodes && Get(indeg, v) == 0
    ensures QueueOk(nodes, edges, [], queue, indeg) && Followed(nodes, []) == {}
  {
    assert [] + queue == queue && Followed(nodes, []) == {};
    forall v | Known(nodes, edges, v) && Get(indeg, v) == 0 ensures v in nodes {
      WaitingWitness(edges, v, {});
    }
  }

  ghost function KnownSet(nodes: seq<string>, edges: seq<Edge>): set<string> {
    (set v | v in nodes) + (set i | 0 <= i < |edges| :: edges[i].1)
  }

  lemma TakenIsBounded(nodes: seq<string>, edges: seq<Edge>, taken: seq<string>, queue: seq<string>,
                       remaining: map<string, nat>)
    requires QueueOk(nodes, edges, taken, queue, remaining)
    ensures |taken + queue| <= |KnownSet(nodes, edges)|
  {
    hide Waiting;
    forall i | 0 <= i < |taken + queue| ensures (taken + queue)[i] in KnownSet(nodes, edges) {
      var v := (taken + queue)[i];
      assert v in taken || v in queue;
      assert Known(nodes, edges, v);
    }
    DistinctFits(taken + queue, KnownSet(nodes, edges));
  }

  /** What the worklist establishes on every graph, cyclic ones included: it terminates, takes each
      node at most once, leaves only nodes that wait for an untaken source, and gives every node
      one more than the largest layer of its followed predecessors. */
  ghost predicate Layered(nodes: seq<string>, edges: seq<Edge>, taken: seq<string>, layer: map<string, nat>) {
    && Distinct(taken)
    && (forall v :: Known(nodes, edges, v) && v !in taken ==> Waiting(edges, v, Followed(nodes, taken)) > 0)
    && LayersOk(edges, Followed(nodes, taken), layer)
  }

  /** `layer` comes from some complete run of the worklist, whatever order it took the nodes in. */
  ghost predicate WorklistLayers(nodes: seq<string>, edges: seq<Edge>, layer: map<string, nat>) {
    exists taken :: Layered(nodes, edges, taken, layer)
  }

  /** `taken` lists the nodes in the order the queue gave them up. */
  method ComputeLayers(nodes: seq<string>, edges: seq<Edge>) returns (layer: map<string, nat>, ghost taken: seq<string>)
    requires Distinct(nodes)
    ensures Layered(nodes, edges, taken, layer) && WorklistLayers(nodes, edges, layer)
  {
    hide QueueOk, LayersOk, Relaxed, Waiting, OutOf, Known, KnownSet, Followed, Distinct;
    var outgoing, remaining := CountEdges(nodes, edges);
    var queue := Sources(nodes, edges, remaining);
    layer := ZeroLayers(nodes, edges);
    taken := [];
    StartOk(nodes, edges, remaining, queue);
    while |queue| > 0
      invariant QueueOk(nodes, edges, taken, queue, remaining) && LayersOk(edges, Followed(nodes, taken), layer)
      decreases |KnownSet(nodes, edges)| - |taken|
    {
      var id := queue[0];
      var base := Get(layer, id);
      var outs := if id in outgoing then outgoing[id] else [];
      assert outs == OutsOf(nodes, edges, id);
      TakenIsBounded(nodes, edges, taken, queue, remaining);
      OutsFit(nodes, edges, taken, queue, remaining);
      var layer', remaining', queue' := Relax(outs, base, layer, remaining, queue[1..]);
      ghost var pushed := queue'[|queue[1..]|..];
      QueueStep(nodes, edges, taken, queue, remaining, remaining', pushed, base, layer, layer');
      LayerStep(nodes, edges, taken, queue, remaining, remaining', pushed, layer, layer');
      assert queue' == queue[1..] + pushed;
      taken := taken + [id];
      layer, remaining, queue := layer', remaining', queue';
    }
    DrainedOk(nodes, edges, taken, remaining);
    assert Layered(nodes, edges, taken, layer);
  }

  lemma OutsFit(nodes: seq<string>, edges: seq<Edge>, taken: seq<string>, queue: seq<string>,
                remaining: map<string, nat>)
    requires QueueOk(nodes, edges, taken, queue, remaining) && queue != []
    ensures forall v :: v in OutsOf(nodes, edges, queue[0]) ==>
            multiset(OutsOf(nodes, edges, queue[0]))[v] <= Get(remaining, v)
  {
    hide Waiting, OutOf;
    TakeOne(nodes, edges, taken, queue, remaining);
  }

  lemma DrainedOk(nodes: seq<string>, edges: seq<Edge>, taken: seq<string>, remaining: map<string, nat>)
    requires QueueOk(nodes, edges, taken, [], remaining)
    ensures Distinct(taken)
    ensures forall v :: Known(nodes, edges, v) && v !in taken ==> Waiting(edges, v, Followed(nodes, taken)) > 0
  {
    hide Waiting, Known;
    assert taken + [] == taken;
  }

  method ZeroLayers(nodes: seq<string>, ghost edges: seq<Edge>) returns (layer: map<string, nat>)
    ensures LayersOk(edges, {}, layer)
  {
    layer := map[];
    for i := 0 to |nodes|
      invariant forall v :: v in layer ==> layer[v] == 0
    {
      layer := layer[nodes[i] := 0];
    }
  }

  // ---------- what the layers mean on an acyclic graph

  function EdgeSet(edges: seq<Edge>): Graph { set i | 0 <= i < |edges| :: edges[i] }

  /** Every edge joins listed nodes. */
  ghost predicate Closed(nodes: seq<string>, edges: seq<Edge>) {
    forall i :: 0 <= i < |edges| ==> edges[i].0 in nodes && edges[i].1 in nodes
  }

  lemma {:induction false} AllTaken(nodes: seq<string>, edges: seq<Edge>, taken: seq<string>, layer: map<string, nat>,
                                    rank: map<string, nat>, v: string)
    requires Layered(nodes, edges, taken, layer) && Closed(nodes, edges) && Ranked(EdgeSet(edges), rank) && v in nodes
    ensures v in taken
    decreases if v in rank then rank[v] + 1 else 0
  {
    if v !in taken {
      assert Known(nodes, edges, v);
      WaitingWitness(edges, v, Followed(nodes, taken));
      var i :| 0 <= i < |edges| && edges[i].1 == v && edges[i].0 !in Followed(nodes, taken);
      assert edges[i] in EdgeSet(edges);
      AllTaken(nodes, edges, taken, layer, rank, edges[i].0);
    }
  }

  /** The longest walk into `v` has exactly `n` edges. */
  ghost predicate LongestInto(g: Graph, v: string, n: nat) {
    && (exists p :: IsWalk(g, p) && p[|p| - 1] == v && |p| == n + 1)
    && (forall p :: IsWalk(g, p) && p[|p| - 1] == v ==> |p| <= n + 1)
  }

  ghost predicate Rising(edges: seq<Edge>, layer: map<string, nat>) {
    forall i :: 0 <= i < |edges| ==> Get(layer, edges[i].0) < Get(layer, edges[i].1)
  }

  lemma {:induction false} WalkBelow(edges: seq<Edge>, layer: map<string, nat>, p: seq<string>)
    requires Rising(edges, layer) && IsWalk(EdgeSet(edges), p)
    ensures |p| - 1 <= Get(layer, p[|p| - 1])
  {
    if |p| > 1 {
      var n := |p| - 1;
      WalkBelow(edges, layer, p[..n]);
      assert (p[n - 1], p[n]) in EdgeSet(edges);
    }
  }

  lemma {:induction false} WalkOfLayer(edges: seq<Edge>, done: set<string>, layer: map<string, nat>, v: string)
    returns (p: seq<string>)
    requires LayersOk(edges, done, layer)
    ensures IsWalk(EdgeSet(edges), p) && p[|p| - 1] == v && |p| == Get(layer, v) + 1
    decreases Get(layer, v)
  {
    if Get(layer, v) == 0 {
      p := [v];
    } else {
      assert HasTightEdge(edges, done, layer, v);
      var i :| 0 <= i < |edges| && edges[i].1 == v && edges[i].0 in done && Get(layer, v) == Get(layer, edges[i].0) + 1;
      var q := WalkOfLayer(edges, done, layer, edges[i].0);
      p := q + [v];
      assert edges[i] in EdgeSet(edges) && edges[i] == (q[|q| - 1], v);
    }
  }

  /** On an acyclic graph whose edges join listed nodes, every edge goes to a strictly higher layer
      and a node's layer is the length of the longest walk into it. */
  lemma LayersAreLongestPaths(nodes: seq<string>, edges: seq<Edge>, layer: map<string, nat>)
    requires WorklistLayers(nodes, edges, layer) && Closed(nodes, edges) && !HasCycle(EdgeSet(edges))
    ensures Rising(edges, layer)
    ensures forall v :: v in nodes ==> LongestInto(EdgeSet(edges), v, Get(layer, v))
  {
    hide HasCycle;
    var rank := AcyclicHasRank(EdgeSet(edges));
    var taken :| Layered(nodes, edges, taken, layer);
    var done := Followed(nodes, taken);
    forall v | v in nodes ensures v in done {
      AllTaken(nodes, edges, taken, layer, rank, v);
    }
    assert Rising(edges, layer);
    forall v | v in nodes ensures LongestInto(EdgeSet(edges), v, Get(layer, v)) {
      var p := WalkOfLayer(edges, done, layer, v);
      forall q | IsWalk(EdgeSet(edges), q) && q[|q| - 1] == v ensures |q| <= Get(layer, v) + 1 {
        WalkBelow(edges, layer, q);
      }
    }
  }
}
