/** Choosing a cluster instance for a pipeline: which instances are ready, how many
    pipelines each carries, and the greedy least-loaded choice. */
module Scheduler {
  import opened Prelude
  import opened InstanceNames

  datatype PodView = PodView(name: string, ready: bool)

  /** A pipeline's recorded placement (status.assignedCluster / assignedInstance). */
  datatype Placed = Placed(name: string, assignedCluster: string, assignedInstance: string)

  // ---------- ready instances

  function ReadyOrdinals(pods: seq<PodView>, clusterName: string): (r: seq<int>) {
    if pods == [] then []
    else
      var rest := ReadyOrdinals(pods[..|pods| - 1], clusterName);
      var p := pods[|pods| - 1];
      var o := OrdinalFromPodName(p.name, clusterName);
      if o.Some? && p.ready then rest + [o.value] else rest
  }

  method ListReadyOrdinals(pods: seq<PodView>, clusterName: string) returns (ready: seq<int>)
    ensures ready == ReadyOrdinals(pods, clusterName)
  {
    hide OrdinalFromPodName;
    ready := [];
    for i := 0 to |pods|
      invariant ready == ReadyOrdinals(pods[..i], clusterName)
    {
      assert pods[..i + 1][..i] == pods[..i];
      var o := OrdinalFromPodName(pods[i].name, clusterName);
      if o.None? { continue; }
      if pods[i].ready {
        ready := ready + [o.value];
      }
    }
    assert pods[..|pods|] == pods;
  }

  predicate IsReadyPod(p: PodView, clusterName: string, o: int) {
    p.ready && OrdinalFromPodName(p.name, clusterName) == Some(o)
  }

  lemma ReadyStep(pods: seq<PodView>, clusterName: string, o: int)
    requires pods != []
    ensures
      var n := |pods| - 1;
      o in ReadyOrdinals(pods, clusterName) <==>
        o in ReadyOrdinals(pods[..n], clusterName) || IsReadyPod(pods[n], clusterName, o)
  {
    hide OrdinalFromPodName;
  }

  lemma {:induction false} ReadyOrdinalsAreReadyPods(pods: seq<PodView>, clusterName: string, o: int)
    ensures o in ReadyOrdinals(pods, clusterName) <==>
            exists i :: 0 <= i < |pods| && IsReadyPod(pods[i], clusterName, o)
  {
    hide OrdinalFromPodName;
    if pods != [] {
      var n := |pods| - 1;
      ReadyOrdinalsAreReadyPods(pods[..n], clusterName, o);
      ReadyStep(pods, clusterName, o);
      hide IsReadyPod, ReadyOrdinals;
      assert forall i :: 0 <= i < n ==> pods[..n][i] == pods[i];
      if exists i :: 0 <= i < |pods| && IsReadyPod(pods[i], clusterName, o) {
        var i :| 0 <= i < |pods| && IsReadyPod(pods[i], clusterName, o);
        assert i < n ==> IsReadyPod(pods[..n][i], clusterName, o);
      }
      if exists i :: 0 <= i < n && IsReadyPod(pods[..n][i], clusterName, o) {
        var i :| 0 <= i < n && IsReadyPod(pods[..n][i], clusterName, o);
        assert IsReadyPod(pods[i], clusterName, o);
      }
    }
  }

  // ---------- load

  /** Go's map lookup: a missing key reads as zero. */
  function LoadOf(load: map<int, nat>, o: int): nat {
    if o in load then load[o] else 0
  }

  predicate CountsOn(p: Placed, clusterName: string, exclude: Option<string>, o: int) {
    && exclude != Some(p.name)
    && p.assignedCluster == clusterName
    && p.assignedInstance != ""
    && OrdinalFromPodName(p.assignedInstance, clusterName) == Some(o)
  }

  /** The number of pipelines recorded on instance `o` of a cluster. */
  function Load(pipes: seq<Placed>, clusterName: string, exclude: Option<string>, o: int): (n: nat) {
    if pipes == [] then 0
    else Load(pipes[..|pipes| - 1], clusterName, exclude, o)
         + if CountsOn(pipes[|pipes| - 1], clusterName, exclude, o) then 1 else 0
  }

  function CountIn(load: map<int, nat>, p: Placed, clusterName: string, exclude: string): (r: map<int, nat>) {
    if p.name == exclude || p.assignedCluster != clusterName || p.assignedInstance == "" then load
    else
      var o := OrdinalFromPodName(p.assignedInstance, clusterName);
      if o.Some? then load[o.value := LoadOf(load, o.value) + 1] else load
  }

  function LoadMap(pipes: seq<Placed>, clusterName: string, exclude: string): (load: map<int, nat>) {
    if pipes == [] then map[]
    else CountIn(LoadMap(pipes[..|pipes| - 1], clusterName, exclude), pipes[|pipes| - 1], clusterName, exclude)
  }

  lemma {:induction false} LoadMapCounts(pipes: seq<Placed>, clusterName: string, exclude: string, o: int)
    ensures LoadOf(LoadMap(pipes, clusterName, exclude), o) == Load(pipes, clusterName, Some(exclude), o)
  {
    hide OrdinalFromPodName;
    if pipes != [] {
      LoadMapCounts(pipes[..|pipes| - 1], clusterName, exclude, o);
    }
  }

  method LoadByOrdinal(pipes: seq<Placed>, clusterName: string, exclude: string) returns (load: map<int, nat>)
    ensures load == LoadMap(pipes, clusterName, exclude)
  {
    hide OrdinalFromPodName;
    load := map[];
    for i := 0 to |pipes|
      invariant load == LoadMap(pipes[..i], clusterName, exclude)
    {
      var p := pipes[i];
      assert LoadMap(pipes[..i + 1], clusterName, exclude) == CountIn(load, p, clusterName, exclude) by {
        assert pipes[..i + 1][..i] == pipes[..i];
      }
      if p.name == exclude || p.assignedCluster != clusterName || p.assignedInstance == "" { continue; }
      var o := OrdinalFromPodName(p.assignedInstance, clusterName);
      if o.Some? {
        load := load[o.value := LoadOf(load, o.value) + 1];
      }
    }
    assert pipes[..|pipes|] == pipes;
  }

  /** A pipeline's own recorded placement does not count when an instance is chosen for it. */
  lemma OwnPlacementIgnored(pipes: seq<Placed>, i: nat, own: Placed, clusterName: string, o: int)
    requires i < |pipes| && own.name == pipes[i].name
    ensures LoadOf(LoadMap(pipes[i := own], clusterName, own.name), o) ==
            LoadOf(LoadMap(pipes, clusterName, own.name), o)
  {
    hide LoadMap, LoadOf, Load, OrdinalFromPodName;
    LoadMapCounts(pipes[i := own], clusterName, own.name, o);
    LoadMapCounts(pipes, clusterName, own.name, o);
    LoadUpdate(pipes, i, own, clusterName, Some(own.name), o);
  }

  // ---------- the choice

  predicate Precedes(load: map<int, nat>, o: int, q: int) {
    LoadOf(load, o) < LoadOf(load, q) || (LoadOf(load, o) == LoadOf(load, q) && o <= q)
  }

  /** The lowest ordinal among the least loaded ready instances. */
  predicate IsLeastLoaded(ready: seq<int>, load: map<int, nat>, o: int) {
    && o in ready
    && forall q :: q in ready ==> Precedes(load, o, q)
  }

  function LeastLoaded(ready: seq<int>, load: map<int, nat>): (r: Option<int>)
    ensures r.None? <==> ready == []
    ensures r.Some? ==> IsLeastLoaded(ready, load, r.value)
  {
    if ready == [] then None
    else
      var x := ready[0];
      var rest := LeastLoaded(ready[1..], load);
      assert ready == [x] + ready[1..];
      if rest.None? then Some(x)
      else
        var y := rest.value;
        if Precedes(load, x, y) then Some(x) else rest
  }

  lemma LeastLoadedUnique(ready: seq<int>, load: map<int, nat>, o: int)
    requires IsLeastLoaded(ready, load, o)
    ensures LeastLoaded(ready, load) == Some(o)
  {
    var p := LeastLoaded(ready, load).value;
    assert p in ready && o in ready;
  }

  /** The source's own algorithm: sort a copy, then keep the first strict improvement. */
  method LeastLoadedInstance(ready: seq<int>, load: map<int, nat>) returns (r: Option<int>)
    ensures r == LeastLoaded(ready, load)
  {
    if |ready| == 0 { return None; }
    var sorted := Sort(IntLe, ready);
    SortSorted(IntLe, ready);
    SameElements(sorted, ready);
    assert forall j, k :: 0 <= j < k < |sorted| ==> sorted[j] <= sorted[k] by {
      assert forall j, k :: 0 <= j < k < |sorted| ==> IntLe(sorted[j], sorted[k]);
    }
    var best := sorted[0];
    var bestLoad := LoadOf(load, best);
    for i := 1 to |sorted|
      invariant best in ready && bestLoad == LoadOf(load, best) && best <= sorted[i - 1]
      invariant forall k :: 0 <= k < i ==> Precedes(load, best, sorted[k])
    {
      var o := sorted[i];
      assert o in ready;
      if LoadOf(load, o) < bestLoad {
        best, bestLoad := o, LoadOf(load, o);
      }
    }
    assert IsLeastLoaded(ready, load, best);
    LeastLoadedUnique(ready, load, best);
    r := Some(best);
  }

  /** Sticky placement: keep the current instance while it is ready. */
  function PickInstance(current: string, clusterName: string, ready: seq<int>, load: map<int, nat>): (r: Option<int>)
    ensures r.None? <==> ready == []
    ensures r.Some? ==> r.value in ready
  {
    var cur := OrdinalFromPodName(current, clusterName);
    if cur.Some? && cur.value in ready then cur else LeastLoaded(ready, load)
  }

  method ChooseInstance(current: string, clusterName: string, ready: seq<int>, load: map<int, nat>)
    returns (r: Option<int>)
    ensures r == PickInstance(current, clusterName, ready, load)
  {
    hide OrdinalFromPodName, LeastLoaded;
    var cur := OrdinalFromPodName(current, clusterName);
    if cur.Some? && cur.value in ready { return cur; }
    r := LeastLoadedInstance(ready, load);
  }

  // ---------- greedy balance

  /** One placement of the unplaced pipeline at index `i`, its status write landing. */
  function PlaceOne(pipes: seq<Placed>, i: nat, clusterName: string, ready: seq<int>): (r: seq<Placed>)
    requires i < |pipes| && pipes[i].assignedInstance == "" && ready != []
    ensures |r| == |pipes|
  {
    var o := PickInstance("", clusterName, ready, LoadMap(pipes, clusterName, pipes[i].name)).value;
    pipes[i := Placed(pipes[i].name, clusterName, InstanceName(clusterName, o))]
  }

  /** Placing the pipelines at the indices `order` one after the other; an index whose
      pipeline is already placed is skipped. */
  function PlaceAll(pipes: seq<Placed>, order: seq<nat>, clusterName: string, ready: seq<int>): (r: seq<Placed>)
    requires ready != []
    ensures |r| == |pipes|
  {
    if order == [] then pipes
    else
      var before := PlaceAll(pipes, order[..|order| - 1], clusterName, ready);
      var i := order[|order| - 1];
      if i < |before| && before[i].assignedInstance == "" then PlaceOne(before, i, clusterName, ready) else before
  }

  ghost predicate GapAtMost(pipes: seq<Placed>, clusterName: string, ready: seq<int>, g: nat) {
    forall o, q :: o in ready && q in ready ==>
      Load(pipes, clusterName, None, o) <= Load(pipes, clusterName, None, q) + g
  }

  ghost predicate DistinctNames(pipes: seq<Placed>) {
    forall i, j :: 0 <= i < j < |pipes| ==> pipes[i].name != pipes[j].name
  }

  lemma {:induction false} LoadUpdate(pipes: seq<Placed>, i: nat, p: Placed, clusterName: string,
                                      exclude: Option<string>, o: int)
    requires i < |pipes|
    ensures Load(pipes[i := p], clusterName, exclude, o)
         == Load(pipes, clusterName, exclude, o)
            - (if CountsOn(pipes[i], clusterName, exclude, o) then 1 else 0)
            + (if CountsOn(p, clusterName, exclude, o) then 1 else 0)
  {
    hide CountsOn;
    var n := |pipes| - 1;
    if i < n {
      LoadUpdate(pipes[..n], i, p, clusterName, exclude, o);
      assert pipes[i := p][..n] == pipes[..n][i := p];
    } else {
      assert pipes[i := p][..n] == pipes[..n];
    }
  }

  lemma {:induction false} ExcludingUnplaced(pipes: seq<Placed>, name: string, clusterName: string, o: int)
    requires forall k :: 0 <= k < |pipes| && pipes[k].name == name ==> pipes[k].assignedInstance == ""
    ensures Load(pipes, clusterName, Some(name), o) == Load(pipes, clusterName, None, o)
  {
    hide OrdinalFromPodName;
    if pipes != [] {
      ExcludingUnplaced(pipes[..|pipes| - 1], name, clusterName, o);
    }
  }

  lemma EmptyNameUnread(clusterName: string)
    ensures OrdinalFromPodName("", clusterName) == None
  {
    assert !(clusterName + "-" <= "");
  }

  lemma PlaceOneKeepsGap(pipes: seq<Placed>, i: nat, clusterName: string, ready: seq<int>, g: nat)
    requires i < |pipes| && pipes[i].assignedInstance == "" && ready != [] && DistinctNames(pipes)
    requires forall o :: o in ready ==> 0 <= o < INT32_LIMIT
    requires clusterName != ""
    requires GapAtMost(pipes, clusterName, ready, g) && g >= 1
    ensures GapAtMost(PlaceOne(pipes, i, clusterName, ready), clusterName, ready, g)
  {
    var load := LoadMap(pipes, clusterName, pipes[i].name);
    EmptyNameUnread(clusterName);
    var o := LeastLoaded(ready, load).value;
    var placed := Placed(pipes[i].name, clusterName, InstanceName(clusterName, o));
    OrdinalRoundTrip(clusterName, o);
    assert InstanceName(clusterName, o) != "";
    hide OrdinalFromPodName, InstanceName, LeastLoaded, LoadMap, Load;
    forall q ensures LoadOf(load, q) == Load(pipes, clusterName, None, q)
                  && Load(pipes[i := placed], clusterName, None, q) == Load(pipes, clusterName, None, q) +
                      if q == o then 1 else 0 {
      LoadMapCounts(pipes, clusterName, pipes[i].name, q);
      ExcludingUnplaced(pipes, pipes[i].name, clusterName, q);
      LoadUpdate(pipes, i, placed, clusterName, None, q);
    }
  }

  /** Greedy placement never widens the gap between the fullest and the emptiest ready
      instance beyond max(initial gap, 1), however many pipelines are placed. */
  lemma {:induction false} GreedyBalance(pipes: seq<Placed>, order: seq<nat>, clusterName: string, ready: seq<int>,
                                         g: nat)
    requires ready != [] && DistinctNames(pipes) && clusterName != ""
    requires forall o :: o in ready ==> 0 <= o < INT32_LIMIT
    requires GapAtMost(pipes, clusterName, ready, g)
    ensures GapAtMost(PlaceAll(pipes, order, clusterName, ready), clusterName, ready, if g < 1 then 1 else g)
    ensures DistinctNames(PlaceAll(pipes, order, clusterName, ready))
  {
    if order != [] {
      GreedyBalance(pipes, order[..|order| - 1], clusterName, ready, g);
      var before := PlaceAll(pipes, order[..|order| - 1], clusterName, ready);
      var i := order[|order| - 1];
      if i < |before| && before[i].assignedInstance == "" {
        PlaceOneKeepsGap(before, i, clusterName, ready, if g < 1 then 1 else g);
      }
    }
  }

  lemma {:induction false} NothingPlaced(pipes: seq<Placed>, clusterName: string, o: int)
    requires forall k :: 0 <= k < |pipes| ==> pipes[k].assignedInstance == ""
    ensures Load(pipes, clusterName, None, o) == 0
  {
    hide OrdinalFromPodName;
    if pipes != [] {
      NothingPlaced(pipes[..|pipes| - 1], clusterName, o);
    }
  }

  /** Starting from nothing placed, the loads of any two ready instances differ by at most one. */
  lemma BalancedFromEmpty(pipes: seq<Placed>, order: seq<nat>, clusterName: string, ready: seq<int>)
    requires ready != [] && DistinctNames(pipes) && clusterName != ""
    requires forall o :: o in ready ==> 0 <= o < INT32_LIMIT
    requires forall k :: 0 <= k < |pipes| ==> pipes[k].assignedInstance == ""
    ensures GapAtMost(PlaceAll(pipes, order, clusterName, ready), clusterName, ready, 1)
  {
    forall o ensures Load(pipes, clusterName, None, o) == 0 {
      NothingPlaced(pipes, clusterName, o);
    }
    GreedyBalance(pipes, order, clusterName, ready, 0);
  }
}
