/** The API's per-instance view of a cluster, and its agreement with the controller's load count. */
module Distribution {
  import opened Prelude
  import opened InstanceNames
  import opened Scheduler
  import Placement
  import PlacementCoherence

  datatype Instance = Instance(name: string, ordinal: int, ready: bool, pipelines: seq<string>)

  datatype StalePlacement = StalePlacement(pipeline: string, assignedInstance: string)

  datatype View = View(instances: seq<Instance>, stale: seq<StalePlacement>)

  /** The ordinal a pipeline's recorded instance reads as under the cluster. */
  function OrdinalOf(p: Placed, cluster: string): Option<int> {
    if p.assignedInstance == "" then None else OrdinalFromPodName(p.assignedInstance, cluster)
  }

  function NamesAt(pipes: seq<Placed>, cluster: string, o: int): seq<string> {
    if pipes == [] then []
    else
      var p := pipes[|pipes| - 1];
      NamesAt(pipes[..|pipes| - 1], cluster, o) + if OrdinalOf(p, cluster) == Some(o) then [p.name] else []
  }

  function StaleOf(pipes: seq<Placed>, cluster: string, replicas: int): seq<StalePlacement> {
    if pipes == [] then []
    else
      var p := pipes[|pipes| - 1];
      var o := OrdinalOf(p, cluster);
      StaleOf(pipes[..|pipes| - 1], cluster, replicas)
      + if o.Some? && o.value >= replicas then [StalePlacement(p.name, p.assignedInstance)] else []
  }

  /** The last listed pod with an ordinal decides whether that instance shows as ready. */
  function ReadyAt(pods: seq<PodView>, cluster: string, o: int): bool {
    if pods == [] then false
    else
      var p := pods[|pods| - 1];
      if OrdinalFromPodName(p.name, cluster) == Some(o) then p.ready else ReadyAt(pods[..|pods| - 1], cluster, o)
  }

  function AssignedAt(m: map<int, seq<string>>, o: int): seq<string> { if o in m then m[o] else [] }

  predicate StaleLe(a: StalePlacement, b: StalePlacement) { StringLe(a.pipeline, b.pipeline) }

  lemma StaleLeOrders()
    ensures TotalOrder(StaleLe)
  {
    StringLeOrders();
  }

  /** A slot of the view holds, sorted, exactly the pipelines recorded on that instance. */
  ghost predicate SlotOk(i: Instance, pods: seq<PodView>, pipes: seq<Placed>, cluster: string, o: int) {
    && i.name == InstanceName(cluster, o) && i.ordinal == o && i.ready == ReadyAt(pods, cluster, o)
    && multiset(i.pipelines) == multiset(NamesAt(pipes, cluster, o)) && SortedBy(StringLe, i.pipelines)
  }

  /** One slot per replica with the pipelines recorded on it, and the placements beyond the replicas. */
  ghost predicate Shows(v: View, pods: seq<PodView>, pipes: seq<Placed>, cluster: string, replicas: nat) {
    && |v.instances| == replicas && (forall o :: 0 <= o < replicas ==> SlotOk(v.instances[o], pods, pipes, cluster, o))
    && multiset(v.stale) == multiset(StaleOf(pipes, cluster, replicas)) && SortedBy(StaleLe, v.stale)
  }

  method AggregateDistribution(cluster: string, replicas: nat, pods: seq<PodView>, pipes: seq<Placed>) returns (v: View)
    ensures Shows(v, pods, pipes, cluster, replicas)
  {
    hide ReadyAt, NamesAt, InstanceName, StaleOf, StringLe, SortedBy, TotalOrder;
    var readyByOrdinal := ReadyMap(cluster, pods);
    var byOrdinal, stale := CollectPlacements(cluster, replicas, pipes);
    var instances := [];
    StringLeOrders();
    for o := 0 to replicas
      invariant |instances| == o && forall k :: 0 <= k < o ==> SlotOk(instances[k], pods, pipes, cluster, k)
    {
      var names := Sort(StringLe, AssignedAt(byOrdinal, o));
      SortSorted(StringLe, AssignedAt(byOrdinal, o));
      instances := instances + [Instance(InstanceName(cluster, o), o, o in readyByOrdinal && readyByOrdinal[o], names)];
    }
    StaleLeOrders();
    SortSorted(StaleLe, stale);
    v := View(instances, Sort(StaleLe, stale));
  }

  method ReadyMap(cluster: string, pods: seq<PodView>) returns (readyByOrdinal: map<int, bool>)
    ensures forall o :: (o in readyByOrdinal && readyByOrdinal[o]) <==> ReadyAt(pods, cluster, o)
  {
    hide OrdinalFromPodName;
    readyByOrdinal := map[];
    for i := 0 to |pods|
      invariant forall o :: (o in readyByOrdinal && readyByOrdinal[o]) <==> ReadyAt(pods[..i], cluster, o)
    {
      assert pods[..i + 1][..i] == pods[..i];
      var o := OrdinalFromPodName(pods[i].name, cluster);
      if o.Some? {
        readyByOrdinal := readyByOrdinal[o.value := pods[i].ready];
      }
    }
    assert pods[..|pods|] == pods;
  }

  /** The loop has collected exactly the placements of the first pipelines. */
  ghost predicate Collected(pipes: seq<Placed>, cluster: string, replicas: nat, byOrdinal: map<int, seq<string>>,
                            stale: seq<StalePlacement>) {
    && (forall o :: o < replicas ==> AssignedAt(byOrdinal, o) == NamesAt(pipes, cluster, o))
    && stale == StaleOf(pipes, cluster, replicas)
  }

  function StaleEntry(stale: seq<StalePlacement>, p: Placed, cluster: string, replicas: nat): seq<StalePlacement> {
    var o := OrdinalOf(p, cluster);
    if o.Some? && o.value >= replicas then stale + [StalePlacement(p.name, p.assignedInstance)] else stale
  }

  function AssignEntry(byOrdinal: map<int, seq<string>>, p: Placed, cluster: string, replicas: nat): map<int,
      seq<string>> {
    var o := OrdinalOf(p, cluster);
    if o.Some? && o.value < replicas then byOrdinal[o.value := AssignedAt(byOrdinal, o.value) + [p.name]] else byOrdinal
  }

  lemma NothingCollected(cluster: string, replicas: nat)
    ensures Collected([], cluster, replicas, map[], [])
  {
  }

  lemma CollectNext(pipes: seq<Placed>, i: nat, cluster: string, replicas: nat, byOrdinal: map<int, seq<string>>,
                    stale: seq<StalePlacement>)
    requires i < |pipes| && Collected(pipes[..i], cluster, replicas, byOrdinal, stale)
    ensures Collected(pipes[..i + 1], cluster, replicas, AssignEntry(byOrdinal, pipes[i], cluster, replicas),
                      StaleEntry(stale, pipes[i], cluster, replicas))
  {
    hide OrdinalOf, NamesAt, StaleOf;
    var before, p := pipes[..i], pipes[i];
    assert pipes[..i + 1] == before + [p];
    StaleOfAppend(before, p, cluster, replicas);
    var byOrdinal' := AssignEntry(byOrdinal, p, cluster, replicas);
    forall o | o < replicas ensures AssignedAt(byOrdinal', o) == NamesAt(before + [p], cluster, o) {
      NamesAtAppend(before, p, cluster, o);
      assert AssignedAt(byOrdinal, o) == NamesAt(before, cluster, o);
      assert NamesAt(before, cluster, o) + [] == NamesAt(before, cluster, o);
    }
  }

  lemma StaleOfAppend(pipes: seq<Placed>, p: Placed, cluster: string, replicas: nat)
    ensures StaleOf(pipes + [p], cluster, replicas) ==
            StaleEntry(StaleOf(pipes, cluster, replicas), p, cluster, replicas)
  {
    hide OrdinalOf;
    assert (pipes + [p])[..|pipes|] == pipes;
  }

  method CollectPlacements(cluster: string, replicas: nat, pipes: seq<Placed>)
    returns (byOrdinal: map<int, seq<string>>, stale: seq<StalePlacement>)
    ensures Collected(pipes, cluster, replicas, byOrdinal, stale)
  {
    hide OrdinalFromPodName, Collected;
    byOrdinal, stale := map[], [];
    NothingCollected(cluster, replicas);
    for i := 0 to |pipes|
      invariant Collected(pipes[..i], cluster, replicas, byOrdinal, stale)
    {
      CollectNext(pipes, i, cluster, replicas, byOrdinal, stale);
      var inst := pipes[i].assignedInstance;
      if inst == "" { continue; }
      var ord := OrdinalFromPodName(inst, cluster);
      if ord.None? { continue; }
      if ord.value >= replicas {
        stale := stale + [StalePlacement(pipes[i].name, inst)];
        continue;
      }
      byOrdinal := byOrdinal[ord.value := AssignedAt(byOrdinal, ord.value) + [pipes[i].name]];
    }
    assert pipes[..|pipes|] == pipes;
  }

  // ---------- conservation

  lemma {:induction false} NoOccurrence(pipes: seq<Placed>, cluster: string, o: int, name: string)
    requires forall i :: 0 <= i < |pipes| ==> pipes[i].name != name
    ensures name !in NamesAt(pipes, cluster, o)
  {
    if pipes != [] {
      NoOccurrence(pipes[..|pipes| - 1], cluster, o, name);
    }
  }

  lemma {:induction false} OncePerSlot(pipes: seq<Placed>, cluster: string, o: int, i: nat)
    requires DistinctNames(pipes) && i < |pipes|
    ensures multiset(NamesAt(pipes, cluster, o))[pipes[i].name] ==
            if OrdinalOf(pipes[i], cluster) == Some(o) then 1 else 0
  {
    hide OrdinalOf;
    var n := |pipes| - 1;
    if i < n {
      OncePerSlot(pipes[..n], cluster, o, i);
    } else {
      NoOccurrence(pipes[..n], cluster, o, pipes[n].name);
    }
  }

  function StaleNames(s: seq<StalePlacement>): seq<string> {
    seq(|s|, i requires 0 <= i < |s| => s[i].pipeline)
  }

  lemma StaleAppend(s: seq<StalePlacement>, x: StalePlacement)
    ensures StaleNames(s + [x]) == StaleNames(s) + [x.pipeline]
  {
  }

  lemma {:induction false} NoStale(pipes: seq<Placed>, cluster: string, replicas: int, name: string)
    requires forall i :: 0 <= i < |pipes| ==> pipes[i].name != name
    ensures name !in StaleNames(StaleOf(pipes, cluster, replicas))
  {
    hide OrdinalOf;
    if pipes != [] {
      var n := |pipes| - 1;
      NoStale(pipes[..n], cluster, replicas, name);
      var before := StaleOf(pipes[..n], cluster, replicas);
      StaleAppend(before, StalePlacement(pipes[n].name, pipes[n].assignedInstance));
      hide StaleNames;
      assert before + [] == before;
    }
  }

  lemma {:induction false} OnceIfStale(pipes: seq<Placed>, cluster: string, replicas: int, i: nat)
    requires DistinctNames(pipes) && i < |pipes|
    ensures
      var o := OrdinalOf(pipes[i], cluster);
      multiset(StaleNames(StaleOf(pipes, cluster, replicas)))[pipes[i].name] ==
          if o.Some? && o.value >= replicas then 1 else 0
  {
    hide OrdinalOf, StaleOf, StaleNames;
    var n := |pipes| - 1;
    StaleNamesStep(pipes, cluster, replicas);
    if i < n {
      OnceIfStale(pipes[..n], cluster, replicas, i);
      assert pipes[n].name != pipes[i].name;
    } else {
      NoStale(pipes[..n], cluster, replicas, pipes[n].name);
    }
  }

  lemma StaleNamesStep(pipes: seq<Placed>, cluster: string, replicas: int)
    requires pipes != []
    ensures
      var n := |pipes| - 1;
      var o := OrdinalOf(pipes[n], cluster);
      StaleNames(StaleOf(pipes, cluster, replicas))
      == StaleNames(StaleOf(pipes[..n], cluster, replicas)) +
          if o.Some? && o.value >= replicas then [pipes[n].name] else []
  {
    var n := |pipes| - 1;
    var before := StaleOf(pipes[..n], cluster, replicas);
    StaleAppend(before, StalePlacement(pipes[n].name, pipes[n].assignedInstance));
    hide OrdinalOf, StaleNames;
    assert before + [] == before;
  }

  /** How often a name appears in all slots below `replicas`. */
  function SlotCount(pipes: seq<Placed>, cluster: string, replicas: nat, name: string): nat {
    if replicas == 0 then 0
    else SlotCount(pipes, cluster, replicas - 1, name) + multiset(NamesAt(pipes, cluster, replicas - 1))[name]
  }

  lemma {:induction false} SlotCountOf(pipes: seq<Placed>, cluster: string, replicas: nat, i: nat)
    requires DistinctNames(pipes) && i < |pipes|
    ensures
      var o := OrdinalOf(pipes[i], cluster);
      SlotCount(pipes, cluster, replicas, pipes[i].name) == if o.Some? && 0 <= o.value < replicas then 1 else 0
  {
    hide OrdinalOf, NamesAt, DistinctNames;
    if replicas > 0 {
      SlotCountOf(pipes, cluster, replicas - 1, i);
      OncePerSlot(pipes, cluster, replicas - 1, i);
    }
  }

  lemma StaleNamesConcat(s: seq<StalePlacement>, t: seq<StalePlacement>)
    ensures StaleNames(s + t) == StaleNames(s) + StaleNames(t)
  {
  }

  /** Taking one placement out of a list takes its name out of the names. */
  lemma TakeOut(s: seq<StalePlacement>, x: StalePlacement) returns (rest: seq<StalePlacement>)
    requires x in multiset(s)
    ensures |rest| == |s| - 1 && multiset(rest) == multiset(s) - multiset{x}
    ensures multiset(StaleNames(s)) == multiset(StaleNames(rest)) + multiset{x.pipeline}
  {
    hide StaleNames;
    var j :| 0 <= j < |s| && s[j] == x;
    var a, b := s[..j], s[j + 1..];
    assert s == a + [x] + b;
    StaleNamesConcat(a + [x], b);
    StaleAppend(a, x);
    StaleNamesConcat(a, b);
    rest := a + b;
  }

  /** The names of a rearranged list are rearranged. */
  lemma {:induction false} StaleNamesRearranged(s: seq<StalePlacement>, t: seq<StalePlacement>)
    requires multiset(s) == multiset(t)
    ensures multiset(StaleNames(s)) == multiset(StaleNames(t))
    decreases |s|
  {
    hide StaleNames;
    if s == [] {
      assert |t| == |multiset(t)|;
    } else {
      var x := s[0];
      assert x in multiset(s);
      var s' := TakeOut(s, x);
      var t' := TakeOut(t, x);
      StaleNamesRearranged(s', t');
    }
  }

  /** How often a name appears in the slots of a view. */
  function Shown(instances: seq<Instance>, name: string): nat {
    if instances == [] then 0
    else Shown(instances[..|instances| - 1], name) + multiset(instances[|instances| - 1].pipelines)[name]
  }

  lemma {:induction false} ShownIsSlotCount(v: View, pods: seq<PodView>, pipes: seq<Placed>, cluster: string,
                                            replicas: nat, k: nat, name: string)
    requires Shows(v, pods, pipes, cluster, replicas) && k <= replicas
    ensures Shown(v.instances[..k], name) == SlotCount(pipes, cluster, k, name)
  {
    hide NamesAt, StaleOf, InstanceName, ReadyAt, SortedBy;
    if k > 0 {
      ShownIsSlotCount(v, pods, pipes, cluster, replicas, k - 1, name);
      assert v.instances[..k][..k - 1] == v.instances[..k - 1];
      assert SlotOk(v.instances[k - 1], pods, pipes, cluster, k - 1);
    }
  }

  /** Conservation: in the view, every pipeline whose recorded instance reads as a non-negative ordinal
      appears exactly once, in its slot or among the stale placements; any other appears nowhere. */
  lemma AppearsExactlyOnce(v: View, pods: seq<PodView>, pipes: seq<Placed>, cluster: string, replicas: nat, i: nat)
    requires Shows(v, pods, pipes, cluster, replicas) && DistinctNames(pipes) && i < |pipes|
    ensures
      var o := OrdinalOf(pipes[i], cluster);
      var slots, stale := Shown(v.instances, pipes[i].name), multiset(StaleNames(v.stale))[pipes[i].name];
      && slots + stale == (if o.Some? && o.value >= 0 then 1 else 0)
      && (slots == 1 <==> o.Some? && 0 <= o.value < replicas)
      && (slots == 1 ==> pipes[i].name in v.instances[o.value].pipelines)
  {
    hide OrdinalOf, NamesAt, StaleOf, InstanceName, ReadyAt, SortedBy, StaleNames, DistinctNames, Shown, SlotCount;
    SlotCountOf(pipes, cluster, replicas, i);
    OnceIfStale(pipes, cluster, replicas, i);
    StaleNamesRearranged(v.stale, StaleOf(pipes, cluster, replicas));
    ShownIsSlotCount(v, pods, pipes, cluster, replicas, replicas, pipes[i].name);
    assert v.instances[..replicas] == v.instances;
    var o := OrdinalOf(pipes[i], cluster);
    if o.Some? && 0 <= o.value < replicas {
      OncePerSlot(pipes, cluster, o.value, i);
      assert SlotOk(v.instances[o.value], pods, pipes, cluster, o.value);
      assert multiset(v.instances[o.value].pipelines)[pipes[i].name] == 1;
    }
  }

  // ---------- agreement with the controller

  /** No two listed pods read as the same instance. */
  ghost predicate OneEach(pods: seq<PodView>, cluster: string) {
    forall i, j :: 0 <= i < j < |pods| && OrdinalFromPodName(pods[i].name, cluster).Some? ==>
      OrdinalFromPodName(pods[i].name, cluster) != OrdinalFromPodName(pods[j].name, cluster)
  }

  /** That is so for the pods of a stateful set: distinct names, each printed for an ordinal. */
  lemma PrintedOneEach(pods: seq<PodView>, cluster: string)
    requires forall i, j :: 0 <= i < j < |pods| ==> pods[i].name != pods[j].name
    requires forall i :: 0 <= i < |pods| ==>
             exists n: nat :: n < INT32_LIMIT && pods[i].name == InstanceName(cluster, n)
    ensures OneEach(pods, cluster)
  {
    hide InstanceName, OrdinalFromPodName;
    forall i, j | 0 <= i < j < |pods|
      ensures OrdinalFromPodName(pods[i].name, cluster) != OrdinalFromPodName(pods[j].name, cluster)
    {
      var n: nat :| n < INT32_LIMIT && pods[i].name == InstanceName(cluster, n);
      var m: nat :| m < INT32_LIMIT && pods[j].name == InstanceName(cluster, m);
      OrdinalRoundTrip(cluster, n);
      OrdinalRoundTrip(cluster, m);
    }
  }

  lemma {:induction false} ReadyAtMeans(pods: seq<PodView>, cluster: string, o: int)
    requires OneEach(pods, cluster)
    ensures ReadyAt(pods, cluster, o) <==> o in ReadyOrdinals(pods, cluster)
  {
    hide OrdinalFromPodName;
    if pods != [] {
      var n := |pods| - 1;
      ReadyAtMeans(pods[..n], cluster, o);
      ReadyStep(pods, cluster, o);
      if OrdinalFromPodName(pods[n].name, cluster) == Some(o) {
        NoneBefore(pods, cluster, o);
      }
    }
  }

  lemma NoneBefore(pods: seq<PodView>, cluster: string, o: int)
    requires OneEach(pods, cluster) && pods != [] && OrdinalFromPodName(pods[|pods| - 1].name, cluster) == Some(o)
    ensures o !in ReadyOrdinals(pods[..|pods| - 1], cluster)
  {
    hide OrdinalFromPodName;
    var n := |pods| - 1;
    ReadyOrdinalsAreReadyPods(pods[..n], cluster, o);
    assert forall i :: 0 <= i < n ==> pods[..n][i] == pods[i] && !IsReadyPod(pods[..n][i], cluster, o);
  }

  /** The view shows an instance as ready exactly when the controller would place pipelines on it. */
  lemma ReadyMeansEligible(v: View, pods: seq<PodView>, pipes: seq<Placed>, cluster: string, replicas: nat, o: nat)
    requires Shows(v, pods, pipes, cluster, replicas) && OneEach(pods, cluster) && o < replicas
    ensures v.instances[o].ready <==> o in ReadyOrdinals(pods, cluster)
    ensures v.instances[o].ordinal == o && v.instances[o].name == InstanceName(cluster, o)
  {
    hide NamesAt, StaleOf, InstanceName, ReadyAt, SortedBy, OneEach;
    ReadyAtMeans(pods, cluster, o);
    assert SlotOk(v.instances[o], pods, pipes, cluster, o);
  }

  /** A row of the pipeline list: its clusterRef and its recorded placement. */
  datatype Row = Row(clusterRef: string, placed: Placed)

  function PlacedOf(rows: seq<Row>): seq<Placed> {
    if rows == [] then [] else PlacedOf(rows[..|rows| - 1]) + [rows[|rows| - 1].placed]
  }

  /** The pipelines the API passes to the aggregation: declared for the cluster or placed on it. */
  function Belonging(rows: seq<Row>, cluster: string): seq<Placed> {
    if rows == [] then []
    else
      var r := rows[|rows| - 1];
      Belonging(rows[..|rows| - 1], cluster)
      + if r.clusterRef == cluster || r.placed.assignedCluster == cluster then [r.placed] else []
  }

  /** Placements as the reconciler records them, on clusters with valid names. */
  ghost predicate CoherentPlacement(p: Placed) {
    && (p.assignedCluster == "" <==> p.assignedInstance == "")
    && (p.assignedCluster != "" ==>
          && p.assignedCluster[|p.assignedCluster| - 1] != '-'
          && exists n: nat :: n < INT32_LIMIT && p.assignedInstance == InstanceName(p.assignedCluster, n))
  }

  lemma CoherentReads(p: Placed, cluster: string, o: int)
    requires CoherentPlacement(p)
    ensures OrdinalOf(p, cluster) == Some(o) <==> CountsOn(p, cluster, None, o)
  {
    if p.assignedCluster != "" {
      var n: nat :| n < INT32_LIMIT && p.assignedInstance == InstanceName(p.assignedCluster, n);
      ReadOnlyUnderOwnCluster(p.assignedCluster, n, cluster);
    }
  }

  lemma {:induction false} NamesAreLoad(rows: seq<Row>, cluster: string, o: int)
    requires forall i :: 0 <= i < |rows| ==> CoherentPlacement(rows[i].placed)
    ensures |NamesAt(Belonging(rows, cluster), cluster, o)| == Load(PlacedOf(rows), cluster, None, o)
  {
    if rows != [] {
      var n := |rows| - 1;
      NamesAreLoad(rows[..n], cluster, o);
      var before, p := Belonging(rows[..n], cluster), rows[n].placed;
      CoherentReads(p, cluster, o);
      CountsMeansBelongs(p, cluster, o);
      NamesAtAppend(before, p, cluster, o);
      LoadAppend(PlacedOf(rows[..n]), p, cluster, o);
      hide OrdinalOf, CountsOn, CoherentPlacement, NamesAt, Load;
      assert before + [] == before;
    }
  }

  /** The size of each slot of the view is the controller's load count with no pipeline excluded. */
  lemma SlotSizeIsLoad(v: View, pods: seq<PodView>, rows: seq<Row>, cluster: string, replicas: nat, o: nat)
    requires Shows(v, pods, Belonging(rows, cluster), cluster, replicas) && o < replicas
    requires forall i :: 0 <= i < |rows| ==> CoherentPlacement(rows[i].placed)
    ensures |v.instances[o].pipelines| == Load(PlacedOf(rows), cluster, None, o)
  {
    hide CoherentPlacement, NamesAt, StaleOf, InstanceName, ReadyAt, SortedBy, Load, Belonging, PlacedOf;
    NamesAreLoad(rows, cluster, o);
    assert SlotOk(v.instances[o], pods, Belonging(rows, cluster), cluster, o);
    SameElements(v.instances[o].pipelines, NamesAt(Belonging(rows, cluster), cluster, o));
  }

  lemma NamesAtAppend(pipes: seq<Placed>, p: Placed, cluster: string, o: int)
    ensures NamesAt(pipes + [p], cluster, o) == NamesAt(pipes, cluster, o) +
            if OrdinalOf(p, cluster) == Some(o) then [p.name] else []
  {
    hide OrdinalOf;
    assert (pipes + [p])[..|pipes|] == pipes;
  }

  lemma LoadAppend(pipes: seq<Placed>, p: Placed, cluster: string, o: int)
    ensures Load(pipes + [p], cluster, None, o) == Load(pipes, cluster, None, o) +
            if CountsOn(p, cluster, None, o) then 1 else 0
  {
    hide CountsOn;
    assert (pipes + [p])[..|pipes|] == pipes;
  }

  lemma CountsMeansBelongs(p: Placed, cluster: string, o: int)
    ensures CountsOn(p, cluster, None, o) ==> p.assignedCluster == cluster
  {
  }

  /** The statuses the reconciler writes are coherent placements, once the cluster's name is valid. */
  lemma ReachableIsCoherent(w: Placement.World, events: seq<Placement.Event>)
    requires Placement.Fresh(w) && Placement.Throughout(PlacementCoherence.OrdinalsInRange, w, events)
    requires
      var c := Placement.Run(w, events).pipe.status.assignedCluster;
      c != "" ==> c[|c| - 1] != '-'
    ensures
      var p := Placement.Run(w, events).pipe;
      CoherentPlacement(Placed(p.name, p.status.assignedCluster, p.status.assignedInstance))
  {
    hide InstanceName, OrdinalFromPodName, Placement.Run, Placement.Throughout, Placement.Fresh;
    PlacementCoherence.CoherentAlways(w, events);
    var s := Placement.Run(w, events).pipe.status;
    if s.assignedCluster != "" {
      var n: nat := Placement.PlacedAt(s).value.ordinal;
      assert n < INT32_LIMIT && s.assignedInstance == InstanceName(s.assignedCluster, n);
    }
  }
}
