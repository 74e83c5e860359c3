/** Convergence: with a fixed spec and all calls succeeding, three reconciles settle the stream on
    a ready instance and later ones change nothing, exactly unless the recorded hash misleads
    the gate about what the chosen instance runs. */
module PlacementConvergence {
  import opened Prelude
  import opened InstanceNames
  import opened Scheduler
  import opened Streams
  import opened Placement
  import opened PlacementCoherence
  import opened PlacementGuards
  import opened PlacementGate

  /** All calls of a reconcile succeed; `pods` is what the cluster lists and `body` the
      rendered config. The list of other pipelines is arbitrary. */
  ghost predicate Calm(env: Env, pods: seq<PodView>, body: string) {
    && env.finalizerUpdate && env.projectGet.Found? && env.clusterGet.Found?
    && env.podDelete && env.configDelete && env.monitorDelete && env.streamDelete.Deleted?
    && env.pods == Some(pods) && env.pipelines.Some? && env.desired == Body(body)
    && env.gateRead.Answered? && env.ensure == Accepted(true) && env.verifyRead.Answered?
    && env.conditionRead.Answered? && env.statusWrite.Landed?
  }

  /** An unstopped pipeline that belongs on cluster `c`. */
  ghost predicate Wanted(p: Pipeline, c: string) {
    p.name != "" && !p.deleting && !p.spec.stopped && TargetCluster(p.spec) == Some(c) && c != "" && '\0' !in c
  }

  /** The cluster lists pods with ordinals in range, and at least one is ready. */
  ghost predicate HasRoom(pods: seq<PodView>, c: string) { PodsInRange(pods, c) && ReadyOrdinals(pods, c) != [] }

  /** The status records `body` on `a` with `cond`, and `a` runs `running`. */
  ghost predicate PlacedRunning(w: World, a: Addr, body: string, running: string, cond: Condition) {
    var instance := InstanceName(a.cluster, a.ordinal);
    && w.ownPod.None? && w.pipe.finalizer
    && Find(w.streams, a, w.pipe.name) == Some(Stream(running, true))
    && w.pipe.status == Status(Running, "", a.cluster, instance, w.pipe.name, HashAt(a, body), w.pipe.generation,
                               Some(cond), Some(Condition(Yes, StreamRunning, Fixed)))
  }

  function SettledCondition(a: Addr): Condition {
    Condition(Yes, Assigned, RunningOn(InstanceName(a.cluster, a.ordinal)))
  }

  /** The stream runs the desired config on `a` and the status says so. */
  ghost predicate Settled(w: World, a: Addr, body: string) {
    PlacedRunning(w, a, body, body, SettledCondition(a))
  }

  /** The recorded hash is that of the desired config on `a`, but `a` runs another one. */
  ghost predicate Misled(w: World, a: Addr, body: string) {
    && w.pipe.status.streamConfigHash == HashAt(a, body)
    && Find(w.streams, a, w.pipe.name).Some?
    && Find(w.streams, a, w.pipe.name).value.active && Find(w.streams, a, w.pipe.name).value.body != body
  }

  function Reconciles(w: World, envs: seq<Env>): World {
    if envs == [] then w else Reconcile(Reconciles(w, envs[..|envs| - 1]), envs[|envs| - 1]).world
  }

  /** What `a` runs after a calm deploy to it. */
  ghost function Runs(w: World, a: Addr, body: string): string {
    if Misled(w, a, body) then Find(w.streams, a, w.pipe.name).value.body else body
  }

  // ---------- one calm reconcile

  lemma CalmDeploys(w: World, c: string, pods: seq<PodView>, body: string, env: Env)
    requires Calm(env, pods, body) && Wanted(w.pipe, c) && w.pipe.finalizer && HasRoom(pods, c)
    ensures Deploys(w, env) && Home(w) == c
    ensures Goal(w, env).cluster == c && Goal(w, env).ordinal in ReadyOrdinals(pods, c) && Named(Goal(w, env))
  {
    hide LeastLoaded, LoadMap, ReadyOrdinals, OrdinalFromPodName, PodsInRange;
    ReadyInRange(pods, c, Goal(w, env).ordinal);
  }

  /** With its finalizer set, one calm reconcile records the pipeline on the chosen instance, and
      that instance runs the desired config unless the gate was misled. */
  lemma CalmReconcile(w: World, c: string, pods: seq<PodView>, body: string, env: Env)
    requires Calm(env, pods, body) && Wanted(w.pipe, c) && w.pipe.finalizer && HasRoom(pods, c)
    ensures Deploys(w, env)
    ensures
      var o, a := Reconcile(w, env), Goal(w, env);
      && o.world.pipe == w.pipe.(status := o.world.pipe.status)
      && PlacedRunning(o.world, a, body, Runs(w, a, body), PlacedStatus(w.pipe, a, body, Read(true)).ready.value)
  {
    hide Reconcile, Choice, ReachesChoice, HasRoom, Deploy, Cleared;
    CalmDeploys(w, c, pods, body, env);
    DeployPath(w, env);
    ClearedKeeps(w, env);
    CalmDeploy(Cleared(w, env), Goal(w, env), pods, body, env);
  }

  lemma CalmDeploy(w: World, a: Addr, pods: seq<PodView>, body: string, env: Env)
    requires Calm(env, pods, body) && w.ownPod.None? && w.pipe.finalizer
    ensures
      var o := Deploy(w, a, body, env);
      && o.world.pipe == w.pipe.(status := o.world.pipe.status)
      && PlacedRunning(o.world, a, body, Runs(w, a, body), PlacedStatus(w.pipe, a, body, Read(true)).ready.value)
  {
    hide InstanceName;
  }

  /** A recorded placement on a ready instance is kept. */
  lemma CalmChoice(w: World, a: Addr, pods: seq<PodView>, body: string, env: Env)
    requires Calm(env, pods, body) && Wanted(w.pipe, a.cluster) && w.pipe.finalizer && HasRoom(pods, a.cluster) &&
             Named(a)
    requires w.pipe.status.assignedCluster == a.cluster &&
             w.pipe.status.assignedInstance == InstanceName(a.cluster, a.ordinal)
    requires a.ordinal in ReadyOrdinals(pods, a.cluster)
    ensures Deploys(w, env) && Goal(w, env) == a
  {
    hide LeastLoaded, LoadMap, ReadyOrdinals, OrdinalFromPodName, PodsInRange, InstanceName;
    CalmDeploys(w, a.cluster, pods, body, env);
    OrdinalRoundTrip(a.cluster, a.ordinal);
  }

  /** Once placed, the next calm reconcile settles the recorded reason on the same instance and
      leaves what runs there. */
  lemma PlacedSettles(w: World, a: Addr, running: string, cond: Condition, pods: seq<PodView>, body: string, env: Env)
    requires Calm(env, pods, body) && Wanted(w.pipe, a.cluster) && PlacedRunning(w, a, body, running, cond) && Named(a)
    requires HasRoom(pods, a.cluster) && a.ordinal in ReadyOrdinals(pods, a.cluster)
    ensures Reconcile(w, env).world.pipe == w.pipe.(status := Reconcile(w, env).world.pipe.status)
    ensures PlacedRunning(Reconcile(w, env).world, a, body, running, SettledCondition(a))
  {
    hide Reconcile, InstanceName, HashAt, HasRoom, Choice, ReachesChoice;
    CalmChoice(w, a, pods, body, env);
    CalmReconcile(w, a.cluster, pods, body, env);
  }

  /** A pipeline with a settled status is a fixed point: no PUT, no status write, no move. */
  lemma SettledStays(w: World, a: Addr, running: string, pods: seq<PodView>, body: string, env: Env)
    requires Calm(env, pods, body) && Wanted(w.pipe, a.cluster) &&
             PlacedRunning(w, a, body, running, SettledCondition(a)) && Named(a)
    requires HasRoom(pods, a.cluster) && a.ordinal in ReadyOrdinals(pods, a.cluster)
    ensures Reconcile(w, env).world == w && Reconcile(w, env).puts == 0 && Reconcile(w, env).statusWrites == 0
  {
    hide Reconcile, InstanceName, HasRoom, Choice, ReachesChoice, StreamConfigHash, EnsurePresent;
    CalmChoice(w, a, pods, body, env);
    DeployPath(w, env);
    assert Cleared(w, env) == w by { assert w.(ownPod := None) == w; }
    assert !NeedDeploy(w, a, body, env) by {
      assert HashAt(a, body) == StreamConfigHash(InstanceName(a.cluster, a.ordinal), body);
    }
    assert w.(streams := w.streams) == w;
  }

  // ---------- three reconciles

  /** The reconcile that places: the first, or the one after the finalizer is set. */
  function Placing(w: World, envs: seq<Env>): Env
    requires |envs| >= 2
  {
    if w.pipe.finalizer then envs[0] else envs[1]
  }

  lemma SetFinalizer(w: World, pods: seq<PodView>, body: string, env: Env)
    requires Calm(env, pods, body) && !w.pipe.finalizer && !w.pipe.deleting
    ensures Reconcile(w, env).world == w.(pipe := w.pipe.(finalizer := true))
  {
  }

  /** The instance the placing reconcile chooses; the finalizer does not matter to it. */
  ghost function Destination(w: World, envs: seq<Env>): (a: Addr)
    requires |envs| >= 2 && Deploys(w.(pipe := w.pipe.(finalizer := true)), Placing(w, envs))
  {
    Goal(w.(pipe := w.pipe.(finalizer := true)), Placing(w, envs))
  }

  ghost predicate AllCalm(envs: seq<Env>, pods: seq<PodView>, body: string) {
    forall i :: 0 <= i < |envs| ==> Calm(envs[i], pods, body)
  }

  lemma HasDestination(w: World, c: string, pods: seq<PodView>, body: string, envs: seq<Env>)
    requires |envs| >= 2 && AllCalm(envs, pods, body) && Wanted(w.pipe, c) && HasRoom(pods, c)
    ensures Deploys(w.(pipe := w.pipe.(finalizer := true)), Placing(w, envs))
    ensures
      var a := Destination(w, envs);
      a.cluster == c && a.ordinal in ReadyOrdinals(pods, c) && Named(a)
  {
    hide Deploys, Goal, HasRoom;
    CalmDeploys(w.(pipe := w.pipe.(finalizer := true)), c, pods, body, Placing(w, envs));
  }

  /** Two calm reconciles record the pipeline on its destination. */
  lemma TwoPlace(w: World, c: string, pods: seq<PodView>, body: string, envs: seq<Env>) returns (cond: Condition)
    requires |envs| >= 2 && AllCalm(envs, pods, body) && Wanted(w.pipe, c) && HasRoom(pods, c)
    requires Deploys(w.(pipe := w.pipe.(finalizer := true)), Placing(w, envs))
    ensures
      var w2 := Reconcile(Reconcile(w, envs[0]).world, envs[1]).world;
      var a := Destination(w, envs);
      PlacedRunning(w2, a, body, Runs(w, a, body), cond) && Wanted(w2.pipe, c)
  {
    hide Reconcile, PlacedRunning, HasRoom, Deploys, Goal, HashAt;
    HasDestination(w, c, pods, body, envs);
    var a := Destination(w, envs);
    var w1 := Reconcile(w, envs[0]).world;
    if w.pipe.finalizer {
      assert w.(pipe := w.pipe.(finalizer := true)) == w;
      CalmReconcile(w, c, pods, body, envs[0]);
      cond := PlacedStatus(w.pipe, a, body, Read(true)).ready.value;
      PlacedSettles(w1, a, Runs(w, a, body), cond, pods, body, envs[1]);
      cond := SettledCondition(a);
    } else {
      SetFinalizer(w, pods, body, envs[0]);
      CalmReconcile(w1, c, pods, body, envs[1]);
      cond := PlacedStatus(w1.pipe, a, body, Read(true)).ready.value;
      assert Runs(w1, a, body) == Runs(w, a, body);
    }
  }

  /** Three calm reconciles settle the status on the destination and however many follow, the state
      stays that of the third; the destination then runs what `Runs` says. */
  lemma {:induction false} ThreeSettle(w: World, c: string, pods: seq<PodView>, body: string, envs: seq<Env>)
    requires |envs| >= 3 && AllCalm(envs, pods, body) && Wanted(w.pipe, c) && HasRoom(pods, c)
    requires Deploys(w.(pipe := w.pipe.(finalizer := true)), Placing(w, envs))
    ensures
      var a := Destination(w, envs);
      PlacedRunning(Reconciles(w, envs), a, body, Runs(w, a, body), SettledCondition(a))
    ensures Wanted(Reconciles(w, envs).pipe, c) && Reconciles(w, envs) == Reconciles(w, envs[..3])
    decreases |envs|
  {
    hide Reconcile, PlacedRunning, HasRoom, Deploys, Goal, HashAt, Runs;
    HasDestination(w, c, pods, body, envs);
    var a := Destination(w, envs);
    if |envs| == 3 {
      assert envs[..3] == envs;
      Unroll(w, envs);
      var cond := TwoPlace(w, c, pods, body, envs);
      var w2 := Reconcile(Reconcile(w, envs[0]).world, envs[1]).world;
      PlacedSettles(w2, a, Runs(w, a, body), cond, pods, body, envs[2]);
    } else {
      var before := envs[..|envs| - 1];
      assert before[..3] == envs[..3] && Placing(w, before) == Placing(w, envs);
      ThreeSettle(w, c, pods, body, before);
      SettledStays(Reconciles(w, before), a, Runs(w, a, body), pods, body, envs[|envs| - 1]);
    }
  }

  lemma Unroll(w: World, envs: seq<Env>)
    requires |envs| == 3
    ensures Reconciles(w, envs) == Reconcile(Reconcile(Reconcile(w, envs[0]).world, envs[1]).world, envs[2]).world
  {
    hide Reconcile;
    assert envs[..2][..1] == envs[..1] && envs[..1][..0] == [];
    assert envs[..2][1] == envs[1] && envs[..1][0] == envs[0];
    assert Reconciles(w, envs[..1]) == Reconcile(Reconciles(w, []), envs[0]).world;
    assert Reconciles(w, envs[..2]) == Reconcile(Reconciles(w, envs[..1]), envs[1]).world;
  }

  /** From every state of an unstopped cluster pipeline: three or more calm reconciles settle the
      desired config, and then on the destination, if and only if the start is not misled about
      what the destination runs. */
  lemma ConvergesExactly(w: World, c: string, pods: seq<PodView>, body: string, envs: seq<Env>)
    requires |envs| >= 3 && AllCalm(envs, pods, body) && Wanted(w.pipe, c) && HasRoom(pods, c)
    ensures Deploys(w.(pipe := w.pipe.(finalizer := true)), Placing(w, envs))
    ensures
      var a, end := Destination(w, envs), Reconciles(w, envs);
      && a.cluster == c && a.ordinal in ReadyOrdinals(pods, c)
      && (Settled(end, a, body) <==> !Misled(w, a, body))
      && ((exists b :: Named(b) && Settled(end, b, body)) <==> !Misled(w, a, body))
  {
    hide Reconcile, HasRoom, Deploys, Goal, HashAt, InstanceName, AllCalm;
    HasDestination(w, c, pods, body, envs);
    ThreeSettle(w, c, pods, body, envs);
    var a, end := Destination(w, envs), Reconciles(w, envs);
    forall b | Named(b) && Settled(end, b, body) ensures b == a {
      HashesAgree(a, body, b, body);
    }
  }

  /** Every further calm reconcile issues no PUT and no status write and moves nothing. */
  lemma QuietAfterwards(w: World, c: string, pods: seq<PodView>, body: string, envs: seq<Env>, more: Env)
    requires |envs| >= 3 && AllCalm(envs, pods, body) && Calm(more, pods, body) && Wanted(w.pipe, c) && HasRoom(pods, c)
    ensures
      var o := Reconcile(Reconciles(w, envs), more);
      o.world == Reconciles(w, envs) && o.puts == 0 && o.statusWrites == 0
  {
    hide Reconcile, PlacedRunning, Calm, HasRoom, Deploys, Goal, Runs;
    HasDestination(w, c, pods, body, envs);
    ThreeSettle(w, c, pods, body, envs);
    var a := Destination(w, envs);
    SettledStays(Reconciles(w, envs), a, Runs(w, a, body), pods, body, more);
  }

  /** In particular from every state reached by a run that never fooled the gate. */
  lemma ConvergesFromAnywhere(w: World, events: seq<Event>, c: string, pods: seq<PodView>, body: string, envs: seq<Env>)
    requires Fresh(w) && Throughout(OrdinalsInRange, w, events) && Throughout(ClusterNameValid, w, events)
    requires Throughout(NotFooled, w, events)
    requires |envs| >= 3 && AllCalm(envs, pods, body) && Wanted(Run(w, events).pipe, c) && HasRoom(pods, c)
    ensures exists a: Addr ::
              a.cluster == c && a.ordinal in ReadyOrdinals(pods, c) &&
                  Settled(Reconciles(Run(w, events), envs), a, body)
  {
    hide Reconcile, Calm, HasRoom, Deploys, Goal, Throughout, Fresh, Run, PlacedRunning;
    var start := Run(w, events);
    HashTruthfulAlways(w, events);
    HasDestination(start, c, pods, body, envs);
    ConvergesExactly(start, c, pods, body, envs);
    var a := Destination(start, envs);
    assert !Misled(start, a, body) by { assert Misled(start, a, body) ==> Holds(start, a); }
    assert a.cluster == c && Settled(Reconciles(start, envs), a, body);
  }
}
