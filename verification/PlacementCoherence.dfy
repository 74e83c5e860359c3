/** Status coherence: in every reachable state the placement fields are all set or all
    empty and agree with each other. */
module PlacementCoherence {
  import opened Prelude
  import opened InstanceNames
  import opened Scheduler
  import opened Streams
  import opened Placement

  ghost predicate Coherent(p: Pipeline) {
    var s := p.status;
    && (s.assignedCluster == "" <==> s.assignedInstance == "")
    && (s.assignedCluster == "" <==> s.streamID == "")
    && (s.assignedCluster == "" <==> s.streamActive.None?)
    && (s.assignedCluster != "" ==>
          && s.phase == Running && s.podName == "" && s.streamID == p.name
          && PlacedAt(s).Some? && 0 <= PlacedAt(s).value.ordinal < INT32_LIMIT
          && s.assignedInstance == InstanceName(s.assignedCluster, PlacedAt(s).value.ordinal))
  }

  /** No listed pod of the cluster has an ordinal of 2^31 or more (such an ordinal would
      wrap to a negative one). */
  ghost predicate PodsInRange(pods: seq<PodView>, c: string) {
    forall i :: 0 <= i < |pods| ==> var o := OrdinalFromPodName(pods[i].name, c); o.Some? ==> 0 <= o.value
  }

  ghost predicate OrdinalsInRange(w: World, env: Env) {
    var c := TargetCluster(w.pipe.spec);
    c.Some? && env.pods.Some? ==> PodsInRange(env.pods.value, c.value)
  }

  lemma ReadyInRange(pods: seq<PodView>, c: string, o: int)
    requires PodsInRange(pods, c) && o in ReadyOrdinals(pods, c)
    ensures 0 <= o < INT32_LIMIT
  {
    hide OrdinalFromPodName;
    ReadyOrdinalsAreReadyPods(pods, c, o);
  }

  lemma PlacedStatusIsCoherent(p: Pipeline, a: Addr, body: string, live: StatusRead)
    requires p.name != "" && a.cluster != "" && 0 <= a.ordinal < INT32_LIMIT
    ensures PlacedAt(PlacedStatus(p, a, body, live)) == Some(a)
    ensures Coherent(p.(status := PlacedStatus(p, a, body, live)))
  {
    OrdinalRoundTrip(a.cluster, a.ordinal);
  }

  /** A step of the reconciler that keeps the status coherent and the name fixed. */
  ghost predicate Keeps(w: World, o: Outcome) {
    Coherent(w.pipe) && w.pipe.name != "" ==> Coherent(o.world.pipe) && o.world.pipe.name == w.pipe.name
  }

  lemma DeployKeeps(w: World, a: Addr, body: string, env: Env)
    requires w.pipe.name != "" && a.cluster != "" && 0 <= a.ordinal < INT32_LIMIT
    ensures Keeps(w, Deploy(w, a, body, env))
  {
    hide PlacedStatus, NeedDeploy, EnsurePresent, Coherent, GiveUp, ReadStatus;
    var (t, outcome, n) := if NeedDeploy(w, a, body, env) then EnsurePresent(w.streams, a, w.pipe.name, body, env)
                           else (w.streams, Accepted(true), 0);
    if outcome.Rejected? {
      GiveUpKeeps(w.(streams := t), Failed, StreamConfigInvalid, Text(outcome.message), Done, env, n);
    } else if outcome.Accepted? {
      PlacedStatusIsCoherent(w.pipe, a, body, ReadStatus(t, a, w.pipe.name, env.conditionRead));
    }
  }

  lemma GiveUpKeeps(w: World, phase: Phase, reason: Reason, message: Message, otherwise: Result, env: Env, puts: nat)
    ensures Keeps(w, GiveUp(w, phase, reason, message, otherwise, env, puts))
  {
  }

  lemma PlaceOnKeeps(w: World, c: string, env: Env)
    requires w.pipe.name != "" && c != ""
    requires TargetCluster(w.pipe.spec) == Some(c) && OrdinalsInRange(w, env)
    ensures Keeps(w, PlaceOn(w, c, env))
  {
    hide Deploy, GiveUp, Coherent, OrdinalFromPodName, LoadMap, LeastLoaded, ReadyOrdinals, PodsInRange;
    if env.pods.Some? && env.pipelines.Some? {
      var ready := ReadyOrdinals(env.pods.value, c);
      var load := LoadMap(env.pipelines.value, c, w.pipe.name);
      var current := if w.pipe.status.assignedCluster == c then w.pipe.status.assignedInstance else "";
      var pick := PickInstance(current, c, ready, load);
      if pick.Some? && env.desired.Body? {
        ReadyInRange(env.pods.value, c, pick.value);
        DeployKeeps(w, Addr(c, pick.value), env.desired.text, env);
      } else {
        forall phase, reason, message, otherwise {
          GiveUpKeeps(w, phase, reason, message, otherwise, env, 0);
        }
      }
    }
  }

  lemma HandleClusterKeeps(w: World, c: string, env: Env)
    requires w.pipe.name != "" && c != ""
    requires TargetCluster(w.pipe.spec) == Some(c) && OrdinalsInRange(w, env)
    ensures Keeps(w, HandleCluster(w, c, env))
  {
    hide PlaceOn, GiveUp, Coherent;
    if env.clusterGet.Found? {
      PlaceOnKeeps(MigrateFrom(w.(ownPod := None), c, env), c, env);
    } else {
      GiveUpKeeps(w, Failed, ClusterNotFound, About(c), Resync, env, 0);
    }
  }

  lemma HandleStoppedKeeps(w: World, env: Env)
    ensures Keeps(w, HandleStopped(w, env))
  {
  }

  lemma HandleFallbackKeeps(w: World, env: Env)
    ensures Keeps(w, HandleFallback(w, env))
  {
  }

  lemma HandlePodKeeps(w: World, env: Env)
    requires w.pipe.status.assignedInstance == ""
    ensures Keeps(w, HandlePod(w, env))
  {
  }

  lemma HandleProjectKeeps(w: World, project: string, env: Env)
    requires w.pipe.name != "" && w.pipe.spec.projectRef == Some(project) && OrdinalsInRange(w, env)
    ensures Keeps(w, HandleProject(w, project, env))
  {
    hide HandleCluster, GiveUp, Coherent;
    GiveUpKeeps(w, Failed, ProjectNotFound, About(project), Done, env, 0);
    HandleClusterKeeps(w, project + "-cluster", env);
  }

  lemma ReconcileKeeps(w: World, env: Env)
    requires w.pipe.name != "" && OrdinalsInRange(w, env)
    ensures Keeps(w, Reconcile(w, env))
  {
    hide HandleCluster, HandleProject, HandleStopped, HandleFallback, HandlePod;
    HandleStoppedKeeps(w, env);
    HandleFallbackKeeps(w, env);
    if w.pipe.status.assignedInstance == "" {
      HandlePodKeeps(w, env);
    }
    if w.pipe.spec.projectRef.Some? {
      HandleProjectKeeps(w, w.pipe.spec.projectRef.value, env);
    } else if w.pipe.spec.clusterRef != "" {
      HandleClusterKeeps(w, w.pipe.spec.clusterRef, env);
    }
  }

  /** Coherence holds after every run of a fresh resource, whatever specs are set, calls
      fail, status writes are lost and instances lose streams. */
  lemma {:induction false} CoherentAlways(w: World, events: seq<Event>)
    requires Fresh(w) && Throughout(OrdinalsInRange, w, events)
    ensures Coherent(Run(w, events).pipe)
    ensures Run(w, events).pipe.name == w.pipe.name
  {
    FreshIsCoherent(w);
    hide Reconcile, OrdinalsInRange, Coherent, Fresh;
    if events != [] {
      var before := events[..|events| - 1];
      CoherentAlways(w, before);
      var e := events[|events| - 1];
      if e.Reconciled? {
        ReconcileKeeps(Run(w, before), e.env);
      } else {
        EventKeepsCoherent(Run(w, before), e);
      }
    }
  }

  lemma FreshIsCoherent(w: World)
    requires Fresh(w)
    ensures Coherent(w.pipe) && w.pipe.name != ""
  {
  }

  lemma EventKeepsCoherent(w: World, e: Event)
    requires Coherent(w.pipe) && !e.Reconciled?
    ensures Coherent(Next(w, e).pipe) && Next(w, e).pipe.name == w.pipe.name
  {
  }

  /** The delete paths silently skip an instance name they cannot read; in a coherent
      state that never happens: they skip exactly when nothing is assigned. */
  lemma DeletePathNeverSkips(w: World, events: seq<Event>)
    requires Fresh(w) && Throughout(OrdinalsInRange, w, events)
    ensures PlacedAt(Run(w, events).pipe.status).None? <==> Run(w, events).pipe.status.assignedInstance == ""
  {
    CoherentAlways(w, events);
  }
}
