/** Single holder: which instances carry the pipeline's stream, and exactly which
    reconciles can leave a stream behind that the status does not know about. */
module PlacementHolder {
  import opened Prelude
  import opened InstanceNames
  import opened Scheduler
  import opened Streams
  import opened Placement
  import opened PlacementCoherence
  import opened PlacementGuards

  ghost predicate NoHolder(w: World) {
    forall a :: !Holds(w, a)
  }

  /** Only the instance named in the status holds the stream; nothing holds it beside
      the pipeline's own pod or without the finalizer. */
  ghost predicate SingleHolder(w: World) {
    && (forall a :: Holds(w, a) ==> PlacedAt(w.pipe.status) == Some(a))
    && (w.ownPod.Some? || !w.pipe.finalizer ==> NoHolder(w))
  }

  // ---------- the three ways a reconcile loses track of a stream, by its guards

  /** The recorded instance holds the stream, and it is not on a cluster the reconcile migrates from. */
  predicate Stays(w: World) {
    PlacedAt(w.pipe.status).Some? && !Migrates(w) && Holds(w, PlacedAt(w.pipe.status).value)
  }

  /** The placement is cleared although the recorded instance keeps the stream: its project or
      cluster is gone, no instance is ready, there is no config, or the config is refused. */
  predicate Abandons(w: World, env: Env) {
    && env.statusWrite.Landed? && PlacedAt(w.pipe.status).Some?
    && (|| (GivesUp(w, env) && (Stays(w) || (ParentMissing(w, env) && Holds(w, PlacedAt(w.pipe.status).value))))
        || (Deploys(w, env) && Answer(w, env).Rejected?
            && if PlacedAt(w.pipe.status) == Some(Goal(w, env)) then GoalAfter(w, env).Some? else Stays(w)))
  }

  /** The pipeline is rescheduled within its cluster and the previous instance keeps the stream. */
  predicate LeavesBehind(w: World, env: Env) {
    && Deploys(w, env) && Answer(w, env).Accepted? && env.statusWrite.Landed?
    && Stays(w) && PlacedAt(w.pipe.status) != Some(Goal(w, env))
  }

  /** A deploy to an instance other than the recorded one leaves a stream there and is not recorded. */
  predicate DeploysUnrecorded(w: World, env: Env) {
    && Deploys(w, env) && !(Answer(w, env).Accepted? && env.statusWrite.Landed?)
    && PlacedAt(w.pipe.status) != Some(Goal(w, env)) && GoalAfter(w, env).Some?
  }

  predicate Leaks(w: World, env: Env) {
    Abandons(w, env) || LeavesBehind(w, env) || DeploysUnrecorded(w, env)
  }

  // ---------- one reconcile

  lemma UnplacedNowhere(p: Pipeline, phase: Phase, cond: Condition)
    ensures PlacedAt(UnplacedStatus(p, phase, cond)) == None
  {
  }

  lemma PlacedInCluster(s: Status)
    ensures PlacedAt(s).Some? ==> PlacedAt(s).value.cluster == s.assignedCluster
  {
    hide OrdinalFromPodName;
  }

  /** Where the stream is recorded after a deploying reconcile. */
  lemma RecordedAfter(w: World, env: Env)
    requires Deploys(w, env) && w.pipe.name != "" && OrdinalsInRange(w, env)
    ensures
      var answer, now := Answer(w, env), PlacedAt(Reconcile(w, env).world.pipe.status);
      now == if answer.Transient? || !env.statusWrite.Landed? then PlacedAt(w.pipe.status)
             else if answer.Rejected? then None
             else Some(Goal(w, env))
  {
    hide Reconcile, Answer, Goal, Puts, PlacedStatus, PlacedAt, PodsInRange, GoalAfter, ReadyOrdinals, UnplacedStatus;
    DeployPath(w, env);
    ReconcileDeploys(w, env);
    ReadyInRange(env.pods.value, Home(w), Goal(w, env).ordinal);
    forall live { PlacedStatusIsCoherent(w.pipe, Goal(w, env), env.desired.text, live); }
    forall phase, cond { UnplacedNowhere(w.pipe, phase, cond); }
  }

  /** Which instances hold the stream when an instance is chosen: the recorded one, if it stays. */
  lemma ClearedHolders(w: World, env: Env)
    requires SingleHolder(w) && (Migrates(w) ==> DeleteSucceeds(w.pipe.status, env))
    ensures forall a :: Holds(Cleared(w, env), a) <==> Stays(w) && PlacedAt(w.pipe.status) == Some(a)
  {
    hide Cleared, PlacedAt;
    ClearedKeeps(w, env);
    PlacedInCluster(w.pipe.status);
    var w1 := Cleared(w, env);
    forall a ensures Holds(w1, a) <==> Stays(w) && PlacedAt(w.pipe.status) == Some(a) {
      assert Holds(w1, a) ==> Holds(w, a);
      assert Stays(w) && PlacedAt(w.pipe.status) == Some(a) ==>
          Find(w1.streams, a, w.pipe.name) == Find(w.streams, a, w.pipe.name);
    }
  }

  lemma BranchesDisjoint(w: World, env: Env)
    ensures Deploys(w, env) ==> !GivesUp(w, env)
    ensures Deploys(w, env) || (GivesUp(w, env) && !ParentMissing(w, env)) ==>
              OnClusterPath(w) && ReachesChoice(w, env) && (Migrates(w) ==> DeleteSucceeds(w.pipe.status, env))
  {
    hide Choice, PlacedAt;
  }

  lemma DeployExact(w: World, env: Env)
    requires SingleHolder(w) && w.pipe.name != "" && OrdinalsInRange(w, env) && Deploys(w, env)
    ensures SingleHolder(Reconcile(w, env).world) <==> !Leaks(w, env)
  {
    hide Reconcile, Goal, Answer, GoalAfter, Cleared, PlacedAt, PlacedStatus, UnplacedStatus, OrdinalsInRange,
         ReachesChoice, Choice, Puts;
    ReconcileDeploys(w, env);
    RecordedAfter(w, env);
    BranchesDisjoint(w, env);
    ClearedHolders(w, env);
    ClearedKeeps(w, env);
    var end, a := Reconcile(w, env).world, Goal(w, env);
    assert end.ownPod.None? && end.pipe.finalizer && end.pipe.name == w.pipe.name;
    assert forall b :: b != a ==> (Holds(end, b) <==> Holds(Cleared(w, env), b));
    assert Holds(end, a) <==> GoalAfter(w, env).Some?;
    if Stays(w) {
      assert Holds(Cleared(w, env), PlacedAt(w.pipe.status).value);
    }
  }

  lemma GiveUpExact(w: World, env: Env)
    requires SingleHolder(w) && GivesUp(w, env)
    ensures SingleHolder(Reconcile(w, env).world) <==> !Leaks(w, env)
  {
    hide Reconcile, Cleared, PlacedAt, UnplacedStatus, ReachesChoice, Choice;
    GiveUpPath(w, env);
    BranchesDisjoint(w, env);
    var end := Reconcile(w, env).world;
    forall phase, cond { UnplacedNowhere(w.pipe, phase, cond); }
    if ParentMissing(w, env) {
      assert forall a :: Holds(end, a) <==> Holds(w, a);
    } else {
      ClearedHolders(w, env);
      ClearedKeeps(w, env);
      assert forall a :: Holds(end, a) <==> Holds(Cleared(w, env), a);
    }
  }

  /** Deleting the assigned stream keeps a single holder, and leaves none if it succeeds. */
  lemma DeleteAssignedHolders(w: World, env: Env)
    requires SingleHolder(w)
    ensures SingleHolder(DeleteAssigned(w, env))
    ensures DeleteSucceeds(w.pipe.status, env) ==> NoHolder(DeleteAssigned(w, env))
    ensures DeleteAssigned(w, env).pipe == w.pipe && DeleteAssigned(w, env).ownPod == w.ownPod
  {
  }

  lemma StopsShortHolders(w: World, env: Env)
    requires SingleHolder(w) && OnClusterPath(w) && !Deploys(w, env) && !GivesUp(w, env)
    ensures SingleHolder(Reconcile(w, env).world)
  {
    hide Reconcile, Deploys, GivesUp, DeleteAssigned;
    StopsShort(w, env);
    var w1 := w.(ownPod := None);
    assert forall a :: Holds(w1, a) <==> Holds(w, a);
    DeleteAssignedHolders(w1, env);
  }

  lemma HandleStoppedHolders(w: World, env: Env)
    requires SingleHolder(w)
    ensures SingleHolder(HandleStopped(w, env).world)
    ensures HandleStopped(w, env).result == Done ==>
            NoHolder(HandleStopped(w, env).world) && HandleStopped(w, env).world.ownPod.None?
  {
    hide DeleteAssigned;
    DeleteAssignedHolders(w, env);
    assert forall a :: Holds(HandleStopped(w, env).world, a) <==> Holds(DeleteAssigned(w, env), a);
  }

  lemma HandleFallbackHolders(w: World, env: Env)
    requires SingleHolder(w)
    ensures SingleHolder(HandleFallback(w, env).world)
    ensures HandleFallback(w, env).result == Requeue ==> NoHolder(HandleFallback(w, env).world)
  {
    hide DeleteAssigned;
    DeleteAssignedHolders(w, env);
    assert forall a :: Holds(HandleFallback(w, env).world, a) <==> Holds(DeleteAssigned(w, env), a);
  }

  lemma HandlePodHolders(w: World, env: Env)
    requires SingleHolder(w) && w.pipe.status.assignedInstance == ""
    ensures SingleHolder(HandlePod(w, env).world)
  {
    assert PlacedAt(w.pipe.status) == None;
    assert NoHolder(w);
    var o := HandlePod(w, env);
    assert o.world.streams == w.streams && o.world.pipe.name == w.pipe.name;
    assert NoHolder(o.world) by { assert forall a :: Holds(o.world, a) <==> Holds(w, a); }
  }

  /** A released pipeline has no holder. */
  lemma DeletionHolders(w: World, env: Env)
    requires SingleHolder(w) && w.pipe.deleting
    ensures SingleHolder(Reconcile(w, env).world)
    ensures Reconcile(w, env).result == Done ==>
            !Reconcile(w, env).world.pipe.finalizer && NoHolder(Reconcile(w, env).world)
  {
    hide HandleCluster, HandleProject, HandleStopped, HandleFallback, HandlePod, DeleteAssigned;
    DeleteAssignedHolders(w, env);
    if w.pipe.finalizer {
      assert forall a :: Holds(Reconcile(w, env).world, a) <==> Holds(DeleteAssigned(w, env), a);
    }
  }

  /** One reconcile from a state with a single holder keeps it exactly if it does not
      abandon, leave behind or fail to record a stream. */
  lemma ReconcileExact(w: World, env: Env)
    requires SingleHolder(w) && w.pipe.name != "" && OrdinalsInRange(w, env)
    ensures SingleHolder(Reconcile(w, env).world) <==> !Leaks(w, env)
  {
    if OnClusterPath(w) {
      hide Reconcile, SingleHolder, Leaks, OrdinalsInRange, GivesUp, Deploys;
      if Deploys(w, env) {
        DeployExact(w, env);
      } else if GivesUp(w, env) {
        GiveUpExact(w, env);
      } else {
        StopsShortHolders(w, env);
        assert !Leaks(w, env) by { NoBranchNoLeak(w, env); }
      }
    } else {
      hide HandleCluster, HandleProject, HandleStopped, HandleFallback, HandlePod, DeleteAssigned, OrdinalsInRange,
           SingleHolder, ReachesChoice, GivesUp;
      assert !Leaks(w, env) by { OffPathNoLeak(w, env); }
      if w.pipe.deleting {
        DeletionHolders(w, env);
      } else if !w.pipe.finalizer {
        FinalizerHolders(w);
      } else if w.pipe.spec.stopped {
        HandleStoppedHolders(w, env);
      } else if w.pipe.status.assignedInstance != "" {
        HandleFallbackHolders(w, env);
      } else {
        HandlePodHolders(w, env);
      }
    }
  }

  lemma FinalizerHolders(w: World)
    requires SingleHolder(w) && !w.pipe.finalizer
    ensures SingleHolder(w.(pipe := w.pipe.(finalizer := true)))
  {
    assert forall a :: Holds(w.(pipe := w.pipe.(finalizer := true)), a) <==> Holds(w, a);
  }

  lemma NoBranchNoLeak(w: World, env: Env)
    requires !Deploys(w, env) && !GivesUp(w, env)
    ensures !Leaks(w, env)
  {
  }

  lemma OffPathNoLeak(w: World, env: Env)
    requires !OnClusterPath(w)
    ensures !Leaks(w, env)
  {
  }

  // ---------- whole runs

  predicate NoLeak(w: World, env: Env) { !Leaks(w, env) }

  lemma EventKeepsSingleHolder(w: World, e: Event)
    requires SingleHolder(w) && !e.Reconciled?
    ensures SingleHolder(Next(w, e))
  {
    var w' := Next(w, e);
    assert forall a :: Holds(w', a) ==> Holds(w, a);
  }

  lemma FreshIsSingle(w: World)
    requires Fresh(w)
    ensures SingleHolder(w) && w.pipe.name != ""
  {
  }

  /** Over a whole run of a fresh resource: at every point the stream is held by no
      instance but the recorded one, if and only if no reconcile of the run leaks. */
  lemma {:induction false} SingleHolderAlways(w: World, events: seq<Event>)
    requires Fresh(w) && Throughout(OrdinalsInRange, w, events)
    ensures Always(SingleHolder, w, events) <==> Throughout(NoLeak, w, events)
  {
    hide Reconcile, SingleHolder, OrdinalsInRange, Leaks, Fresh;
    FreshIsSingle(w);
    if events != [] {
      var before := events[..|events| - 1];
      SingleHolderAlways(w, before);
      AlwaysSplit(SingleHolder, w, events);
      CoherentAlways(w, before);
      var e := events[|events| - 1];
      if Always(SingleHolder, w, before) {
        if e.Reconciled? {
          ReconcileExact(Run(w, before), e.env);
        } else {
          EventKeepsSingleHolder(Run(w, before), e);
        }
      }
    }
  }

  // ---------- conditions under which nothing leaks

  /** The exits that mark the pipeline Failed. */
  predicate FailedExit(w: World, env: Env) {
    || (OnClusterPath(w) && ParentMissing(w, env))
    || (ReachesChoice(w, env) && Choice(w, env).Some? && !env.desired.Body?)
    || (Deploys(w, env) && Answer(w, env).Rejected?)
  }

  /** Deploys that are issued land together with their status write, a placed pipeline meets no
      Failed exit, and an instance of its cluster that is not ready holds no stream. */
  ghost predicate Sheltered(w: World, env: Env) {
    && (Puts(w, env) ==> LastEnsure(env).Accepted? && env.statusWrite.Landed?)
    && (PlacedAt(w.pipe.status).Some? ==> !FailedExit(w, env))
    && (ReachesChoice(w, env) ==>
          forall a: Addr :: a.cluster == Home(w) && a.ordinal !in ReadyOrdinals(env.pods.value, Home(w)) ==>
              !Holds(w, a))
  }

  /** The chosen instance is the recorded one as long as that is ready. */
  lemma ChoiceSticks(w: World, env: Env)
    requires ReachesChoice(w, env) && PlacedAt(w.pipe.status).Some? && !Migrates(w)
    ensures PlacedAt(w.pipe.status).value.ordinal in ReadyOrdinals(env.pods.value, Home(w)) ==>
            Choice(w, env) == PlacedAt(w.pipe.status)
    ensures PlacedAt(w.pipe.status).value.cluster == Home(w)
    ensures Choice(w, env).None? ==> ReadyOrdinals(env.pods.value, Home(w)) == []
  {
    hide OrdinalFromPodName, LeastLoaded, LoadMap, ReadyOrdinals;
  }

  /** The three hypotheses together rule out every leak. */
  lemma ShelteredNeverLeaks(w: World, env: Env)
    requires SingleHolder(w) && Sheltered(w, env)
    ensures NoLeak(w, env)
  {
    hide ReachesChoice, Choice, PlacedAt, NeedDeploy, ReadyOrdinals, Recreates, LastEnsure, ParentMissing,
         OnClusterPath, Migrates;
    if ReachesChoice(w, env) && Stays(w) {
      ChoiceSticks(w, env);
    }
    if Deploys(w, env) && !Puts(w, env) && Holds(w, Goal(w, env)) {
      assert PlacedAt(w.pipe.status) == Some(Goal(w, env));
    }
  }

  lemma {:induction false} ShelteredRun(w: World, events: seq<Event>)
    requires Fresh(w) && Throughout(OrdinalsInRange, w, events) && Throughout(Sheltered, w, events)
    ensures SingleHolder(Run(w, events))
  {
    hide Reconcile, SingleHolder, OrdinalsInRange, Leaks, Fresh, Sheltered;
    FreshIsSingle(w);
    if events != [] {
      var before := events[..|events| - 1];
      ShelteredRun(w, before);
      CoherentAlways(w, before);
      var e := events[|events| - 1];
      if e.Reconciled? {
        ShelteredNeverLeaks(Run(w, before), e.env);
        ReconcileExact(Run(w, before), e.env);
      } else {
        EventKeepsSingleHolder(Run(w, before), e);
      }
    }
  }

  /** The promise of the placement machinery, on sheltered runs: at most one instance of
      any cluster holds the stream, it is the one in status, it never coexists with the
      pipeline's own pod, and none holds it once the pipeline is Stopped or released. */
  lemma OnePlaceAtATime(w: World, events: seq<Event>)
    requires Fresh(w) && Throughout(OrdinalsInRange, w, events) && Throughout(Sheltered, w, events)
    ensures
      var end := Run(w, events);
      && (forall a, b :: Holds(end, a) && Holds(end, b) ==> a == b)
      && (forall a :: Holds(end, a) ==>
            && end.pipe.status.assignedCluster == a.cluster
            && end.pipe.status.assignedInstance == InstanceName(a.cluster, a.ordinal)
            && end.pipe.status.streamID == w.pipe.name
            && end.ownPod.None?)
      && (end.pipe.status.phase == Stopped || !end.pipe.finalizer ==> NoHolder(end))
  {
    ShelteredRun(w, events);
    CoherentAlways(w, events);
  }
}
