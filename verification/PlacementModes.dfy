/** What a reconcile accomplishes when its calls succeed: the pipeline's own pod, a stop, a deletion
    and the way back from a cluster; and what each exit of the cluster path records. */
module PlacementModes {
  import opened Prelude
  import opened InstanceNames
  import opened Scheduler
  import opened Streams
  import opened Placement
  import opened PlacementGuards
  import opened PlacementHolder
  import opened PlacementGate
  import opened PlacementConvergence

  // ---------- the pipeline's own pod

  /** A pipeline that wants its own pod. */
  predicate OwnMode(p: Pipeline) {
    !p.deleting && !p.spec.stopped && p.spec.projectRef.None? && p.spec.clusterRef == ""
  }

  /** All calls succeed; the pod renders with hash `h` and shows as `phase` and `cond`. */
  predicate PodCalm(env: Env, h: string, phase: Phase, cond: Condition) {
    && env.finalizerUpdate && env.streamDelete.Deleted? && env.podDelete && env.statusWrite.Landed?
    && env.pod.render == Some(h) && env.pod.configApply && env.pod.podGet && env.pod.podApply && env.pod.monitorApply
    && env.pod.phase == phase && env.pod.condition == cond
  }

  /** The pod with hash `h` exists and the status describes it. */
  predicate PodRunning(w: World, h: string, phase: Phase, cond: Condition) {
    var s := w.pipe.status;
    && w.pipe.finalizer && w.ownPod == Some(h) && s.assignedInstance == ""
    && s.podName == w.pipe.name && s.phase == phase && s.ready == Some(cond) &&
        s.observedGeneration == w.pipe.generation
  }

  /** What still has to happen before the pod is created: finalizer, fallback, removal of a stale pod. */
  function Ahead(w: World, h: string): nat {
    if !w.pipe.finalizer then 3
    else if w.pipe.status.assignedInstance != "" then 2
    else if w.ownPod.Some? && w.ownPod != Some(h) then 1
    else 0
  }

  /** Everything but finalizer, status, pod and streams stays. */
  predicate SamePipeline(p: Pipeline, q: Pipeline) {
    p.name == q.name && p.generation == q.generation && p.spec == q.spec && p.deleting == q.deleting
  }

  lemma PodProgress(w: World, env: Env, h: string, phase: Phase, cond: Condition)
    requires OwnMode(w.pipe) && PodCalm(env, h, phase, cond)
    ensures
      var w' := Reconcile(w, env).world;
      SamePipeline(w.pipe, w'.pipe) && if Ahead(w, h) == 0 then PodRunning(w', h, phase, cond)
        else Ahead(w', h) < Ahead(w, h)
  {
    hide DeleteAssigned;
    DeleteAssignedOnlyRemoves(w, env);
  }

  ghost predicate AllPodCalm(envs: seq<Env>, h: string, phase: Phase, cond: Condition) {
    forall i :: 0 <= i < |envs| ==> PodCalm(envs[i], h, phase, cond)
  }

  /** Once the pod runs, further reconciles change nothing and write nothing. */
  lemma PodStays(w: World, env: Env, h: string, phase: Phase, cond: Condition)
    requires OwnMode(w.pipe) && PodCalm(env, h, phase, cond) && PodRunning(w, h, phase, cond)
    ensures Reconcile(w, env).world == w && Reconcile(w, env).statusWrites == 0 && Reconcile(w, env).result == Done
  {
    assert w.(ownPod := Some(h)) == w;
    assert PodStatus(w.pipe, env) == w.pipe.status;
  }

  lemma {:induction false} PodAdvances(w: World, envs: seq<Env>, h: string, phase: Phase, cond: Condition)
    requires OwnMode(w.pipe) && AllPodCalm(envs, h, phase, cond)
    ensures SamePipeline(w.pipe, Reconciles(w, envs).pipe)
    ensures PodRunning(Reconciles(w, envs), h, phase, cond) || Ahead(Reconciles(w, envs), h) + |envs| <= Ahead(w, h)
  {
    if envs != [] {
      hide Reconcile, PodCalm;
      var before, last := envs[..|envs| - 1], envs[|envs| - 1];
      PodAdvances(w, before, h, phase, cond);
      var mid := Reconciles(w, before);
      PodProgress(mid, last, h, phase, cond);
      if PodRunning(mid, h, phase, cond) {
        PodStays(mid, last, h, phase, cond);
      }
    }
  }

  lemma {:induction false} SingleHolderKept(w: World, envs: seq<Env>, h: string, phase: Phase, cond: Condition)
    requires OwnMode(w.pipe) && AllPodCalm(envs, h, phase, cond) && SingleHolder(w) && w.pipe.name != ""
    ensures SingleHolder(Reconciles(w, envs))
  {
    if envs != [] {
      hide Reconcile, SingleHolder, PodCalm;
      var before, last := envs[..|envs| - 1], envs[|envs| - 1];
      SingleHolderKept(w, before, h, phase, cond);
      PodAdvances(w, before, h, phase, cond);
      var mid := Reconciles(w, before);
      ReconcileExact(mid, last);
      OffPathNoLeak(mid, last);
    }
  }

  /** From every state of a pipeline that wants its own pod, four calm reconciles at most (finalizer,
      way back from a cluster, removal of a stale pod, creation) leave exactly the rendered pod, described
      by the status, and, from a single holder, no instance with the stream; any more change nothing. */
  lemma PodConverges(w: World, envs: seq<Env>, h: string, phase: Phase, cond: Condition, more: Env)
    requires OwnMode(w.pipe) && |envs| >= 4 && AllPodCalm(envs, h, phase, cond) && PodCalm(more, h, phase, cond)
    ensures
      var end := Reconciles(w, envs);
      && end.ownPod == Some(h) && end.pipe.finalizer && end.pipe.status.podName == w.pipe.name
      && end.pipe.status.phase == phase && end.pipe.status.ready == Some(cond)
      && end.pipe.status.observedGeneration == w.pipe.generation && end.pipe.status.assignedInstance == ""
      && (SingleHolder(w) && w.pipe.name != "" ==> NoHolder(end))
      && Reconcile(end, more).world == end && Reconcile(end, more).statusWrites == 0 &&
          Reconcile(end, more).result == Done
  {
    hide Reconcile, SingleHolder, NoHolder;
    PodAdvances(w, envs, h, phase, cond);
    var end := Reconciles(w, envs);
    PodStays(end, more, h, phase, cond);
    if SingleHolder(w) && w.pipe.name != "" {
      SingleHolderKept(w, envs, h, phase, cond);
      assert NoHolder(end) by { HolderBesidePod(end); }
    }
  }

  lemma HolderBesidePod(w: World)
    requires SingleHolder(w) && w.ownPod.Some?
    ensures NoHolder(w)
  {
  }

  /** A reconcile of such a pipeline that is Done has the rendered pod, whatever else failed before; one
      whose config does not render is Failed and leaves the pod alone. */
  lemma PodDone(w: World, env: Env)
    requires OwnMode(w.pipe) && Reconcile(w, env).result == Done
    ensures
      var o := Reconcile(w, env);
      var s := o.world.pipe.status;
      if env.pod.render.Some? then
        && o.world.ownPod == env.pod.render && s.podName == w.pipe.name && s.phase == env.pod.phase
        && env.pod.configApply && env.pod.podGet && env.pod.podApply && env.pod.monitorApply
      else o.world.ownPod == w.ownPod && s.phase == Failed
           && s.ready == Some(Condition(No, RenderError, Text(env.pod.renderMessage)))
  {
    hide DeleteAssigned;
  }

  // ---------- deletion, stop, fallback

  /** The first reconcile only sets the finalizer. */
  lemma FinalizerFirst(w: World, env: Env)
    requires !w.pipe.deleting && !w.pipe.finalizer && env.finalizerUpdate
    ensures Reconcile(w, env).world == w.(pipe := w.pipe.(finalizer := true)) && Reconcile(w, env).result == Requeue
  {
  }

  /** The recorded instance has lost the stream and nothing else changed on any instance. */
  ghost predicate OnlyAssignedDeleted(w: World, w': World) {
    forall a :: Find(w'.streams, a, w.pipe.name) ==
        if PlacedAt(w.pipe.status) == Some(a) then None else Find(w.streams, a, w.pipe.name)
  }

  lemma DeletedAssigned(w: World, env: Env)
    requires env.streamDelete.Deleted?
    ensures OnlyAssignedDeleted(w, DeleteAssigned(w, env))
    ensures DeleteAssigned(w, env).pipe == w.pipe && DeleteAssigned(w, env).ownPod == w.ownPod
  {
    hide PlacedAt;
  }

  /** A deletion whose calls succeed removes the stream and releases the resource. */
  lemma DeletionCompletes(w: World, env: Env)
    requires w.pipe.deleting && w.pipe.finalizer && env.streamDelete.Deleted? && env.finalizerUpdate
    ensures
      var o := Reconcile(w, env);
      && o.world.pipe == w.pipe.(finalizer := false) && o.world.ownPod == w.ownPod && o.result == Done
      && OnlyAssignedDeleted(w, o.world)
  {
    hide DeleteAssigned, OnlyAssignedDeleted, PlacedAt;
    DeletedAssigned(w, env);
    assert Reconcile(w, env).world.streams == DeleteAssigned(w, env).streams;
    SameTable(w, DeleteAssigned(w, env), Reconcile(w, env).world);
  }

  /** A failing call is never passed over: the resource is released, or recorded as Stopped or off its
      cluster, only after the recorded stream, and for a stop the pod, are deleted; otherwise the reconcile
      fails, to be tried again, with finalizer and status untouched. */
  lemma FailureHolds(w: World, env: Env)
    requires w.pipe.finalizer &&
             (w.pipe.deleting || w.pipe.spec.stopped || (OwnMode(w.pipe) && w.pipe.status.assignedInstance != ""))
    requires || (PlacedAt(w.pipe.status).Some? && !env.streamDelete.Deleted?)
             || (w.pipe.deleting && !env.finalizerUpdate)
             || (!w.pipe.deleting && w.pipe.spec.stopped && !env.podDelete)
    ensures Reconcile(w, env).world.pipe == w.pipe && Reconcile(w, env).result == Failure
  {
    hide DeleteAssigned, PlacedAt;
    DeleteAssignedOnlyRemoves(w, env);
  }

  lemma SameTable(w: World, a: World, b: World)
    requires OnlyAssignedDeleted(w, a) && a.streams == b.streams
    ensures OnlyAssignedDeleted(w, b)
  {
  }

  predicate StopCalm(env: Env) { env.streamDelete.Deleted? && env.podDelete && env.statusWrite.Landed? }

  /** A stop whose calls succeed removes stream and pod and records the pipeline as Stopped and nowhere;
      the deployed hash is kept. A second one changes nothing and writes nothing. */
  lemma StopCompletes(w: World, env: Env, again: Env)
    requires w.pipe.finalizer && !w.pipe.deleting && w.pipe.spec.stopped && StopCalm(env) && StopCalm(again)
    ensures
      var o := Reconcile(w, env);
      var s := o.world.pipe.status;
      && o.result == Done && o.world.ownPod.None? && OnlyAssignedDeleted(w, o.world)
      && o.world.pipe == w.pipe.(status := s)
      && s.phase == Stopped && s.podName == "" && s.assignedCluster == "" && s.assignedInstance == "" &&
          s.streamID == ""
      && s.streamActive.None? && s.observedGeneration == w.pipe.generation &&
          s.streamConfigHash == w.pipe.status.streamConfigHash
      && s.ready.Some? && s.ready.value.status == No && s.ready.value.reason == StoppedByUser
    ensures
      var o := Reconcile(w, env);
      Reconcile(o.world, again).world == o.world && Reconcile(o.world, again).statusWrites == 0
  {
    hide DeleteAssigned, OnlyAssignedDeleted, PlacedAt;
    DeletedAssigned(w, env);
    var w' := Reconcile(w, env).world;
    assert w'.streams == DeleteAssigned(w, env).streams;
    SameTable(w, DeleteAssigned(w, env), w');
    assert DeleteAssigned(w', again) == w' by { NothingAssigned(w', again); }
    assert w'.(ownPod := None) == w';
  }

  lemma NothingAssigned(w: World, env: Env)
    requires w.pipe.status.assignedInstance == ""
    ensures DeleteAssigned(w, env) == w && PlacedAt(w.pipe.status) == None
  {
  }

  /** Back from a cluster: the stream is removed and the placement cleared, and pod mode follows. */
  lemma FallbackCompletes(w: World, env: Env)
    requires w.pipe.finalizer && OwnMode(w.pipe) && w.pipe.status.assignedInstance != ""
    requires env.streamDelete.Deleted? && env.statusWrite.Landed?
    ensures
      var o := Reconcile(w, env);
      && o.result == Requeue && o.world.ownPod == w.ownPod && OnlyAssignedDeleted(w, o.world)
      && o.world.pipe == w.pipe.(status := w.pipe.status.(assignedCluster := "", assignedInstance := "", streamID := "",
                                                          streamActive := None))
  {
    hide DeleteAssigned, OnlyAssignedDeleted, PlacedAt;
    DeletedAssigned(w, env);
    SameTable(w, DeleteAssigned(w, env), Reconcile(w, env).world);
  }

  // ---------- the exits of the cluster path

  /** The status records a pipeline that is nowhere, as `phase` for `reason`. */
  predicate RecordedAs(o: Outcome, w: World, phase: Phase, reason: Reason, message: Message) {
    o.world.pipe.status ==
        Status(phase, "", "", "", "", "", w.pipe.generation, Some(Condition(No, reason, message)), None)
  }

  /** Which failure gives which phase, reason and retry, once the status write lands: a missing cluster and a
      cluster without ready instances are looked at again, everything else waits for a change. */
  lemma GiveUpExits(w: World, env: Env)
    requires OnClusterPath(w) && env.statusWrite.Landed?
    ensures
      var o, project := Reconcile(w, env), w.pipe.spec.projectRef;
      if project.Some? && env.projectGet.NotFound? then
        RecordedAs(o, w, Failed, ProjectNotFound, About(project.value)) && o.result == Done
      else if ProjectFound(w, env) && env.clusterGet.NotFound? then
        RecordedAs(o, w, Failed, ClusterNotFound, About(Home(w))) && o.result == Resync
      else if ReachesChoice(w, env) && Choice(w, env).None? then
        RecordedAs(o, w, Pending, ClusterNotReady, About(Home(w))) && o.result == Resync
      else if ReachesChoice(w, env) then
        match env.desired
        case RenderFails(m) => RecordedAs(o, w, Failed, RenderError, Text(m)) && o.result == Done
        case RewriteFails(m) => RecordedAs(o, w, Failed, RewriteError, Text(m)) && o.result == Done
        case SecretMissing(m) => RecordedAs(o, w, Failed, SecretNotFound, Text(m)) && o.result == Done
        case Body(_) => true
      else o.world.pipe == w.pipe && o.result == Failure
  {
    hide Deploy, LeastLoaded, LoadMap, ReadyOrdinals, OrdinalFromPodName, DeleteAssigned;
    ClearedKeeps(w, env);
    assert TargetCluster(w.pipe.spec) == Some(Home(w));
  }

  /** What the live status read says about the stream. */
  function ActiveFrom(live: Option<Stream>, read: ReadOutcome): Condition {
    if read.ReadFailed? then Condition(Unknown, StatusUnavailable, Text(read.message))
    else if live.None? then Condition(No, StreamMissing, Fixed)
    else if live.value.active then Condition(Yes, StreamRunning, Fixed)
    else Condition(No, StreamNotActive, Fixed)
  }

  /** How a deploy ends: a refused config is Failed for good, an error is retried and recorded nowhere, and
      success is Running on the chosen instance, with a move within the cluster told apart and the
      stream's condition as read. */
  lemma DeployExits(w: World, env: Env)
    requires Deploys(w, env) && env.statusWrite.Landed?
    ensures
      var o, a := Reconcile(w, env), Goal(w, env);
      var was, instance := w.pipe.status, InstanceName(a.cluster, a.ordinal);
      match Answer(w, env)
      case Rejected(m, _) => RecordedAs(o, w, Failed, StreamConfigInvalid, Text(m)) && o.result == Done
      case Transient(_) => o.world.pipe == w.pipe && o.result == Failure && o.statusWrites == 0
      case Accepted(_) =>
        var moved := was.assignedCluster == a.cluster && was.assignedInstance != "" && was.assignedInstance != instance;
        var ready := if moved then Condition(Yes, Rescheduling, MovedFrom(was.assignedInstance, instance))
                     else Condition(Yes, Assigned, RunningOn(instance));
        && o.result == Resync
        && o.world.pipe.status
           == Status(Running, "", a.cluster, instance, w.pipe.name, StreamConfigHash(instance, env.desired.text),
                     w.pipe.generation, Some(ready), Some(ActiveFrom(GoalAfter(w, env), env.conditionRead)))
  {
    hide Reconcile, EnsurePresent, Cleared, ReachesChoice, Choice, StreamConfigHash, InstanceName, LeftAt, Deploy,
         NeedDeploy, LastEnsure;
    DeployPath(w, env);
    ClearedKeeps(w, env);
    ReconcileDeploys(w, env);
    var w1, a, body := Cleared(w, env), Goal(w, env), env.desired.text;
    SameNeed(w, w1, a, body, env);
    DeployResults(w1, a, body, env);
  }

  lemma DeployResults(w: World, a: Addr, body: string, env: Env)
    requires env.statusWrite.Landed?
    ensures
      var o := Deploy(w, a, body, env);
      match (if NeedDeploy(w, a, body, env) then LastEnsure(env) else Accepted(true))
      case Rejected(m, _) =>
        o.world.pipe.status == UnplacedStatus(w.pipe, Failed, Condition(No, StreamConfigInvalid, Text(m))) &&
            o.result == Done
      case Transient(_) => o.world.pipe == w.pipe && o.result == Failure && o.statusWrites == 0
      case Accepted(_) =>
        && o.result == Resync
        && o.world.pipe.status ==
            PlacedStatus(w.pipe, a, body, ReadStatus(o.world.streams, a, w.pipe.name, env.conditionRead))
  {
    hide PlacedStatus, EnsurePresent, NeedDeploy, UnplacedStatus, LastEnsure, ReadStatus;
    EnsurePresentEffect(w.streams, a, w.pipe.name, body, env);
  }

  /** At most one status write, and only to change the status; one that does not land changes nothing
      and is tried again. */
  predicate Frugal(was: Pipeline, o: Outcome, env: Env) {
    && o.statusWrites <= 1 && (o.statusWrites == 0 ==> o.world.pipe.status == was.status)
    && (o.statusWrites == 1 && env.statusWrite.Landed? ==> o.world.pipe.status != was.status)
    && (o.statusWrites == 1 && !env.statusWrite.Landed? ==>
          o.world.pipe == was && o.result == if env.statusWrite.WriteError? then Failure else Requeue)
  }

  lemma GuardIsFrugal(w: World, s: Status, env: Env, otherwise: Result, puts: nat)
    ensures Frugal(w.pipe, WriteIfChanged(w, s, env, otherwise, puts), env)
  {
  }

  lemma DeployIsFrugal(w: World, a: Addr, body: string, env: Env)
    ensures Frugal(w.pipe, Deploy(w, a, body, env), env)
  {
    hide PlacedStatus, NeedDeploy, EnsurePresent, WriteIfChanged, ReadStatus;
    var (t, outcome, n) := if NeedDeploy(w, a, body, env) then EnsurePresent(w.streams, a, w.pipe.name, body, env)
                           else (w.streams, Accepted(true), 0);
    var w1 := w.(streams := t);
    match outcome {
      case Rejected(m, _) =>
        GuardIsFrugal(w1, UnplacedStatus(w1.pipe, Failed, Condition(No, StreamConfigInvalid, Text(m))), env, Done, n);
      case Transient(_) =>
      case Accepted(_) =>
        GuardIsFrugal(w1, PlacedStatus(w.pipe, a, body, ReadStatus(t, a, w.pipe.name, env.conditionRead)), env, Resync,
                      n);
    }
  }

  lemma GiveUpIsFrugal(w: World, phase: Phase, reason: Reason, message: Message, otherwise: Result, env: Env)
    ensures Frugal(w.pipe, GiveUp(w, phase, reason, message, otherwise, env, 0), env)
  {
    GuardIsFrugal(w, UnplacedStatus(w.pipe, phase, Condition(No, reason, message)), env, otherwise, 0);
  }

  lemma ClusterIsFrugal(w: World, c: string, env: Env)
    ensures Frugal(w.pipe, HandleCluster(w, c, env), env)
  {
    hide DeleteAssigned, PlaceOn, GiveUp;
    DeleteAssignedOnlyRemoves(w.(ownPod := None), env);
    var w2 := MigrateFrom(w.(ownPod := None), c, env);
    GiveUpIsFrugal(w, Failed, ClusterNotFound, About(c), Resync, env);
    PlaceOnIsFrugal(w2, c, env);
  }

  lemma PlaceOnIsFrugal(w: World, c: string, env: Env)
    ensures Frugal(w.pipe, PlaceOn(w, c, env), env)
  {
    hide Deploy, GiveUp, PickInstance, LoadMap, ReadyOrdinals, Frugal;
    assert Frugal(w.pipe, Plain(w, Failure), env) by { PlainIsFrugal(w, Failure, env); }
    forall phase, reason, message, otherwise
      ensures Frugal(w.pipe, GiveUp(w, phase, reason, message, otherwise, env, 0), env)
    {
      GiveUpIsFrugal(w, phase, reason, message, otherwise, env);
    }
    forall a, body ensures Frugal(w.pipe, Deploy(w, a, body, env), env) {
      DeployIsFrugal(w, a, body, env);
    }
  }

  lemma PlainIsFrugal(w: World, r: Result, env: Env)
    ensures Frugal(w.pipe, Plain(w, r), env)
  {
  }

  lemma OwnModeIsFrugal(w: World, env: Env)
    ensures Frugal(w.pipe, HandleStopped(w, env), env)
    ensures w.pipe.status.assignedInstance != "" ==> Frugal(w.pipe, HandleFallback(w, env), env)
    ensures env.pod.render.Some? ==> Frugal(w.pipe, HandlePod(w, env), env)
  {
    hide DeleteAssigned;
    DeleteAssignedOnlyRemoves(w, env);
  }

  /** A status is written at most once and only to change it; a write that does not land is tried again, at once
      after a conflict. */
  lemma WritesOnlyChanges(w: World, env: Env)
    requires OwnMode(w.pipe) ==> env.pod.render.Some?
    ensures
      var o := Reconcile(w, env);
      && o.statusWrites <= 1 && (o.statusWrites == 0 ==> o.world.pipe.status == w.pipe.status)
      && (o.statusWrites == 1 && env.statusWrite.Landed? ==> o.world.pipe.status != w.pipe.status)
      && (o.statusWrites == 1 && !env.statusWrite.Landed? ==>
            o.world.pipe == w.pipe && o.result == if env.statusWrite.WriteError? then Failure else Requeue)
  {
    hide DeleteAssigned, HandleCluster, HandleStopped, HandleFallback, HandlePod, GiveUp;
    DeleteAssignedOnlyRemoves(w, env);
    OwnModeIsFrugal(w, env);
    forall c { ClusterIsFrugal(w, c, env); }
    if w.pipe.spec.projectRef.Some? {
      GiveUpIsFrugal(w, Failed, ProjectNotFound, About(w.pipe.spec.projectRef.value), Done, env);
    }
  }

  /** A config that does not render is recorded every time, and a write of that which does not land fails. */
  lemma RenderFailureWritten(w: World, env: Env)
    requires OwnMode(w.pipe) && w.pipe.finalizer && w.pipe.status.assignedInstance == "" && env.pod.render.None?
    ensures
      var o := Reconcile(w, env);
      && o.statusWrites == 1
      && (!env.statusWrite.Landed? ==> o.world.pipe == w.pipe && o.result == Failure)
  {
  }
}
