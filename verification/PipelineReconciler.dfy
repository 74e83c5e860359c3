/** The reconciler in the source's own form: an object that changes the stored resource, the
    pipeline's own pod and the instances' stream tables call by call. Every method is proved to
    perform the corresponding step of module Placement, and one reconcile inherits what is proved
    about the step: coherence, the single holder and the redeploy gate. */
module PipelineReconcilers {
  import opened Prelude
  import opened InstanceNames
  import opened Scheduler
  import opened Streams
  import opened Placement
  import opened PlacementCoherence
  import opened PlacementGuards
  import opened PlacementHolder
  import opened PlacementGate

  predicate ConditionChanged(was: Option<Condition>, cond: Condition)
    ensures !ConditionChanged(was, cond) <==> was == Some(cond)
  {
    was.None? || was.value.status != cond.status || was.value.reason != cond.reason || was.value.message != cond.message
  }

  /** The write guard of the cluster path: false exactly when the status would not change. */
  predicate Changed(s: Status, phase: Phase, cluster: string, instance: string, streamID: string, hash: string,
                    generation: nat, cond: Condition, active: Option<Condition>)
    ensures !Changed(s, phase, cluster, instance, streamID, hash, generation, cond, active)
            <==> s == Status(phase, "", cluster, instance, streamID, hash, generation, Some(cond), active)
  {
    || ConditionChanged(s.ready, cond)
    || (if active.None? then s.streamActive.Some? else ConditionChanged(s.streamActive, active.value))
    || s.phase != phase || s.assignedCluster != cluster || s.assignedInstance != instance || s.streamID != streamID
    || s.streamConfigHash != hash || s.podName != "" || s.observedGeneration != generation
  }

  class PipelineReconciler {
    var stored: Pipeline
    var ownPod: Option<string>
    var statusWrites: nat
    const client: FakeClient

    /** The stored resource has a name and a coherent status. */
    ghost predicate Valid()
      reads this
    {
      stored.name != "" && Coherent(stored)
    }

    constructor (pipe: Pipeline, client: FakeClient)
      requires pipe.name != "" && Coherent(pipe)
      ensures Valid() && stored == pipe && ownPod == None && statusWrites == 0 && this.client == client
    {
      stored, ownPod, statusWrites := pipe, None, 0;
      this.client := client;
    }

    ghost function State(): World
      reads this, client
    {
      World(stored, ownPod, client.streams)
    }

    /** Since the old state, exactly the step described by `o` was performed. */
    twostate predicate Performed(o: Outcome, r: Result)
      reads this, client
    {
      && State() == o.world && r == o.result
      && client.ensureCount == old(client.ensureCount) + o.puts
      && statusWrites == old(statusWrites) + o.statusWrites
    }

    method UpdateStatus(s: Status, env: Env)
      modifies this`stored, this`statusWrites
      ensures stored == if env.statusWrite.Landed? then old(stored).(status := s) else old(stored)
      ensures statusWrites == old(statusWrites) + 1
    {
      statusWrites := statusWrites + 1;
      if env.statusWrite.Landed? {
        stored := stored.(status := s);
      }
    }

    /** Where the status names an instance, success means that instance no longer holds the stream;
        this needs a coherent status, since an unreadable name would be skipped in silence. */
    method DeleteAssignedStream(env: Env) returns (ok: bool)
      requires Valid()
      modifies client`streams
      ensures State() == Placement.DeleteAssigned(old(State()), env)
      ensures ok == DeleteSucceeds(stored.status, env)
      ensures ok && stored.status.assignedInstance != "" ==>
                exists o :: stored.status.assignedInstance == InstanceName(stored.status.assignedCluster, o)
                            && !Holds(State(), Addr(stored.status.assignedCluster, o))
    {
      hide InstanceName, OrdinalFromPodName;
      if stored.status.assignedCluster == "" || stored.status.assignedInstance == "" { return true; }
      var ord := OrdinalFromPodName(stored.status.assignedInstance, stored.status.assignedCluster);
      if ord.None? { return true; }
      client.DeleteStream(Addr(stored.status.assignedCluster, ord.value), stored.name, env.streamDelete);
      ok := env.streamDelete.Deleted?;
    }

    method MigrateFromOldCluster(newCluster: string, env: Env) returns (ok: bool)
      requires Valid()
      modifies client`streams
      ensures State() == Placement.MigrateFrom(old(State()), newCluster, env)
      ensures ok == (stored.status.assignedCluster == newCluster || DeleteSucceeds(stored.status, env))
      ensures ok && old(SingleHolder(State())) ==> forall a :: Holds(State(), a) ==> a.cluster == newCluster
    {
      hide InstanceName, OrdinalFromPodName, SingleHolder, Coherent;
      ghost var before := State();
      if SingleHolder(before) {
        MigrationHolders(before, newCluster, env);
      }
      var was := stored.status.assignedCluster;
      if was == "" || was == newCluster || stored.status.assignedInstance == "" { return true; }
      var ord := OrdinalFromPodName(stored.status.assignedInstance, was);
      if ord.None? { return true; }
      client.DeleteStream(Addr(was, ord.value), stored.name, env.streamDelete);
      ok := env.streamDelete.Deleted?;
    }

    method EnsureStreamPresent(a: Addr, body: string, env: Env) returns (outcome: EnsureOutcome)
      modifies client
      ensures var (t, r, n) := Placement.EnsurePresent(old(client.streams), a, stored.name, body, env);
              client.streams == t && outcome == r && client.ensureCount == old(client.ensureCount) + n
      ensures outcome == Accepted(true) && env.verifyRead.Answered? ==>
              Find(client.streams, a, stored.name) == Some(Stream(body, true))
    {
      client.EnsureStream(a, stored.name, body, env.ensure);
      if !env.ensure.Accepted? { return env.ensure; }
      var read := client.GetStreamStatus(a, stored.name, env.verifyRead);
      if read == Missing {
        client.DeleteStream(a, stored.name, env.recreateDelete);
        client.EnsureStream(a, stored.name, body, env.ensureAgain);
        return env.ensureAgain;
      }
      outcome := env.ensure;
    }

    /** Writes the status only when one of its parts changed. */
    method WriteClusterStatus(phase: Phase, cluster: string, instance: string, streamID: string, hash: string,
                              cond: Condition, active: Option<Condition>, otherwise: Result, env: Env)
      returns (r: Result)
      modifies this`stored, this`statusWrites
      ensures Performed(WriteIfChanged(old(State()),
                          Status(phase, "", cluster, instance, streamID, hash, old(stored).generation, Some(cond),
                                 active),
                          env, otherwise, 0), r)
    {
      var s := stored.status;
      if Changed(s, phase, cluster, instance, streamID, hash, stored.generation, cond, active) {
        s := s.(phase := phase, assignedCluster := cluster, assignedInstance := instance, streamID := streamID);
        s := s.(streamConfigHash := hash, podName := "", observedGeneration := stored.generation);
        s := s.(ready := Some(cond), streamActive := active);
        UpdateStatus(s, env);
        if env.statusWrite.Conflict? { return Requeue; }
        if env.statusWrite.WriteError? { return Failure; }
      }
      r := otherwise;
    }

    method HandleStopped(env: Env) returns (r: Result)
      requires Valid()
      modifies this, client
      ensures Performed(Placement.HandleStopped(old(State()), env), r)
      ensures r == Done && old(SingleHolder(State())) ==>
              NoHolder(State()) && ownPod.None? && stored.status.phase == Stopped
    {
      ghost var before := State();
      if SingleHolder(before) { HandleStoppedHolders(before, env); }
      var ok := DeleteAssignedStream(env);
      if !ok || !env.podDelete { return Failure; }
      ownPod := None;
      var s := stored.status;
      var condChanged := s.ready.None? || s.ready.value.status != No || s.ready.value.reason != StoppedByUser;
      var hadStreamActive := s.streamActive.Some?;
      if condChanged || hadStreamActive || s.phase != Stopped || s.podName != "" || s.assignedCluster != ""
         || s.assignedInstance != "" || s.streamID != "" || s.observedGeneration != stored.generation
      {
        s := s.(phase := Stopped, podName := "", assignedCluster := "", assignedInstance := "", streamID := "");
        s := s.(observedGeneration := stored.generation, ready := Some(STOPPED), streamActive := None);
        UpdateStatus(s, env);
        if env.statusWrite.Conflict? { return Requeue; }
        if env.statusWrite.WriteError? { return Failure; }
      }
      r := Done;
    }

    method HandleClusterFallback(env: Env) returns (r: Result)
      requires Valid()
      modifies this, client
      ensures Performed(HandleFallback(old(State()), env), r)
      ensures r == Requeue && old(SingleHolder(State())) ==> NoHolder(State())
    {
      ghost var before := State();
      if SingleHolder(before) { HandleFallbackHolders(before, env); }
      var ok := DeleteAssignedStream(env);
      if !ok { return Failure; }
      var s := stored.status.(assignedCluster := "", assignedInstance := "", streamID := "", streamActive := None);
      UpdateStatus(s, env);
      if env.statusWrite.WriteError? { return Failure; }
      r := Requeue;
    }

    method HandlePodMode(env: Env) returns (r: Result)
      modifies this
      ensures Performed(HandlePod(old(State()), env), r)
      ensures r == Done && env.pod.render.Some? ==>
                ownPod == env.pod.render && stored.status.podName == stored.name && stored.status.phase == env.pod.phase
    {
      var s := stored.status;
      if env.pod.render.None? {
        s := s.(phase := Failed, ready := Some(Condition(No, RenderError, Text(env.pod.renderMessage))));
        UpdateStatus(s, env);
        return if env.statusWrite.Landed? then Done else Failure;
      }
      var newHash := env.pod.render.value;
      if !env.pod.configApply || !env.pod.podGet { return Failure; }
      if ownPod.Some? && ownPod.value != newHash {
        if !env.podDelete { return Failure; }
        ownPod := None;
        return Requeue;
      }
      if !env.pod.podApply { return Failure; }
      if ownPod.None? {
        ownPod := Some(newHash);
      }
      if !env.pod.monitorApply { return Failure; }
      var cond := env.pod.condition;
      if ConditionChanged(s.ready, cond) || s.phase != env.pod.phase || s.podName != stored.name ||
          s.observedGeneration != stored.generation {
        s := s.(phase := env.pod.phase, podName := stored.name, observedGeneration := stored.generation,
                ready := Some(cond));
        UpdateStatus(s, env);
        if env.statusWrite.Conflict? { return Requeue; }
        if env.statusWrite.WriteError? { return Failure; }
      }
      r := Done;
    }

    /** Redeploys behind the gate, then records the placement. */
    method DeployTo(a: Addr, body: string, env: Env) returns (r: Result)
      modifies this, client
      ensures Performed(Deploy(old(State()), a, body, env), r)
    {
      hide InstanceName, Digest, AfterEnsure, AfterDelete, ReadStatus, Placement.EnsurePresent;
      var instance := InstanceName(a.cluster, a.ordinal);
      var desiredHash := StreamConfigHash(instance, body);
      var needDeploy := stored.status.streamConfigHash != desiredHash;
      if !needDeploy {
        var st := client.GetStreamStatus(a, stored.name, env.gateRead);
        if st == Missing || st == Read(false) {
          needDeploy := true;
        }
      }
      if needDeploy {
        var outcome := EnsureStreamPresent(a, body, env);
        match outcome {
          case Rejected(m, _) =>
            r := WriteClusterStatus(Failed, "", "", "", "", Condition(No, StreamConfigInvalid, Text(m)), None, Done,
                                    env);
            return;
          case Transient(_) => return Failure;
          case Accepted(_) =>
        }
      }
      var cond := Condition(Yes, Assigned, RunningOn(instance));
      if stored.status.assignedCluster == a.cluster && stored.status.assignedInstance != "" &&
          stored.status.assignedInstance != instance {
        cond := Condition(Yes, Rescheduling, MovedFrom(stored.status.assignedInstance, instance));
      }
      var live := client.GetStreamStatus(a, stored.name, env.conditionRead);
      r := WriteClusterStatus(Running, a.cluster, instance, stored.name, desiredHash, cond,
                              Some(StreamActiveCondition(live)), Resync, env);
    }

    method MarkClusterFailed(reason: Reason, message: Message, otherwise: Result, env: Env) returns (r: Result)
      modifies this`stored, this`statusWrites
      ensures Performed(GiveUp(old(State()), Failed, reason, message, otherwise, env, 0), r)
    {
      r := WriteClusterStatus(Failed, "", "", "", "", Condition(No, reason, message), None, otherwise, env);
    }

    method PlaceOnCluster(c: string, env: Env) returns (r: Result)
      modifies this, client
      ensures Performed(PlaceOn(old(State()), c, env), r)
    {
      hide Deploy, LoadMap, ReadyOrdinals, OrdinalFromPodName, LeastLoaded;
      if env.pods.None? || env.pipelines.None? { return Failure; }
      var ready := ListReadyOrdinals(env.pods.value, c);
      var load := LoadByOrdinal(env.pipelines.value, c, stored.name);
      var current := "";
      if stored.status.assignedCluster == c {
        current := stored.status.assignedInstance;
      }
      var pick := ChooseInstance(current, c, ready, load);
      if pick.None? {
        r := WriteClusterStatus(Pending, "", "", "", "", Condition(No, ClusterNotReady, About(c)), None, Resync, env);
        return;
      }
      match env.desired {
        case RenderFails(m) => r := MarkClusterFailed(RenderError, Text(m), Done, env);
        case RewriteFails(m) => r := MarkClusterFailed(RewriteError, Text(m), Done, env);
        case SecretMissing(m) => r := MarkClusterFailed(SecretNotFound, Text(m), Done, env);
        case Body(text) => r := DeployTo(Addr(c, pick.value), text, env);
      }
    }

    method HandleClusterAssigned(c: string, env: Env) returns (r: Result)
      requires Valid()
      modifies this, client
      ensures Performed(HandleCluster(old(State()), c, env), r)
    {
      if env.clusterGet.NotFound? {
        r := MarkClusterFailed(ClusterNotFound, About(c), Resync, env);
        return;
      }
      if env.clusterGet.GetError? || !env.podDelete { return Failure; }
      ownPod := None;
      if !env.configDelete || !env.monitorDelete { return Failure; }
      var ok := MigrateFromOldCluster(c, env);
      if !ok { return Failure; }
      r := PlaceOnCluster(c, env);
    }

    method HandleProjectAssigned(project: string, env: Env) returns (r: Result)
      requires Valid()
      modifies this, client
      ensures Performed(HandleProject(old(State()), project, env), r)
    {
      match env.projectGet {
        case NotFound => r := MarkClusterFailed(ProjectNotFound, About(project), Done, env);
        case GetError => return Failure;
        case Found => r := HandleClusterAssigned(project + "-cluster", env);
      }
    }

    method Dispatch(env: Env) returns (r: Result)
      requires Valid()
      modifies this, client
      ensures Performed(Placement.Reconcile(old(State()), env), r)
    {
      if stored.deleting {
        if stored.finalizer {
          var ok := DeleteAssignedStream(env);
          if !ok || !env.finalizerUpdate { return Failure; }
          stored := stored.(finalizer := false);
        }
        return Done;
      }
      if !stored.finalizer {
        if !env.finalizerUpdate { return Failure; }
        stored := stored.(finalizer := true);
        return Requeue;
      }
      if stored.spec.stopped {
        r := HandleStopped(env);
      } else if stored.spec.projectRef.Some? {
        r := HandleProjectAssigned(stored.spec.projectRef.value, env);
      } else if stored.spec.clusterRef != "" {
        r := HandleClusterAssigned(stored.spec.clusterRef, env);
      } else if stored.status.assignedInstance != "" {
        r := HandleClusterFallback(env);
      } else {
        r := HandlePodMode(env);
      }
    }

    /** One reconcile: the object ends in the state the step function gives, having issued exactly
        its PUTs and status writes. With pod ordinals in range the status stays coherent and, from
        a single holder, there is a single holder afterwards exactly if the guards show no leak;
        a released resource has no holder. From a truthful hash, the hash stays truthful exactly if
        the reconcile does not fool the gate, and a deploy without a PUT finds the chosen instance
        running the desired config. */
    method Reconcile(env: Env) returns (r: Result)
      requires Valid()
      modifies this, client
      ensures Performed(Placement.Reconcile(old(State()), env), r)
      ensures OrdinalsInRange(old(State()), env) ==> Valid()
      ensures OrdinalsInRange(old(State()), env) && old(SingleHolder(State())) ==>
                (SingleHolder(State()) <==> !Leaks(old(State()), env))
      ensures old(stored.deleting) && r == Done && old(SingleHolder(State())) ==> !stored.finalizer && NoHolder(State())
      ensures OrdinalsInRange(old(State()), env) && ClusterNameValid(old(State()), env) &&
              old(HashTruthful(State())) ==>
                && (HashTruthful(State()) <==> !FoolsGate(old(State()), env))
                && (Deploys(old(State()), env) && client.ensureCount == old(client.ensureCount) ==>
                      SkippedRight(Find(client.streams, Goal(old(State()), env), stored.name), env))
    {
      hide Placement.Reconcile, SingleHolder, HashTruthful, OrdinalsInRange, Coherent, Leaks, FoolsGate, Deploys, Goal,
           Puts, DeployEffect;
      ghost var before := State();
      r := Dispatch(env);
      if OrdinalsInRange(before, env) {
        ReconcileKeeps(before, env);
        if SingleHolder(before) {
          ReconcileExact(before, env);
        }
        if ClusterNameValid(before, env) && HashTruthful(before) {
          ReconcileTruthExact(before, env);
          if Deploys(before, env) && client.ensureCount == old(client.ensureCount) {
            NoPutMeansSkipped(before, env);
            SkippedDeploy(before, env);
          }
        }
      }
      if before.pipe.deleting && SingleHolder(before) {
        DeletionHolders(before, env);
      }
    }
  }

  lemma MigrationHolders(w: World, c: string, env: Env)
    requires SingleHolder(w)
    ensures w.pipe.status.assignedCluster == c || DeleteSucceeds(w.pipe.status, env) ==>
              forall a :: Holds(MigrateFrom(w, c, env), a) ==> a.cluster == c
  {
    hide PlacedAt, DeleteAssigned;
    DeleteAssignedHolders(w, env);
    PlacedInCluster(w.pipe.status);
  }

  lemma NoPutMeansSkipped(w: World, env: Env)
    requires Deploys(w, env) && Placement.Reconcile(w, env).puts == 0
    ensures !Puts(w, env)
  {
    hide Placement.Reconcile;
    ReconcileDeploys(w, env);
  }
}
