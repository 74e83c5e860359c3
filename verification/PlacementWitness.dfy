/** The hypotheses of the single-holder and gate results are needed: from every settled
    state, each kind of excluded reconcile breaks the property, for good, and runs of a fresh
    resource get there. */
module PlacementWitness {
  import opened Prelude
  import opened InstanceNames
  import opened Scheduler
  import opened Streams
  import opened Placement
  import opened PlacementCoherence
  import opened PlacementGuards
  import opened PlacementHolder
  import opened PlacementGate
  import opened PlacementConvergence

  /** The stream still runs on `a` although the status does not name it. */
  ghost predicate Forgotten(w: World, a: Addr) {
    Holds(w, a) && PlacedAt(w.pipe.status) != Some(a)
  }

  lemma ForgottenBreaksSingleHolder(w: World, a: Addr)
    requires Forgotten(w, a)
    ensures !SingleHolder(w)
  {
  }

  // ---------- a forgotten stream stays

  /** The reconcile deploys to `a`. */
  predicate PlacesOn(w: World, env: Env, a: Addr) { Deploys(w, env) && Goal(w, env) == a }

  /** During the run `a` is not restarted, does not lose the stream, and is not chosen again. */
  ghost predicate Undisturbed(w: World, events: seq<Event>, a: Addr) {
    events == [] ||
    (var before := events[..|events| - 1];
     var e := events[|events| - 1];
     && Undisturbed(w, before, a) && e != PodRestarted(a) && e != StreamLost(a)
     && (e.Reconciled? ==> !PlacesOn(Run(w, before), e.env, a)))
  }

  lemma DeleteAssignedKeeps(w: World, env: Env, a: Addr)
    requires PlacedAt(w.pipe.status) != Some(a)
    ensures Find(DeleteAssigned(w, env).streams, a, w.pipe.name) == Find(w.streams, a, w.pipe.name)
    ensures DeleteAssigned(w, env).pipe == w.pipe
  {
    hide PlacedAt;
  }

  lemma ClearedForgotten(w: World, env: Env, a: Addr)
    requires Forgotten(w, a)
    ensures Forgotten(Cleared(w, env), a)
  {
    hide PlacedAt, DeleteAssigned;
    DeleteAssignedKeeps(w.(ownPod := None), env, a);
  }

  lemma ClusterPathForgets(w: World, env: Env, a: Addr)
    requires Forgotten(w, a) && w.pipe.name != "" && OrdinalsInRange(w, env) && OnClusterPath(w) && !PlacesOn(w, env, a)
    ensures Forgotten(Reconcile(w, env).world, a) && Reconcile(w, env).world.pipe.name == w.pipe.name
  {
    hide Reconcile, Goal, Answer, GoalAfter, Cleared, PlacedAt, PlacedStatus, UnplacedStatus, OrdinalsInRange,
         ReachesChoice, Choice, Puts,
         ParentMissing;
    ClearedForgotten(w, env, a);
    ClearedKeeps(w, env);
    if Deploys(w, env) {
      ReconcileDeploys(w, env);
      RecordedAfter(w, env);
    } else if GivesUp(w, env) {
      GiveUpPath(w, env);
      forall phase, cond { UnplacedNowhere(w.pipe, phase, cond); }
    } else {
      StopsShort(w, env);
    }
  }

  /** Off the cluster path the recorded placement is kept or cleared. */
  lemma OthersPlaced(w: World, env: Env)
    requires !OnClusterPath(w)
    ensures
      var now := PlacedAt(Reconcile(w, env).world.pipe.status);
      now == PlacedAt(w.pipe.status) || now == None
  {
    hide DeleteAssigned, HandleProject, HandleCluster, OrdinalFromPodName;
    DeleteAssignedOnlyRemoves(w, env);
  }

  lemma ReconcileForgets(w: World, env: Env, a: Addr)
    requires Forgotten(w, a) && w.pipe.name != "" && OrdinalsInRange(w, env) && !PlacesOn(w, env, a)
    ensures Forgotten(Reconcile(w, env).world, a) && Reconcile(w, env).world.pipe.name == w.pipe.name
  {
    hide Reconcile, PlacedAt, PlacesOn, OrdinalsInRange, DeleteAssigned;
    if OnClusterPath(w) {
      ClusterPathForgets(w, env, a);
    } else {
      OthersPlaced(w, env);
      OthersHash(w, env);
      OthersTable(w, env);
      DeleteAssignedKeeps(w, env, a);
    }
  }

  /** A forgotten stream stays on its instance, unrecorded, through every later event until the
      instance restarts or loses it, or the pipeline is placed on that instance again. */
  lemma {:induction false} ForgottenStays(w: World, events: seq<Event>, a: Addr)
    requires Forgotten(w, a) && w.pipe.name != "" && Throughout(OrdinalsInRange, w, events) && Undisturbed(w, events, a)
    ensures Forgotten(Run(w, events), a) && Run(w, events).pipe.name == w.pipe.name
  {
    if events != [] {
      hide Reconcile, Forgotten, OrdinalsInRange, PlacesOn;
      var before := events[..|events| - 1];
      ForgottenStays(w, before, a);
      var e := events[|events| - 1];
      if e.Reconciled? {
        ReconcileForgets(Run(w, before), e.env, a);
      } else {
        EventForgets(Run(w, before), e, a);
      }
    }
  }

  lemma EventForgets(w: World, e: Event, a: Addr)
    requires Forgotten(w, a) && !e.Reconciled? && e != PodRestarted(a) && e != StreamLost(a)
    ensures Forgotten(Next(w, e), a) && Next(w, e).pipe.name == w.pipe.name
  {
    hide PlacedAt;
  }

  // ---------- the three ways to forget

  lemma SettledAt(w: World, a: Addr, body: string)
    requires Settled(w, a, body) && Wanted(w.pipe, a.cluster) && Named(a)
    ensures PlacedAt(w.pipe.status) == Some(a) && Holds(w, a) && OnClusterPath(w) && Home(w) == a.cluster &&
            !Migrates(w)
  {
    OrdinalRoundTrip(a.cluster, a.ordinal);
  }

  /** Giving up drops the placement of a running stream: a missing project or cluster, no ready
      instance, or no config. */
  lemma FailedExitForgets(w: World, a: Addr, body: string, env: Env)
    requires Settled(w, a, body) && Wanted(w.pipe, a.cluster) && Named(a) && GivesUp(w, env) && env.statusWrite.Landed?
    ensures Forgotten(Reconcile(w, env).world, a)
  {
    hide Reconcile, GivesUp, Settled, Cleared, PlacedAt, UnplacedStatus, ParentMissing, Migrates;
    SettledAt(w, a, body);
    GiveUpPath(w, env);
    ClearedKeeps(w, env);
    forall phase, cond { UnplacedNowhere(w.pipe, phase, cond); }
  }

  /** A reschedule within the cluster leaves the stream on an instance that is not ready
      but still holds it. */
  lemma RescheduleForgets(w: World, a: Addr, pods: seq<PodView>, body: string, env: Env)
    requires Settled(w, a, body) && Wanted(w.pipe, a.cluster) && Named(a) && Calm(env, pods, body)
    requires HasRoom(pods, a.cluster) && a.ordinal !in ReadyOrdinals(pods, a.cluster)
    ensures Forgotten(Reconcile(w, env).world, a)
  {
    hide Reconcile, Deploys, Goal, PlacedAt, HasRoom, Choice, ReachesChoice, Cleared, Migrates, HashAt, PodsInRange;
    SettledAt(w, a, body);
    CalmDeploys(w, a.cluster, pods, body, env);
    CalmReconcile(w, a.cluster, pods, body, env);
    ReconcileDeploys(w, env);
    ClearedKeeps(w, env);
    var b := Goal(w, env);
    assert b != a;
    assert PlacedAt(Reconcile(w, env).world.pipe.status) == Some(b) by {
      PlacedReads(Reconcile(w, env).world.pipe.status, b);
    }
  }

  lemma PlacedReads(s: Status, a: Addr)
    requires Named(a) && a.cluster != "" && s.assignedCluster == a.cluster &&
             s.assignedInstance == InstanceName(a.cluster, a.ordinal)
    ensures PlacedAt(s) == Some(a)
  {
    OrdinalRoundTrip(a.cluster, a.ordinal);
  }

  /** A deploy whose status write is lost is unknown to the status of an unplaced pipeline. */
  lemma LostWriteForgets(w: World, c: string, pods: seq<PodView>, body: string, env: Env)
    requires Wanted(w.pipe, c) && w.pipe.finalizer && w.pipe.status == EMPTY_STATUS
    requires Calm(env, pods, body) && HasRoom(pods, c)
    ensures exists a :: Forgotten(Reconcile(w, env.(statusWrite := Conflict)).world, a)
  {
    hide Reconcile, Goal, HasRoom, Choice, ReachesChoice, Cleared;
    var lost := env.(statusWrite := Conflict);
    CalmDeploys(w, c, pods, body, env);
    SameGoal(w, env, lost);
    ReconcileDeploys(w, lost);
    var a := Goal(w, lost);
    assert Puts(w, lost) by { HashNonEmpty(); assert HashAt(a, body) != ""; }
    assert Forgotten(Reconcile(w, lost).world, a);
  }

  lemma SameGoal(w: World, env: Env, env': Env)
    requires Deploys(w, env) && env' == env.(statusWrite := env'.statusWrite)
    ensures Deploys(w, env') && Goal(w, env') == Goal(w, env)
  {
    hide PickInstance;
  }

  /** From a settled state, a deploy of another config whose status write is lost fools the gate:
      the recorded hash is that of the first config, and the instance runs the other. */
  lemma CutOffMisleads(w: World, a: Addr, pods: seq<PodView>, body: string, other: string, env: Env)
    requires Settled(w, a, body) && Wanted(w.pipe, a.cluster) && Named(a) && other != body && Calm(env, pods, other)
    requires HasRoom(pods, a.cluster) && a.ordinal in ReadyOrdinals(pods, a.cluster)
    ensures FoolsGate(w, env.(statusWrite := Conflict))
    ensures
      var w1 := Reconcile(w, env.(statusWrite := Conflict)).world;
      w1.pipe == w.pipe && Misled(w1, a, body) && Find(w1.streams, a, w.pipe.name) == Some(Stream(other, true))
  {
    hide Reconcile, HasRoom, Choice, ReachesChoice, Cleared, InstanceName, StreamConfigHash;
    var lost := env.(statusWrite := Conflict);
    CalmChoice(w, a, pods, other, env);
    SameGoal(w, env, lost);
    ReconcileDeploys(w, lost);
    if HashAt(a, other) == HashAt(a, body) {
      HashesAgree(a, other, a, body);
    }
    assert Puts(w, lost) by { assert HashAt(a, other) == StreamConfigHash(InstanceName(a.cluster, a.ordinal), other); }
  }

  /** Back at the recorded config the gate then skips the PUT while the instance runs the other one. */
  lemma CutOffFoolsGate(w: World, a: Addr, pods: seq<PodView>, body: string, other: string, env: Env, env': Env)
    requires Settled(w, a, body) && Wanted(w.pipe, a.cluster) && Named(a) && other != body
    requires Calm(env, pods, other) && Calm(env', pods, body)
    requires HasRoom(pods, a.cluster) && a.ordinal in ReadyOrdinals(pods, a.cluster)
    ensures
      var w1 := Reconcile(w, env.(statusWrite := Conflict)).world;
      var o := Reconcile(w1, env');
      o.puts == 0 && Find(o.world.streams, a, w.pipe.name) == Some(Stream(other, true))
  {
    hide Reconcile, HasRoom, Choice, ReachesChoice, Cleared, InstanceName, Digest, Calm;
    CutOffMisleads(w, a, pods, body, other, env);
    var w1 := Reconcile(w, env.(statusWrite := Conflict)).world;
    CalmChoice(w1, a, pods, body, env');
    ReconcileDeploys(w1, env');
    assert !Puts(w1, env') by { CalmRead(env', pods, body); }
  }

  lemma CalmRead(env: Env, pods: seq<PodView>, body: string)
    requires Calm(env, pods, body)
    ensures env.gateRead.Answered? && env.desired == Body(body)
  {
  }

  /** A run of a fresh resource that never converges: it settles on one config, a deploy of another
      loses its status write, and back at the first config no number of calm reconciles settles it. */
  lemma FooledForGood(w: World, c: string, pods: seq<PodView>, body: string, other: string, e0: Env, e1: Env, e2: Env,
                      cut: Env, envs: seq<Env>)
    requires Fresh(w) && Wanted(w.pipe, c) && HasRoom(pods, c) && other != body
    requires AllCalm([e0, e1, e2], pods, body) && Calm(cut, pods, other) && |envs| >= 3 && AllCalm(envs, pods, body)
    ensures
      var start := Run(w, [Reconciled(e0), Reconciled(e1), Reconciled(e2), Reconciled(cut.(statusWrite := Conflict))]);
      Wanted(start.pipe, c) && forall b :: Named(b) ==> !Settled(Reconciles(start, envs), b, body)
  {
    hide Reconcile, HasRoom, Deploys, Goal, Calm, Misled, Settled, PlacedRunning;
    var first := [e0, e1, e2];
    var a := FreshSettles(w, c, pods, body, first);
    var mid := Reconciles(w, first);
    var lost := cut.(statusWrite := Conflict);
    CutOffMisleads(mid, a, pods, body, other, cut);
    RunReconciles(w, first, lost);
    var start := Reconcile(mid, lost).world;
    HasDestination(start, c, pods, body, envs);
    ConvergesExactly(start, c, pods, body, envs);
    assert Destination(start, envs) == a by { StartKeepsGoal(start, a, pods, body, envs, mid); }
  }

  lemma FreshNotMisled(w: World, body: string)
    requires Fresh(w)
    ensures forall a :: !Misled(w, a, body)
  {
    hide HashAt;
    HashNonEmpty();
  }

  lemma RunReconciles(w: World, envs: seq<Env>, last: Env)
    requires |envs| == 3
    ensures Run(w, [Reconciled(envs[0]), Reconciled(envs[1]), Reconciled(envs[2]), Reconciled(last)]) ==
            Reconcile(Reconciles(w, envs), last).world
  {
    hide Reconcile;
    var e := [Reconciled(envs[0]), Reconciled(envs[1]), Reconciled(envs[2]), Reconciled(last)];
    Unroll(w, envs);
    assert e[..3][..2] == e[..2] && e[..2][..1] == e[..1] && e[..1][..0] == [];
    assert Run(w, e[..1]) == Reconcile(w, envs[0]).world;
    assert Run(w, e[..2]) == Reconcile(Run(w, e[..1]), envs[1]).world;
    assert Run(w, e[..3]) == Reconcile(Run(w, e[..2]), envs[2]).world;
  }

  lemma StartKeepsGoal(start: World, a: Addr, pods: seq<PodView>, body: string, envs: seq<Env>, mid: World)
    requires |envs| >= 3 && AllCalm(envs, pods, body) && Wanted(start.pipe, a.cluster) && HasRoom(pods, a.cluster) &&
             Named(a)
    requires start.pipe == mid.pipe && Settled(mid, a, body) && a.ordinal in ReadyOrdinals(pods, a.cluster)
    requires Deploys(start.(pipe := start.pipe.(finalizer := true)), Placing(start, envs))
    ensures Destination(start, envs) == a
  {
    hide Reconcile, HasRoom, Deploys, Goal, Calm, InstanceName, HashAt;
    assert start.(pipe := start.pipe.(finalizer := true)) == start;
    CalmChoice(start, a, pods, body, envs[0]);
  }

  /** Three calm reconciles settle a fresh resource on its destination. */
  lemma FreshSettles(w: World, c: string, pods: seq<PodView>, body: string, envs: seq<Env>) returns (a: Addr)
    requires Fresh(w) && Wanted(w.pipe, c) && HasRoom(pods, c) && |envs| == 3 && AllCalm(envs, pods, body)
    ensures Settled(Reconciles(w, envs), a, body) && Wanted(Reconciles(w, envs).pipe, c)
    ensures Named(a) && a.cluster == c && a.ordinal in ReadyOrdinals(pods, c)
  {
    hide Reconcile, HasRoom, Deploys, Goal, Calm, Misled, Settled, PlacedRunning;
    FreshNotMisled(w, body);
    HasDestination(w, c, pods, body, envs);
    a := Destination(w, envs);
    ConvergesExactly(w, c, pods, body, envs);
    ThreeSettle(w, c, pods, body, envs);
  }

  /** A fresh resource settles, then one reconcile gives up: from there on the stream stays where it is,
      unrecorded, whatever follows short of a disturbance of its instance. */
  lemma ForgottenForGood(w: World, c: string, pods: seq<PodView>, body: string, envs: seq<Env>, bad: Env)
    returns (a: Addr)
    requires Fresh(w) && Wanted(w.pipe, c) && HasRoom(pods, c) && |envs| == 3 && AllCalm(envs, pods, body)
    requires GivesUp(Reconciles(w, envs), bad) && bad.statusWrite.Landed?
    ensures
      var start := Run(w, [Reconciled(envs[0]), Reconciled(envs[1]), Reconciled(envs[2]), Reconciled(bad)]);
      && Forgotten(start, a)
      && forall more :: Throughout(OrdinalsInRange, start, more) && Undisturbed(start, more, a) ==>
          Forgotten(Run(start, more), a)
  {
    hide Reconcile, HasRoom, Calm, Settled, GivesUp, Forgotten, Run, Throughout, Undisturbed;
    a := FreshSettles(w, c, pods, body, envs);
    var mid := Reconciles(w, envs);
    FailedExitForgets(mid, a, body, bad);
    RunReconciles(w, envs, bad);
    var start := Reconcile(mid, bad).world;
    assert start.pipe.name != "" by { GiveUpPath(mid, bad); }
    forall more | Throughout(OrdinalsInRange, start, more) && Undisturbed(start, more, a)
      ensures Forgotten(Run(start, more), a)
    {
      ForgottenStays(start, more, a);
    }
  }

  // ---------- a concrete run

  const SAMPLE_PODS := [PodView(InstanceName("c", 0), true)]

  const SAMPLE_WORLD := World(Pipeline("p", 1, Spec(false, None, "c"), EMPTY_STATUS, false, false), None, map[])

  const SAMPLE_ENV := Env(
    true, Found, Found, true, true, true, Deleted, Some(SAMPLE_PODS), Some([]), Body("b"),
    Answered, Accepted(true), Answered, Deleted, Accepted(true), Answered, Landed,
    PodEnv(None, "", true, true, true, true, Running, Condition(Yes, Assigned, Fixed)))

  const SAMPLE_BAD := SAMPLE_ENV.(desired := RenderFails(""))

  lemma SampleIsCalm()
    ensures Fresh(SAMPLE_WORLD) && Wanted(SAMPLE_WORLD.pipe, "c") && Calm(SAMPLE_ENV, SAMPLE_PODS, "b") &&
            HasRoom(SAMPLE_PODS, "c")
  {
    OrdinalRoundTrip("c", 0);
    assert SAMPLE_PODS[..0] == [];
    assert ReadyOrdinals(SAMPLE_PODS, "c") == [] + [0];
  }

  /** A fresh resource, three calm reconciles and one render error are
      enough to leave a stream that the status does not know. */
  lemma SampleLeak()
    ensures Fresh(SAMPLE_WORLD)
    ensures !SingleHolder(Run(SAMPLE_WORLD,
                              [Reconciled(SAMPLE_ENV), Reconciled(SAMPLE_ENV), Reconciled(SAMPLE_ENV),
                               Reconciled(SAMPLE_BAD)]))
  {
    hide Reconcile, Settled, SingleHolder, HasRoom, Fresh, Run, Reconciles, PlacedRunning, Forgotten;
    SampleIsCalm();
    var envs := [SAMPLE_ENV, SAMPLE_ENV, SAMPLE_ENV];
    var settledAt := FreshSettles(SAMPLE_WORLD, "c", SAMPLE_PODS, "b", envs);
    var mid := Reconciles(SAMPLE_WORLD, envs);
    assert mid.pipe.finalizer by { SettledAt(mid, settledAt, "b"); }
    CalmDeploys(mid, "c", SAMPLE_PODS, "b", SAMPLE_ENV);
    assert GivesUp(mid, SAMPLE_BAD) by { BadGivesUp(mid); }
    var a := ForgottenForGood(SAMPLE_WORLD, "c", SAMPLE_PODS, "b", envs, SAMPLE_BAD);
    ForgottenBreaksSingleHolder(Run(SAMPLE_WORLD,
                                    [Reconciled(envs[0]), Reconciled(envs[1]), Reconciled(envs[2]),
                                     Reconciled(SAMPLE_BAD)]), a);
  }

  lemma BadGivesUp(w: World)
    requires Deploys(w, SAMPLE_ENV)
    ensures GivesUp(w, SAMPLE_BAD)
  {
    hide PickInstance;
  }
}
