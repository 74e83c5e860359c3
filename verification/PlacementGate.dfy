/** The redeploy gate: skipping the PUT is invisible, because whenever the recorded hash
    matches and the stream is live, the instance already runs the desired config. */
module PlacementGate {
  import opened Prelude
  import opened InstanceNames
  import opened Scheduler
  import opened Streams
  import opened Placement
  import opened PlacementCoherence
  import opened PlacementGuards

  ghost predicate Named(a: Addr) {
    '\0' !in a.cluster && 0 <= a.ordinal < INT32_LIMIT
  }

  lemma DigitsHaveNoNul(a: Addr)
    requires Named(a)
    ensures '\0' !in InstanceName(a.cluster, a.ordinal)
  {
    var d := Digits(a.ordinal);
    assert forall i :: 0 <= i < |d| ==> IsDigit(d[i]);
    assert '\0' !in d;
  }

  /** The NUL separator makes (instance, body) recoverable from the hashed text. */
  lemma HashInjective(a: Addr, body: string, a': Addr, body': string)
    requires Named(a) && Named(a')
    requires StreamConfigHash(InstanceName(a.cluster, a.ordinal), body) ==
             StreamConfigHash(InstanceName(a'.cluster, a'.ordinal), body')
    ensures a == a' && body == body'
  {
    var x, y := InstanceName(a.cluster, a.ordinal), InstanceName(a'.cluster, a'.ordinal);
    DigitsHaveNoNul(a);
    DigitsHaveNoNul(a');
    var t := x + "\0" + body;
    assert t == ("#" + t)[1..] == ("#" + (y + "\0" + body'))[1..] == y + "\0" + body';
    assert t[|x|] == '\0' && t[|y|] == '\0';
    assert |x| <= |y| by { assert forall i :: 0 <= i < |x| ==> t[i] == x[i]; }
    assert |y| <= |x| by { assert forall i :: 0 <= i < |y| ==> t[i] == y[i]; }
    assert x == t[..|x|] == y;
    assert body == t[|x| + 1..] == body';
    InstanceNameInjective(a.cluster, a.ordinal, a'.cluster, a'.ordinal);
  }

  ghost function HashAt(a: Addr, body: string): string {
    StreamConfigHash(InstanceName(a.cluster, a.ordinal), body)
  }

  /** If the recorded hash is that of (a, body), then instance a runs body or nothing. */
  ghost predicate HashTruthful(w: World) {
    forall a, body :: Named(a) && w.pipe.status.streamConfigHash == HashAt(a, body) && Holds(w, a) ==>
      Find(w.streams, a, w.pipe.name).value.body == body
  }

  /** The gate never lies: whatever instance and config a reconcile comes up with and whatever the
      status read answers, a skipped deploy finds the instance running that config or nothing. */
  ghost predicate GateHonest(w: World) {
    forall a, body, env :: Named(a) && !NeedDeploy(w, a, body, env) && Holds(w, a) ==>
      Find(w.streams, a, w.pipe.name).value.body == body
  }

  /** An honest gate and a truthful hash are the same thing: an unreadable status lets the hash decide. */
  lemma HonestMeansTruthful(w: World)
    ensures GateHonest(w) <==> HashTruthful(w)
  {
    hide InstanceName, Digest;
    if GateHonest(w) {
      var env: Env := *;
      var blind := env.(gateRead := ReadFailed(""));
      forall a, body | Named(a) && w.pipe.status.streamConfigHash == HashAt(a, body) && Holds(w, a)
        ensures Find(w.streams, a, w.pipe.name).value.body == body
      {
        assert !NeedDeploy(w, a, body, blind);
      }
    }
    if HashTruthful(w) {
      forall a, body, env | Named(a) && !NeedDeploy(w, a, body, env) && Holds(w, a)
        ensures Find(w.streams, a, w.pipe.name).value.body == body
      {
        assert w.pipe.status.streamConfigHash == HashAt(a, body);
      }
    }
  }

  /** Names of clusters that exist are valid Kubernetes names. */
  ghost predicate ClusterNameValid(w: World, env: Env) {
    var c := TargetCluster(w.pipe.spec);
    c.Some? && env.clusterGet.Found? ==> '\0' !in c.value
  }

  /** A step that keeps or clears the hash and only removes streams. */
  ghost predicate OnlyRemoves(w: World, w': World) {
    && w'.pipe.name == w.pipe.name
    && (w'.pipe.status.streamConfigHash == w.pipe.status.streamConfigHash || w'.pipe.status.streamConfigHash == "")
    && (forall a :: Holds(w', a) ==> Find(w'.streams, a, w.pipe.name) == Find(w.streams, a, w.pipe.name))
  }

  lemma RemovalKeepsTruth(w: World, w': World)
    requires HashTruthful(w) && OnlyRemoves(w, w')
    ensures HashTruthful(w')
  {
    hide Digest, InstanceName;
  }

  // ---------- exactly which reconciles make the hash lie

  /** The recorded hash is that of `a` with a config other than `body`. */
  ghost predicate RecordsOther(w: World, a: Addr, body: string) {
    exists other :: other != body && w.pipe.status.streamConfigHash == HashAt(a, other)
  }

  /** A PUT is issued and the status is not written after it. */
  predicate CutOff(w: World, env: Env) {
    Puts(w, env) && (LastEnsure(env).Transient? || !env.statusWrite.Landed?)
  }

  /** A deploy that replaces the config on the very instance the recorded hash speaks of, and is cut off. */
  ghost predicate FoolsGate(w: World, env: Env) {
    CutOff(w, env) && Left(LastEnsure(env)) == Replaced && RecordsOther(w, Goal(w, env), env.desired.text)
  }

  lemma GoalNamed(w: World, env: Env)
    requires Deploys(w, env) && OrdinalsInRange(w, env) && ClusterNameValid(w, env)
    ensures Named(Goal(w, env))
  {
    hide ReadyOrdinals, PodsInRange, Goal, Reconcile, Deploy;
    DeployPath(w, env);
    ReadyInRange(env.pods.value, Home(w), Goal(w, env).ordinal);
  }

  lemma DeployTruthExact(w: World, env: Env)
    requires HashTruthful(w) && OrdinalsInRange(w, env) && ClusterNameValid(w, env) && Deploys(w, env)
    ensures HashTruthful(Reconcile(w, env).world) <==> !FoolsGate(w, env)
  {
    hide Reconcile, Goal, Cleared, ReachesChoice, Choice, OrdinalsInRange, ClusterNameValid, HashAt, PlacedStatus,
         UnplacedStatus, LastEnsure,
         Recreates, NeedDeploy, DeleteAssigned;
    ReconcileDeploys(w, env);
    ClearedKeeps(w, env);
    GoalNamed(w, env);
    var end, a, body := Reconcile(w, env).world, Goal(w, env), env.desired.text;
    var hash := end.pipe.status.streamConfigHash;
    if Answer(w, env).Transient? || !env.statusWrite.Landed? {
      if FoolsGate(w, env) {
        var other :| other != body && hash == HashAt(a, other);
        assert Holds(end, a) && Find(end.streams, a, w.pipe.name).value.body == body;
      } else {
        forall b, other | Named(b) && hash == HashAt(b, other) && Holds(end, b)
          ensures Find(end.streams, b, w.pipe.name).value.body == other
        {
          KeptStream(w, env, b);
        }
      }
    } else if Answer(w, env).Rejected? {
      UnplacedHash(w.pipe);
      assert hash == "";
      assert forall b, other :: HashAt(b, other) != "" by { HashNonEmpty(); }
    } else {
      PlacedHash(w.pipe, a, body);
      assert hash == HashAt(a, body);
      assert Holds(end, a) ==> Find(end.streams, a, w.pipe.name).value.body == body by { RecordedDeploy(w, env); }
      forall b, other | Named(b) && hash == HashAt(b, other) && Holds(end, b)
        ensures Find(end.streams, b, w.pipe.name).value.body == other
      {
        HashesAgree(a, body, b, other);
      }
    }
  }

  lemma HashesAgree(a: Addr, body: string, b: Addr, other: string)
    requires Named(a) && Named(b) && HashAt(a, body) == HashAt(b, other)
    ensures a == b && body == other
  {
    HashInjective(a, body, b, other);
  }

  lemma HashNonEmpty()
    ensures forall b, other :: HashAt(b, other) != ""
  {
    hide InstanceName;
  }

  lemma UnplacedHash(p: Pipeline)
    ensures forall phase, cond :: UnplacedStatus(p, phase, cond).streamConfigHash == ""
  {
  }

  lemma PlacedHash(p: Pipeline, a: Addr, body: string)
    ensures forall live :: PlacedStatus(p, a, body, live).streamConfigHash == HashAt(a, body)
  {
    hide InstanceName, Digest;
  }

  /** A stream found after a deploy was there before, or is the one just deployed. */
  lemma KeptStream(w: World, env: Env, b: Addr)
    requires Deploys(w, env) && Holds(Reconcile(w, env).world, b)
    ensures
      var now := Find(Reconcile(w, env).world.streams, b, w.pipe.name);
      now == Find(w.streams, b, w.pipe.name)
      || (b == Goal(w, env) && Puts(w, env) && Left(LastEnsure(env)) == Replaced &&
          now == Some(Stream(env.desired.text, true)))
  {
    hide Reconcile, Goal, Cleared, ReachesChoice, Choice, PlacedStatus, UnplacedStatus, LastEnsure, Recreates,
         NeedDeploy, PlacedAt, DeleteAssigned;
    ReconcileDeploys(w, env);
    ClearedKeeps(w, env);
    if b != Goal(w, env) {
      assert Holds(Cleared(w, env), b);
    }
  }

  lemma RecordedDeploy(w: World, env: Env)
    requires HashTruthful(w) && Deploys(w, env) && Named(Goal(w, env)) && Answer(w, env).Accepted?
    ensures GoalAfter(w, env).Some? ==> GoalAfter(w, env).value.body == env.desired.text
  {
    hide Goal, ReachesChoice, Choice, InstanceName, Digest;
    if !Puts(w, env) {
      assert w.pipe.status.streamConfigHash == HashAt(Goal(w, env), env.desired.text);
    }
  }

  lemma DeleteAssignedOnlyRemoves(w: World, env: Env)
    ensures OnlyRemoves(w, DeleteAssigned(w, env))
    ensures DeleteAssigned(w, env).pipe == w.pipe
  {
  }

  /** Giving up or stopping short keeps or clears the hash and only removes streams. */
  lemma WithoutDeployOnlyRemoves(w: World, env: Env)
    requires OnClusterPath(w) && !Deploys(w, env)
    ensures OnlyRemoves(w, Reconcile(w, env).world)
  {
    hide Reconcile, Cleared, Deploys, GivesUp, ReachesChoice, Choice, UnplacedStatus, ParentMissing, PlacedAt,
         DeleteAssigned;
    ClearedKeeps(w, env);
    UnplacedHash(w.pipe);
    var end := Reconcile(w, env).world;
    if GivesUp(w, env) {
      GiveUpPath(w, env);
    } else {
      StopsShort(w, env);
    }
    assert forall a :: Holds(end, a) ==> Holds(w, a) || Holds(Cleared(w, env), a);
  }

  lemma OthersOnlyRemove(w: World, env: Env)
    requires TargetCluster(w.pipe.spec).None? || w.pipe.spec.stopped || w.pipe.deleting || !w.pipe.finalizer
    ensures OnlyRemoves(w, Reconcile(w, env).world)
  {
    var w' := Reconcile(w, env).world;
    OthersHash(w, env);
    OthersTable(w, env);
    hide DeleteAssigned, Reconcile;
    DeleteAssignedOnlyRemoves(w, env);
    assert forall a :: Holds(w', a) ==> Holds(w, a) || Holds(DeleteAssigned(w, env), a);
  }

  lemma OthersHash(w: World, env: Env)
    requires TargetCluster(w.pipe.spec).None? || w.pipe.spec.stopped || w.pipe.deleting || !w.pipe.finalizer
    ensures Reconcile(w, env).world.pipe.name == w.pipe.name
    ensures Reconcile(w, env).world.pipe.status.streamConfigHash == w.pipe.status.streamConfigHash
  {
    hide DeleteAssigned, HandleProject, HandleCluster, PlacedAt;
    DeleteAssignedOnlyRemoves(w, env);
  }

  lemma OthersTable(w: World, env: Env)
    requires TargetCluster(w.pipe.spec).None? || w.pipe.spec.stopped || w.pipe.deleting || !w.pipe.finalizer
    ensures Reconcile(w, env).world.streams == w.streams ||
            Reconcile(w, env).world.streams == DeleteAssigned(w, env).streams
  {
    hide DeleteAssigned, HandleProject, HandleCluster, PlacedAt, StoppedStatus, PodStatus;
  }

  /** One reconcile keeps the hash truthful exactly if it does not fool the gate. */
  lemma ReconcileTruthExact(w: World, env: Env)
    requires HashTruthful(w) && OrdinalsInRange(w, env) && ClusterNameValid(w, env)
    ensures HashTruthful(Reconcile(w, env).world) <==> !FoolsGate(w, env)
  {
    hide Reconcile, OrdinalsInRange, ClusterNameValid, HashTruthful, ReachesChoice, Choice, OnlyRemoves;
    if Deploys(w, env) {
      DeployTruthExact(w, env);
    } else {
      if OnClusterPath(w) {
        WithoutDeployOnlyRemoves(w, env);
      } else {
        OthersOnlyRemove(w, env);
      }
      RemovalKeepsTruth(w, Reconcile(w, env).world);
    }
  }

  lemma EventKeepsTruth(w: World, e: Event)
    requires HashTruthful(w) && !e.Reconciled?
    ensures HashTruthful(Next(w, e))
  {
    var w' := Next(w, e);
    assert forall a :: Holds(w', a) ==>
        Holds(w, a) && Find(w'.streams, a, w.pipe.name).value.body == Find(w.streams, a, w.pipe.name).value.body;
    hide HashAt;
  }

  predicate NotCutOff(w: World, env: Env) { !CutOff(w, env) }

  ghost predicate NotFooled(w: World, env: Env) { !FoolsGate(w, env) }

  /** Over a whole run of a fresh resource, through restarts, lossy PUTs, stop/run and fallback
      cycles: the gate is honest at every point if and only if no reconcile of the run fools it. */
  lemma {:induction false} GateHonestAlways(w: World, events: seq<Event>)
    requires Fresh(w) && Throughout(OrdinalsInRange, w, events) && Throughout(ClusterNameValid, w, events)
    ensures Always(GateHonest, w, events) <==> Throughout(NotFooled, w, events)
  {
    hide Reconcile, HashTruthful, GateHonest, OrdinalsInRange, ClusterNameValid, FoolsGate, Fresh;
    FreshIsTruthful(w);
    HonestMeansTruthful(w);
    if events != [] {
      var before := events[..|events| - 1];
      GateHonestAlways(w, before);
      AlwaysSplit(GateHonest, w, events);
      HonestMeansTruthful(Run(w, before));
      HonestMeansTruthful(Run(w, events));
      var e := events[|events| - 1];
      if Always(GateHonest, w, before) {
        if e.Reconciled? {
          ReconcileTruthExact(Run(w, before), e.env);
        } else {
          EventKeepsTruth(Run(w, before), e);
        }
      }
    }
  }

  /** In particular on runs where no reconcile is cut off between its PUT and its status write. */
  lemma {:induction false} NotCutOffNotFooled(w: World, events: seq<Event>)
    requires Throughout(NotCutOff, w, events)
    ensures Throughout(NotFooled, w, events)
  {
    hide Run;
    if events != [] {
      NotCutOffNotFooled(w, events[..|events| - 1]);
    }
  }

  lemma HashTruthfulAlways(w: World, events: seq<Event>)
    requires Fresh(w) && Throughout(OrdinalsInRange, w, events) && Throughout(ClusterNameValid, w, events)
    requires Throughout(NotFooled, w, events)
    ensures HashTruthful(Run(w, events))
  {
    hide Run, HashTruthful, GateHonest, Throughout, Fresh;
    GateHonestAlways(w, events);
    assert events[..|events|] == events;
    HonestMeansTruthful(Run(w, events));
  }

  lemma FreshIsTruthful(w: World)
    requires Fresh(w)
    ensures HashTruthful(w)
  {
  }

  /** Skipping the PUT is invisible: after any run that never fooled the gate, when a reconcile
      leaves the deployed stream alone because the hash matches and the live status is active,
      the chosen instance runs exactly the desired config. When the status could not be read,
      it runs the desired config or nothing. */
  lemma GateInvisible(w: World, events: seq<Event>, env: Env)
    requires Fresh(w) && Throughout(OrdinalsInRange, w, events) && Throughout(ClusterNameValid, w, events)
    requires Throughout(NotFooled, w, events)
    requires OrdinalsInRange(Run(w, events), env) && ClusterNameValid(Run(w, events), env)
    requires Deploys(Run(w, events), env) && !Puts(Run(w, events), env)
    ensures SkipIsInvisible(Run(w, events), env)
  {
    hide Run, Throughout, Fresh, HashTruthful, Deploys, Puts, OrdinalsInRange, ClusterNameValid, SkipIsInvisible;
    HashTruthfulAlways(w, events);
    SkippedDeploy(Run(w, events), env);
  }

  /** The reconcile issued no PUT, and what runs on the chosen instance is what it would have put there. */
  ghost predicate SkipIsInvisible(w: World, env: Env)
    requires Deploys(w, env)
  {
    var o := Reconcile(w, env);
    var live := Find(o.world.streams, Goal(w, env), o.world.pipe.name);
    o.puts == 0 && SkippedRight(live, env)
  }

  /** What is found where a deploy was skipped: the desired config or nothing, and the desired config
      running if the gate could ask. */
  ghost predicate SkippedRight(live: Option<Stream>, env: Env)
    requires env.desired.Body?
  {
    && (live.Some? ==> live.value.body == env.desired.text)
    && (env.gateRead.Answered? ==> live == Some(Stream(env.desired.text, true)))
  }

  lemma SkippedDeploy(w: World, env: Env)
    requires HashTruthful(w) && OrdinalsInRange(w, env) && ClusterNameValid(w, env) && Deploys(w, env) && !Puts(w, env)
    ensures SkipIsInvisible(w, env)
  {
    hide Reconcile, Goal, ReachesChoice, Choice, OrdinalsInRange, ClusterNameValid, Cleared, PlacedStatus,
         UnplacedStatus, InstanceName, Digest;
    ReconcileDeploys(w, env);
    GoalNamed(w, env);
    assert w.pipe.status.streamConfigHash == HashAt(Goal(w, env), env.desired.text);
  }

  /** A lossy PUT is healed within the reconcile: if the instance accepts the config but does not
      load it, and says so when asked, the stream is recreated. */
  lemma LossyPutHealed(t: Table, a: Addr, id: string, body: string, env: Env)
    requires env.ensure == Accepted(false) && env.verifyRead.Answered? && env.ensureAgain == Accepted(true)
    ensures
      var (t', outcome, puts) := EnsurePresent(t, a, id, body, env);
      Find(t', a, id) == Some(Stream(body, true)) && outcome == Accepted(true) && puts == 2
  {
  }
}
