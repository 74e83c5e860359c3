/** The guards of one reconcile, read off the stored resource, the stream tables and what the
    calls will answer, without performing it; and what each guarded branch does. */
module PlacementGuards {
  import opened Prelude
  import opened InstanceNames
  import opened Scheduler
  import opened Streams
  import opened Placement

  // ---------- which branch is taken

  predicate OnClusterPath(w: World) {
    w.pipe.finalizer && !w.pipe.deleting && !w.pipe.spec.stopped && TargetCluster(w.pipe.spec).Some?
  }

  /** The cluster a pipeline on the cluster path belongs to. */
  function Home(w: World): string {
    if TargetCluster(w.pipe.spec).Some? then TargetCluster(w.pipe.spec).value else ""
  }

  predicate ProjectFound(w: World, env: Env) { w.pipe.spec.projectRef.Some? ==> env.projectGet.Found? }

  /** The project or the cluster the pipeline names does not exist. */
  predicate ParentMissing(w: World, env: Env) {
    || (w.pipe.spec.projectRef.Some? && env.projectGet.NotFound?)
    || (ProjectFound(w, env) && env.clusterGet.NotFound?)
  }

  /** The placement on another cluster, if any, is deleted on the way. */
  predicate Migrates(w: World) { w.pipe.status.assignedCluster != Home(w) }

  /** Project and cluster exist, the pod-mode children and a stream on another cluster are
      deleted, and pods and pipelines are listed: an instance gets chosen. */
  predicate ReachesChoice(w: World, env: Env) {
    && OnClusterPath(w) && ProjectFound(w, env) && env.clusterGet.Found?
    && env.podDelete && env.configDelete && env.monitorDelete
    && (Migrates(w) ==> DeleteSucceeds(w.pipe.status, env))
    && env.pods.Some? && env.pipelines.Some?
  }

  /** The instance the scheduler chooses. */
  function Choice(w: World, env: Env): Option<Addr>
    requires ReachesChoice(w, env)
  {
    var current := if Migrates(w) then "" else w.pipe.status.assignedInstance;
    match PickInstance(current, Home(w), ReadyOrdinals(env.pods.value, Home(w)),
                       LoadMap(env.pipelines.value, Home(w), w.pipe.name))
    case None => None
    case Some(o) => Some(Addr(Home(w), o))
  }

  predicate Deploys(w: World, env: Env) { ReachesChoice(w, env) && Choice(w, env).Some? && env.desired.Body? }

  /** The cluster path ends before a deploy and records that the pipeline is nowhere. */
  predicate GivesUp(w: World, env: Env) {
    OnClusterPath(w) && (ParentMissing(w, env) ||
        (ReachesChoice(w, env) && (Choice(w, env).None? || !env.desired.Body?)))
  }

  // ---------- what a deploy does

  function Goal(w: World, env: Env): Addr
    requires Deploys(w, env)
  {
    Choice(w, env).value
  }

  /** The first upsert was accepted but not loaded, and the confirming read says so. */
  predicate Recreates(env: Env) { env.ensure == Accepted(false) && env.verifyRead.Answered? }

  function LastEnsure(env: Env): EnsureOutcome { if Recreates(env) then env.ensureAgain else env.ensure }

  predicate Puts(w: World, env: Env) { Deploys(w, env) && NeedDeploy(w, Goal(w, env), env.desired.text, env) }

  /** The answer the deploy ends with; a skipped one counts as accepted. */
  function Answer(w: World, env: Env): EnsureOutcome
    requires Deploys(w, env)
  {
    if Puts(w, env) then LastEnsure(env) else Accepted(true)
  }

  /** What is on the chosen instance afterwards, from what was there and the answers. */
  function LeftAt(before: Option<Stream>, body: string, env: Env): Option<Stream> {
    match Left(LastEnsure(env))
    case Replaced => Some(Stream(body, true))
    case Lost => None
    case Untouched => if Recreates(env) then None else before
  }

  function GoalAfter(w: World, env: Env): Option<Stream>
    requires Deploys(w, env)
  {
    var before := Find(w.streams, Goal(w, env), w.pipe.name);
    if Puts(w, env) then LeftAt(before, env.desired.text, env) else before
  }

  // ---------- the state a deploy starts from

  /** After the pod-mode children and a stream on another cluster are deleted. */
  function Cleared(w: World, env: Env): World { MigrateFrom(w.(ownPod := None), Home(w), env) }

  lemma ClearedKeeps(w: World, env: Env)
    ensures Cleared(w, env).pipe == w.pipe && Cleared(w, env).ownPod == None
    ensures forall a: Addr :: a.cluster == Home(w) ==>
            Find(Cleared(w, env).streams, a, w.pipe.name) == Find(w.streams, a, w.pipe.name)
    ensures forall a :: Holds(Cleared(w, env), a) ==>
            Find(Cleared(w, env).streams, a, w.pipe.name) == Find(w.streams, a, w.pipe.name)
    ensures Migrates(w) && DeleteSucceeds(w.pipe.status, env) && PlacedAt(w.pipe.status).Some? ==>
              !Holds(Cleared(w, env), PlacedAt(w.pipe.status).value)
  {
    hide OrdinalFromPodName;
  }

  /** A reconcile that deploys is the deploy of the desired config to the chosen instance. */
  lemma DeployPath(w: World, env: Env)
    requires Deploys(w, env)
    ensures Reconcile(w, env) == Deploy(Cleared(w, env), Goal(w, env), env.desired.text, env)
    ensures Goal(w, env).cluster == Home(w) && Goal(w, env).ordinal in ReadyOrdinals(env.pods.value, Home(w))
    ensures Home(w) != "" && TargetCluster(w.pipe.spec) == Some(Home(w))
  {
    hide Deploy, LeastLoaded, LoadMap, ReadyOrdinals, OrdinalFromPodName, DeleteAssigned;
    ClearedKeeps(w, env);
    assert TargetCluster(w.pipe.spec) == Some(Home(w));
    assert Reconcile(w, env) == HandleCluster(w, Home(w), env);
    assert HandleCluster(w, Home(w), env) == PlaceOn(Cleared(w, env), Home(w), env);
  }

  /** A reconcile that gives up changes no stream but one on another cluster, and clears the
      recorded placement if its status write lands. */
  lemma GiveUpPath(w: World, env: Env)
    requires GivesUp(w, env)
    ensures
      var w0 := if ParentMissing(w, env) then w else Cleared(w, env);
      var o := Reconcile(w, env);
      && o.world == w0.(pipe := w.pipe.(status := o.world.pipe.status)) && o.puts == 0
      && (env.statusWrite.Landed? ==> exists phase, cond :: o.world.pipe.status == UnplacedStatus(w.pipe, phase, cond))
      && (!env.statusWrite.Landed? ==> o.world.pipe == w.pipe)
  {
    hide Deploy, LeastLoaded, LoadMap, ReadyOrdinals, OrdinalFromPodName, DeleteAssigned;
    ClearedKeeps(w, env);
    if w.pipe.spec.projectRef.Some? && env.projectGet.NotFound? {
      UnplacedWrite(w, Failed, ProjectNotFound, About(w.pipe.spec.projectRef.value), Done, env);
    } else if env.clusterGet.NotFound? {
      UnplacedWrite(w, Failed, ClusterNotFound, About(Home(w)), Resync, env);
    } else {
      var w0 := Cleared(w, env);
      assert Reconcile(w, env) == HandleCluster(w, Home(w), env);
      assert HandleCluster(w, Home(w), env) == PlaceOn(w0, Home(w), env);
      GiveUpPlaceOn(w0, Home(w), env);
    }
  }

  ghost predicate RecordsNowhere(w: World, o: Outcome, env: Env) {
    && o.world == w.(pipe := w.pipe.(status := o.world.pipe.status)) && o.puts == 0
    && (env.statusWrite.Landed? ==> exists phase, cond :: o.world.pipe.status == UnplacedStatus(w.pipe, phase, cond))
    && (!env.statusWrite.Landed? ==> o.world.pipe == w.pipe)
  }

  lemma UnplacedWrite(w: World, phase: Phase, reason: Reason, message: Message, otherwise: Result, env: Env)
    ensures RecordsNowhere(w, GiveUp(w, phase, reason, message, otherwise, env, 0), env)
  {
    var s := UnplacedStatus(w.pipe, phase, Condition(No, reason, message));
    var o := GiveUp(w, phase, reason, message, otherwise, env, 0);
    assert env.statusWrite.Landed? ==> o.world.pipe.status == s;
    assert w.(pipe := w.pipe) == w && w.pipe.(status := w.pipe.status) == w.pipe;
  }

  lemma GiveUpPlaceOn(w: World, c: string, env: Env)
    requires env.pods.Some? && env.pipelines.Some?
    requires
      var current := if w.pipe.status.assignedCluster == c then w.pipe.status.assignedInstance else "";
      !env.desired.Body? ||
          PickInstance(current, c, ReadyOrdinals(env.pods.value, c), LoadMap(env.pipelines.value, c, w.pipe.name)).None?
    ensures RecordsNowhere(w, PlaceOn(w, c, env), env)
  {
    hide GiveUp, LeastLoaded, LoadMap, ReadyOrdinals, OrdinalFromPodName, RecordsNowhere;
    forall phase, reason, message, otherwise {
      UnplacedWrite(w, phase, reason, message, otherwise, env);
    }
  }

  /** Every other reconcile on the cluster path stops at a failing call. */
  lemma StopsShort(w: World, env: Env)
    requires OnClusterPath(w) && !Deploys(w, env) && !GivesUp(w, env)
    ensures
      var o := Reconcile(w, env);
      (o.world == w || o.world == w.(ownPod := None) || o.world == Cleared(w, env)) && o.puts == 0
  {
    hide Deploy, LeastLoaded, LoadMap, ReadyOrdinals, OrdinalFromPodName, DeleteAssigned, GiveUp;
    assert TargetCluster(w.pipe.spec) == Some(Home(w));
    ClearedKeeps(w, env);
  }

  // ---------- the effect of a deploy, in terms of the guards

  lemma EnsurePresentEffect(t: Table, a: Addr, id: string, body: string, env: Env)
    ensures
      var (t', outcome, n) := EnsurePresent(t, a, id, body, env);
      && outcome == LastEnsure(env) && n == (if Recreates(env) then 2 else 1)
      && Find(t', a, id) == LeftAt(Find(t, a, id), body, env)
      && forall b :: b != a ==> Find(t', b, id) == Find(t, b, id)
  {
  }

  /** What a deploying reconcile leaves: the streams, the recorded placement and the hash. */
  ghost predicate DeployEffect(w: World, o: Outcome, env: Env)
    requires Deploys(w, env)
  {
    var a, s := Goal(w, env), o.world.pipe.status;
    && o.world.pipe == w.pipe.(status := s) && o.world.ownPod.None?
    && Find(o.world.streams, a, w.pipe.name) == GoalAfter(w, env)
    && (forall b :: b != a ==> Find(o.world.streams, b, w.pipe.name) == Find(Cleared(w, env).streams, b, w.pipe.name))
    && o.puts == (if !Puts(w, env) then 0 else if Recreates(env) then 2 else 1)
    && (if Answer(w, env).Transient? || !env.statusWrite.Landed? then s == w.pipe.status
        else if Answer(w, env).Rejected? then exists phase, cond :: s == UnplacedStatus(w.pipe, phase, cond)
        else exists live :: s == PlacedStatus(w.pipe, a, env.desired.text, live))
  }

  lemma ReconcileDeploys(w: World, env: Env)
    requires Deploys(w, env)
    ensures DeployEffect(w, Reconcile(w, env), env)
  {
    hide Reconcile, PlacedStatus, EnsurePresent, NeedDeploy, Cleared, ReachesChoice, Choice, LeftAt, Deploy,
         UnplacedStatus, LastEnsure;
    DeployPath(w, env);
    ClearedKeeps(w, env);
    var w1, a, body := Cleared(w, env), Goal(w, env), env.desired.text;
    SameNeed(w, w1, a, body, env);
    DeployTable(w1, a, body, env);
    DeployStatus(w1, a, body, env);
  }

  lemma SameNeed(w: World, w1: World, a: Addr, body: string, env: Env)
    requires w1.pipe == w.pipe && Find(w1.streams, a, w.pipe.name) == Find(w.streams, a, w.pipe.name)
    ensures NeedDeploy(w1, a, body, env) <==> NeedDeploy(w, a, body, env)
  {
    hide StreamConfigHash, InstanceName;
  }

  lemma DeployTable(w: World, a: Addr, body: string, env: Env)
    ensures
      var t := Deploy(w, a, body, env).world.streams;
      var before := Find(w.streams, a, w.pipe.name);
      && Find(t, a, w.pipe.name) == (if NeedDeploy(w, a, body, env) then LeftAt(before, body, env) else before)
      && (forall b :: b != a ==> Find(t, b, w.pipe.name) == Find(w.streams, b, w.pipe.name))
  {
    hide PlacedStatus, EnsurePresent, NeedDeploy, LeftAt, UnplacedStatus, LastEnsure;
    EnsurePresentEffect(w.streams, a, w.pipe.name, body, env);
  }

  lemma DeployStatus(w: World, a: Addr, body: string, env: Env)
    ensures
      var o := Deploy(w, a, body, env);
      var s := o.world.pipe.status;
      var answer := if NeedDeploy(w, a, body, env) then LastEnsure(env) else Accepted(true);
      && o.world.pipe == w.pipe.(status := s) && o.world.ownPod == w.ownPod
      && o.puts == (if !NeedDeploy(w, a, body, env) then 0 else if Recreates(env) then 2 else 1)
      && (if answer.Transient? || !env.statusWrite.Landed? then s == w.pipe.status
          else if answer.Rejected? then exists phase, cond :: s == UnplacedStatus(w.pipe, phase, cond)
          else exists live :: s == PlacedStatus(w.pipe, a, body, live))
  {
    hide PlacedStatus, EnsurePresent, NeedDeploy, UnplacedStatus, LastEnsure, ReadStatus;
    EnsurePresentEffect(w.streams, a, w.pipe.name, body, env);
    assert w.pipe.(status := w.pipe.status) == w.pipe;
    var o := Deploy(w, a, body, env);
    var live := ReadStatus(o.world.streams, a, w.pipe.name, env.conditionRead);
    var answer := if NeedDeploy(w, a, body, env) then LastEnsure(env) else Accepted(true);
    if env.statusWrite.Landed? && answer.Rejected? {
      assert o.world.pipe.status ==
          UnplacedStatus(w.pipe, Failed, Condition(No, StreamConfigInvalid, Text(answer.message)));
    }
    if env.statusWrite.Landed? && answer.Accepted? {
      assert o.world.pipe.status == PlacedStatus(w.pipe, a, body, live);
    }
  }
}
