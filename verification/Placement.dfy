/** The pipeline reconciler as a state machine over one Pipeline resource: where its
    stream or pod is, what its status says, and what one reconcile does to both. */
module Placement {
  import opened Prelude
  import opened InstanceNames
  import opened Scheduler
  import opened Streams

  // ---------- the resource

  datatype Phase = NoPhase | Pending | Running | Failed | Stopped

  datatype Truth = Yes | No | Unknown

  datatype Reason =
    | Assigned | Rescheduling | ClusterNotFound | ProjectNotFound | ClusterNotReady
    | RenderError | RewriteError | SecretNotFound | StreamConfigInvalid | StoppedByUser
    | StreamMissing | StatusUnavailable | StreamRunning | StreamNotActive | PodReason(text: string)

  datatype Message =
    | RunningOn(instance: string)
    | MovedFrom(source: string, target: string)
    | About(name: string)
    | Text(text: string)
    | Fixed

  datatype Condition = Condition(status: Truth, reason: Reason, message: Message)

  datatype Status = Status(
    phase: Phase, podName: string,
    assignedCluster: string, assignedInstance: string, streamID: string, streamConfigHash: string,
    observedGeneration: nat, ready: Option<Condition>, streamActive: Option<Condition>)

  const EMPTY_STATUS := Status(NoPhase, "", "", "", "", "", 0, None, None)

  datatype Spec = Spec(stopped: bool, projectRef: Option<string>, clusterRef: string)

  datatype Pipeline = Pipeline(name: string, generation: nat, spec: Spec, status: Status, finalizer: bool,
                               deleting: bool)

  /** The stored resource, its own pod (by spec hash) if it has one, and the tables of
      all cluster instances. */
  datatype World = World(pipe: Pipeline, ownPod: Option<string>, streams: Table)

  // ---------- what the calls of one reconcile return

  datatype Lookup = Found | NotFound | GetError

  datatype WriteReply = Landed | Conflict | WriteError

  /** The rendered, rewritten and secret-substituted config, or why there is none. */
  datatype Desired =
    | Body(text: string)
    | RenderFails(message: string)
    | RewriteFails(message: string)
    | SecretMissing(message: string)

  datatype PodEnv = PodEnv(
    render: Option<string>, renderMessage: string, configApply: bool, podGet: bool, podApply: bool, monitorApply: bool,
    phase: Phase, condition: Condition)

  datatype Env = Env(
    finalizerUpdate: bool, projectGet: Lookup, clusterGet: Lookup,
    podDelete: bool, configDelete: bool, monitorDelete: bool, streamDelete: DeleteOutcome,
    pods: Option<seq<PodView>>, pipelines: Option<seq<Placed>>, desired: Desired,
    gateRead: ReadOutcome, ensure: EnsureOutcome, verifyRead: ReadOutcome,
    recreateDelete: DeleteOutcome, ensureAgain: EnsureOutcome, conditionRead: ReadOutcome,
    statusWrite: WriteReply, pod: PodEnv)

  /** What the reconcile asks of its caller. */
  datatype Result = Done | Requeue | Resync | Failure

  datatype Outcome = Outcome(world: World, result: Result, puts: nat, statusWrites: nat)

  function Plain(w: World, r: Result): Outcome { Outcome(w, r, 0, 0) }

  function WithStatus(w: World, s: Status): World { w.(pipe := w.pipe.(status := s)) }

  function WriteResult(w: WriteReply, otherwise: Result): Result {
    match w
    case Landed => otherwise
    case Conflict => Requeue
    case WriteError => Failure
  }

  // ---------- placement

  /** The instance a status points at, as the delete paths read it. */
  function PlacedAt(s: Status): Option<Addr> {
    if s.assignedCluster == "" || s.assignedInstance == "" then None
    else match OrdinalFromPodName(s.assignedInstance, s.assignedCluster)
      case None => None
      case Some(o) => Some(Addr(s.assignedCluster, o))
  }

  predicate Holds(w: World, a: Addr) {
    Find(w.streams, a, w.pipe.name).Some?
  }

  /** Stand-in for SHA-256: injective, and never the empty string. */
  function Digest(text: string): (d: string)
    ensures d != ""
  {
    "#" + text
  }

  function StreamConfigHash(instance: string, body: string): string {
    Digest(instance + "\0" + body)
  }

  function TargetCluster(spec: Spec): Option<string> {
    if spec.projectRef.Some? then Some(spec.projectRef.value + "-cluster")
    else if spec.clusterRef != "" then Some(spec.clusterRef)
    else None
  }

  // ---------- the steps

  function DeleteAssigned(w: World, env: Env): World {
    match PlacedAt(w.pipe.status)
    case None => w
    case Some(a) => w.(streams := AfterDelete(w.streams, a, w.pipe.name, env.streamDelete))
  }

  /** Whether the deletion of the assigned stream lets the reconcile go on. */
  predicate DeleteSucceeds(s: Status, env: Env) {
    PlacedAt(s).None? || env.streamDelete.Deleted?
  }

  function WriteStatus(w: World, s: Status, env: Env, otherwise: Result, puts: nat): Outcome {
    Outcome(if env.statusWrite.Landed? then WithStatus(w, s) else w, WriteResult(env.statusWrite, otherwise), puts, 1)
  }

  /** Writes a status only when it differs from the stored one. */
  function WriteIfChanged(w: World, s: Status, env: Env, otherwise: Result, puts: nat): Outcome {
    if w.pipe.status == s then Outcome(w, otherwise, puts, 0) else WriteStatus(w, s, env, otherwise, puts)
  }

  const STOPPED := Condition(No, StoppedByUser, Fixed)

  function StoppedStatus(p: Pipeline): Status {
    p.status.(phase := Stopped, podName := "", assignedCluster := "", assignedInstance := "", streamID := "",
              observedGeneration := p.generation, ready := Some(STOPPED), streamActive := None)
  }

  /** The write guard of the stop path compares the Ready condition without its message. */
  predicate StoppedStatusCurrent(p: Pipeline) {
    && p.status.ready.Some? && p.status.ready.value.status == No && p.status.ready.value.reason == StoppedByUser
    && p.status.streamActive.None? && p.status.phase == Stopped && p.status.podName == ""
    && p.status.assignedCluster == "" && p.status.assignedInstance == "" && p.status.streamID == ""
    && p.status.observedGeneration == p.generation
  }

  function HandleStopped(w: World, env: Env): Outcome {
    var w1 := DeleteAssigned(w, env);
    if !DeleteSucceeds(w.pipe.status, env) || !env.podDelete then Plain(w1, Failure)
    else
      var w2 := w1.(ownPod := None);
      if StoppedStatusCurrent(w2.pipe) then Plain(w2, Done)
      else WriteStatus(w2, StoppedStatus(w2.pipe), env, Done, 0)
  }

  function HandleFallback(w: World, env: Env): Outcome {
    var w1 := DeleteAssigned(w, env);
    if !DeleteSucceeds(w.pipe.status, env) then Plain(w1, Failure)
    else
      var s := w.pipe.status.(assignedCluster := "", assignedInstance := "", streamID := "", streamActive := None);
      WriteStatus(w1, s, env, Requeue, 0)
  }

  function PodStatus(p: Pipeline, env: Env): Status {
    p.status.(phase := env.pod.phase, podName := p.name, observedGeneration := p.generation,
              ready := Some(env.pod.condition))
  }

  function HandlePod(w: World, env: Env): Outcome {
    match env.pod.render
    case None =>
      var s := w.pipe.status.(phase := Failed, ready := Some(Condition(No, RenderError, Text(env.pod.renderMessage))));
      var o := WriteStatus(w, s, env, Done, 0);
      if env.statusWrite.Landed? then o else o.(result := Failure)
    case Some(newHash) =>
      if !env.pod.configApply || !env.pod.podGet then Plain(w, Failure)
      else if w.ownPod.Some? && w.ownPod.value != newHash then
        if env.podDelete then Plain(w.(ownPod := None), Requeue) else Plain(w, Failure)
      else if !env.pod.podApply then Plain(w, Failure)
      else
        var w1 := w.(ownPod := Some(newHash));
        if !env.pod.monitorApply then Plain(w1, Failure)
        else WriteIfChanged(w1, PodStatus(w1.pipe, env), env, Done, 0)
  }

  /** The status written when the cluster path gives up: placement and hash are cleared. */
  function UnplacedStatus(p: Pipeline, phase: Phase, cond: Condition): Status {
    Status(phase, "", "", "", "", "", p.generation, Some(cond), None)
  }

  function GiveUp(w: World, phase: Phase, reason: Reason, message: Message, otherwise: Result, env: Env,
                  puts: nat): Outcome {
    WriteIfChanged(w, UnplacedStatus(w.pipe, phase, Condition(No, reason, message)), env, otherwise, puts)
  }

  /** Table and final outcome after deploying and confirming a stream. */
  function EnsurePresent(t: Table, a: Addr, id: string, body: string, env: Env): (r: (Table, EnsureOutcome, nat)) {
    var t1 := AfterEnsure(t, a, id, body, env.ensure);
    if !env.ensure.Accepted? then (t1, env.ensure, 1)
    else if ReadStatus(t1, a, id, env.verifyRead) == Missing then
      var t2 := AfterDelete(t1, a, id, env.recreateDelete);
      (AfterEnsure(t2, a, id, body, env.ensureAgain), env.ensureAgain, 2)
    else (t1, env.ensure, 1)
  }

  function StreamActiveCondition(r: StatusRead): Condition {
    match r
    case Missing => Condition(No, StreamMissing, Fixed)
    case Unreadable(m) => Condition(Unknown, StatusUnavailable, Text(m))
    case Read(active) => if active then Condition(Yes, StreamRunning, Fixed) else Condition(No, StreamNotActive, Fixed)
  }

  /** The redeploy gate: a changed hash, or a live stream that is missing or stalled. */
  predicate NeedDeploy(w: World, a: Addr, body: string, env: Env) {
    || w.pipe.status.streamConfigHash != StreamConfigHash(InstanceName(a.cluster, a.ordinal), body)
    || (var r := ReadStatus(w.streams, a, w.pipe.name, env.gateRead); r == Missing || r == Read(false))
  }

  function PlacedStatus(p: Pipeline, a: Addr, body: string, live: StatusRead): Status {
    var instance := InstanceName(a.cluster, a.ordinal);
    var moved := p.status.assignedCluster == a.cluster && p.status.assignedInstance != "" &&
        p.status.assignedInstance != instance;
    var cond := if moved then Condition(Yes, Rescheduling, MovedFrom(p.status.assignedInstance, instance))
                else Condition(Yes, Assigned, RunningOn(instance));
    Status(Running, "", a.cluster, instance, p.name, StreamConfigHash(instance, body), p.generation,
           Some(cond), Some(StreamActiveCondition(live)))
  }

  function Deploy(w: World, a: Addr, body: string, env: Env): Outcome {
    var (t, outcome, n) := if NeedDeploy(w, a, body, env) then EnsurePresent(w.streams, a, w.pipe.name, body, env)
                           else (w.streams, Accepted(true), 0);
    var w1 := w.(streams := t);
    match outcome
    case Rejected(m, _) => GiveUp(w1, Failed, StreamConfigInvalid, Text(m), Done, env, n)
    case Transient(_) => Outcome(w1, Failure, n, 0)
    case Accepted(_) =>
      var live := ReadStatus(t, a, w.pipe.name, env.conditionRead);
      WriteIfChanged(w1, PlacedStatus(w.pipe, a, body, live), env, Resync, n)
  }

  /** After the old cluster is cleaned up: pick an instance, build the config, deploy. */
  function PlaceOn(w: World, c: string, env: Env): Outcome {
    if env.pods.None? || env.pipelines.None? then Plain(w, Failure)
    else
      var ready := ReadyOrdinals(env.pods.value, c);
      var load := LoadMap(env.pipelines.value, c, w.pipe.name);
      var current := if w.pipe.status.assignedCluster == c then w.pipe.status.assignedInstance else "";
      match PickInstance(current, c, ready, load)
      case None => GiveUp(w, Pending, ClusterNotReady, About(c), Resync, env, 0)
      case Some(o) =>
        match env.desired
        case RenderFails(m) => GiveUp(w, Failed, RenderError, Text(m), Done, env, 0)
        case RewriteFails(m) => GiveUp(w, Failed, RewriteError, Text(m), Done, env, 0)
        case SecretMissing(m) => GiveUp(w, Failed, SecretNotFound, Text(m), Done, env, 0)
        case Body(text) => Deploy(w, Addr(c, o), text, env)
  }

  function MigrateFrom(w: World, c: string, env: Env): World {
    if w.pipe.status.assignedCluster == c then w else DeleteAssigned(w, env)
  }

  function HandleCluster(w: World, c: string, env: Env): Outcome {
    match env.clusterGet
    case NotFound => GiveUp(w, Failed, ClusterNotFound, About(c), Resync, env, 0)
    case GetError => Plain(w, Failure)
    case Found =>
      if !env.podDelete then Plain(w, Failure)
      else
        var w1 := w.(ownPod := None);
        if !env.configDelete || !env.monitorDelete then Plain(w1, Failure)
        else
          var w2 := MigrateFrom(w1, c, env);
          if w.pipe.status.assignedCluster != c && !DeleteSucceeds(w.pipe.status, env) then Plain(w2, Failure)
          else PlaceOn(w2, c, env)
  }

  function HandleProject(w: World, project: string, env: Env): Outcome {
    match env.projectGet
    case NotFound => GiveUp(w, Failed, ProjectNotFound, About(project), Done, env, 0)
    case GetError => Plain(w, Failure)
    case Found => HandleCluster(w, project + "-cluster", env)
  }

  function Reconcile(w: World, env: Env): Outcome {
    if w.pipe.deleting then
      if !w.pipe.finalizer then Plain(w, Done)
      else
        var w1 := DeleteAssigned(w, env);
        if !DeleteSucceeds(w.pipe.status, env) || !env.finalizerUpdate then Plain(w1, Failure)
        else Plain(w1.(pipe := w1.pipe.(finalizer := false)), Done)
    else if !w.pipe.finalizer then
      if env.finalizerUpdate then Plain(w.(pipe := w.pipe.(finalizer := true)), Requeue) else Plain(w, Failure)
    else if w.pipe.spec.stopped then HandleStopped(w, env)
    else if w.pipe.spec.projectRef.Some? then HandleProject(w, w.pipe.spec.projectRef.value, env)
    else if w.pipe.spec.clusterRef != "" then HandleCluster(w, w.pipe.spec.clusterRef, env)
    else if w.pipe.status.assignedInstance != "" then HandleFallback(w, env)
    else HandlePod(w, env)
  }

  // ---------- runs

  /** Everything that can happen around the reconciler. */
  datatype Event =
    | Reconciled(env: Env)
    | Edited(spec: Spec)
    | DeleteRequested
    | PodRestarted(at: Addr)
    | StreamLost(at: Addr)
    | StreamStalled(at: Addr)
    | OwnPodGone

  function Next(w: World, e: Event): World {
    match e
    case Reconciled(env) => Reconcile(w, env).world
    case Edited(spec) => w.(pipe := w.pipe.(spec := spec, generation := w.pipe.generation + 1))
    case DeleteRequested => w.(pipe := w.pipe.(deleting := true))
    case PodRestarted(a) => w.(streams := DropPod(w.streams, a))
    case StreamLost(a) => w.(streams := Remove(w.streams, a, w.pipe.name))
    case StreamStalled(a) =>
      (match Find(w.streams, a, w.pipe.name)
       case None => w
       case Some(s) => w.(streams := Put(w.streams, a, w.pipe.name, s.(active := false))))
    case OwnPodGone => w.(ownPod := None)
  }

  function Run(w: World, events: seq<Event>): World {
    if events == [] then w else Next(Run(w, events[..|events| - 1]), events[|events| - 1])
  }

  /** A condition that holds of every reconcile of a run, in the state it starts from. */
  ghost predicate Throughout(ok: (World, Env) -> bool, w: World, events: seq<Event>) {
    events == [] ||
    (var before := events[..|events| - 1];
     var e := events[|events| - 1];
     Throughout(ok, w, before) && (e.Reconciled? ==> ok(Run(w, before), e.env)))
  }

  /** A property of the state that holds at every point of a run. */
  ghost predicate Always(p: World -> bool, w: World, events: seq<Event>) {
    forall i :: 0 <= i <= |events| ==> p(Run(w, events[..i]))
  }

  lemma AlwaysSplit(p: World -> bool, w: World, events: seq<Event>)
    requires events != []
    ensures Always(p, w, events) <==> Always(p, w, events[..|events| - 1]) && p(Run(w, events))
    ensures Always(p, w, events[..|events| - 1]) ==> p(Run(w, events[..|events| - 1]))
  {
    hide Run, Always;
    var before := events[..|events| - 1];
    if Always(p, w, events) {
      AlwaysShorter(p, w, events);
    }
    if Always(p, w, before) {
      AlwaysAtEnd(p, w, before);
      if p(Run(w, events)) {
        AlwaysLonger(p, w, events);
      }
    }
  }

  lemma AlwaysAtEnd(p: World -> bool, w: World, events: seq<Event>)
    requires Always(p, w, events)
    ensures p(Run(w, events))
  {
    hide Run;
    assert events[..|events|] == events;
  }

  lemma AlwaysShorter(p: World -> bool, w: World, events: seq<Event>)
    requires events != [] && Always(p, w, events)
    ensures Always(p, w, events[..|events| - 1]) && p(Run(w, events))
  {
    hide Run;
    AlwaysAtEnd(p, w, events);
    var before := events[..|events| - 1];
    forall i | 0 <= i <= |before| ensures p(Run(w, before[..i])) {
      assert before[..i] == events[..i];
    }
  }

  lemma AlwaysLonger(p: World -> bool, w: World, events: seq<Event>)
    requires events != [] && Always(p, w, events[..|events| - 1]) && p(Run(w, events))
    ensures Always(p, w, events)
  {
    hide Run;
    var before := events[..|events| - 1];
    forall i | 0 <= i <= |events| ensures p(Run(w, events[..i])) {
      if i == |events| {
        assert events[..i] == events;
      } else {
        assert events[..i] == before[..i];
      }
    }
  }

  /** A resource just created: no status, no finalizer, no pod, no stream anywhere. */
  ghost predicate Fresh(w: World) {
    && w.pipe.name != "" && w.pipe.status == EMPTY_STATUS && !w.pipe.finalizer && !w.pipe.deleting
    && w.ownPod.None? && forall a :: !Holds(w, a)
  }
}
