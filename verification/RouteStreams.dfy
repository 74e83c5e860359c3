/** Reconciling a project's routes with its JetStream: one stream per route, and no stream of a
    route that is gone. */
module RouteStreams {
  import opened Prelude
  import opened Graphs
  import opened CycleSearch
  import opened ProjectRoutes

  datatype RouteStatus = RouteStatus(name: string, subject: string, stream: string, ready: bool)

  /** What the calls of one project reconcile return: the live pipelines (none if listing them or an
      earlier call failed), how predicates parse, and which of the later calls fail. */
  datatype Env = Env(pipelines: Option<map<string, PipelineView>>, parses: string -> bool,
                     ensureFails: set<nat>, deleteFails: set<string>, laterFails: bool, statusWrite: bool)

  datatype World = World(project: Project, status: seq<RouteStatus>, streams: map<string, string>)

  /** The route table is valid against the live pipelines. */
  ghost predicate Valid(w: World, env: Env) {
    env.pipelines.Some? && Accepted(w.project, env.pipelines.value, env.parses)
  }

  // ---------- the steps

  /** Streams after ensuring those of the first routes; a failing call creates nothing. */
  function Ensured(project: string, routes: seq<Route>, fails: set<nat>, streams: map<string, string>)
    : map<string, string>
  {
    if routes == [] then streams
    else
      var i := |routes| - 1;
      var before := Ensured(project, routes[..i], fails, streams);
      if i in fails then before else before[StreamName(project, routes[i].name) := Subject(project, routes[i].name)]
  }

  function StatusOf(project: string, r: Route, ready: bool): RouteStatus {
    RouteStatus(r.name, Subject(project, r.name), StreamName(project, r.name), ready)
  }

  function Statuses(project: string, routes: seq<Route>, fails: set<nat>): seq<RouteStatus> {
    seq(|routes|, i requires 0 <= i < |routes| => StatusOf(project, routes[i], i !in fails))
  }

  predicate Desired(project: string, routes: seq<Route>, stream: string) {
    exists i :: 0 <= i < |routes| && StreamName(project, routes[i].name) == stream
  }

  predicate Stale(project: string, routes: seq<Route>, s: RouteStatus) {
    !Desired(project, routes, s.stream) && s.stream != ""
  }

  /** Deleting the stale streams in order, stopping at the first call that fails. */
  function Pruned(project: string, routes: seq<Route>, old_: seq<RouteStatus>, fails: set<string>,
                  streams: map<string, string>): (map<string, string>, bool) {
    if old_ == [] then (streams, true)
    else if !Stale(project, routes, old_[0]) then Pruned(project, routes, old_[1..], fails, streams)
    else if old_[0].stream in fails then (streams, false)
    else Pruned(project, routes, old_[1..], fails, streams - {old_[0].stream})
  }

  /** All stale streams can be deleted. */
  predicate PrunesAll(w: World, env: Env) {
    forall i :: 0 <= i < |w.status| && Stale(w.project.name, w.project.routes, w.status[i]) ==>
        w.status[i].stream !in env.deleteFails
  }

  ghost predicate ReachesStatusWrite(w: World, env: Env) {
    env.pipelines.Some? && env.statusWrite && !env.laterFails && (Valid(w, env) ==> PrunesAll(w, env))
  }

  function Provisioned(w: World, env: Env): (map<string, string>, bool) {
    Pruned(w.project.name, w.project.routes, w.status, env.deleteFails,
           Ensured(w.project.name, w.project.routes, env.ensureFails, w.streams))
  }

  ghost function Provision(w: World, env: Env): World {
    var streams := if Valid(w, env) then Provisioned(w, env).0 else w.streams;
    var status := if !ReachesStatusWrite(w, env) then w.status
                  else if Valid(w, env) then Statuses(w.project.name, w.project.routes, env.ensureFails)
                  else [];
    w.(streams := streams, status := status)
  }

  // ---------- the source's form

  class StreamManager {
    var streams: map<string, string>

    constructor (streams: map<string, string>)
      ensures this.streams == streams
    {
      this.streams := streams;
    }

    method EnsureStream(stream: string, subject: string, fails: bool) returns (ok: bool)
      modifies this
      ensures ok == !fails && streams == if fails then old(streams) else old(streams)[stream := subject]
    {
      if !fails {
        streams := streams[stream := subject];
      }
      ok := !fails;
    }

    method DeleteStream(stream: string, fails: bool) returns (ok: bool)
      modifies this
      ensures ok == !fails && streams == if fails then old(streams) else old(streams) - {stream}
    {
      if !fails {
        streams := streams - {stream};
      }
      ok := !fails;
    }
  }

  /** One stream per route; a failing call only shows in the route's status. */
  method EnsureRoutes(m: StreamManager, project: string, routes: seq<Route>, fails: set<nat>)
    returns (statuses: seq<RouteStatus>, desired: set<string>)
    modifies m
    ensures m.streams == Ensured(project, routes, fails, old(m.streams)) && statuses == Statuses(project, routes, fails)
    ensures forall s :: s in desired <==> Desired(project, routes, s)
  {
    hide StreamName, Subject;
    desired, statuses := {}, [];
    for i := 0 to |routes|
      invariant m.streams == Ensured(project, routes[..i], fails, old(m.streams)) &&
                statuses == Statuses(project, routes[..i], fails)
      invariant forall s :: s in desired <==> exists k :: 0 <= k < i && StreamName(project, routes[k].name) == s
    {
      var r := routes[i];
      assert routes[..i + 1][..i] == routes[..i];
      var stream, subject := StreamName(project, r.name), Subject(project, r.name);
      desired := desired + {stream};
      var created := m.EnsureStream(stream, subject, i in fails);
      statuses := statuses + [RouteStatus(r.name, subject, stream, created)];
    }
    assert routes[..|routes|] == routes;
  }

  /** The recorded streams that are no longer desired are deleted, up to the first call that fails. */
  method PruneStreams(m: StreamManager, desired: set<string>, status: seq<RouteStatus>, fails: set<string>,
                      ghost project: string, ghost routes: seq<Route>)
    returns (ok: bool)
    requires forall s :: s in desired <==> Desired(project, routes, s)
    modifies m
    ensures (m.streams, ok) == Pruned(project, routes, status, fails, old(m.streams))
    ensures forall s :: s in m.streams <==> s in old(m.streams) && !IsDeleted(project, routes, status, fails, s)
  {
    hide Desired, IsDeleted;
    PrunedExact(project, routes, status, fails, m.streams);
    for i := 0 to |status|
      invariant Pruned(project, routes, status[i..], fails, m.streams) ==
                Pruned(project, routes, status, fails, old(m.streams))
    {
      assert status[i..][1..] == status[i + 1..];
      if status[i].stream !in desired && status[i].stream != "" {
        ok := m.DeleteStream(status[i].stream, status[i].stream in fails);
        if !ok { return; }
      }
    }
    ok := true;
  }

  /** Each route is reported, in order, with its stream and subject, and as Ready exactly if the call that
      ensures its stream succeeded. */
  ghost predicate Reports(status: seq<RouteStatus>, project: Project, env: Env) {
    && |status| == |project.routes|
    && forall i :: 0 <= i < |status| ==>
         && status[i].name == project.routes[i].name
         && status[i].subject == Subject(project.name, project.routes[i].name)
         && status[i].stream == StreamName(project.name, project.routes[i].name)
         && (status[i].ready <==> i !in env.ensureFails)
  }

  method ReconcileRouteStreams(m: StreamManager, w: World, env: Env) returns (statuses: seq<RouteStatus>, ok: bool)
    requires m.streams == w.streams
    modifies m
    ensures m.streams == Provisioned(w, env).0 && ok == PrunesAll(w, env)
    ensures statuses == Statuses(w.project.name, w.project.routes, env.ensureFails)
    ensures Reports(statuses, w.project, env)
  {
    hide Ensured, Pruned, Stale;
    PrunedOk(w.project.name, w.project.routes, w.status, env.deleteFails,
             Ensured(w.project.name, w.project.routes, env.ensureFails, w.streams));
    var desired;
    statuses, desired := EnsureRoutes(m, w.project.name, w.project.routes, env.ensureFails);
    ok := PruneStreams(m, desired, w.status, env.deleteFails, w.project.name, w.project.routes);
  }

  /** The project reconciler around it: provision only a valid table, then write the status. */
  class ProjectReconciler {
    var project: Project
    var status: seq<RouteStatus>
    const manager: StreamManager

    constructor (project: Project, manager: StreamManager)
      ensures this.project == project && this.manager == manager && status == []
    {
      this.project, this.manager := project, manager;
      status := [];
    }

    ghost function State(): World
      reads this, manager
    {
      World(project, status, manager.streams)
    }

    /** One reconcile performs the step; the streams match the routes and their statuses afterwards
        exactly if it leaves them current, and with every stream recorded before, every stream is
        recorded afterwards exactly if the step does not lose track. */
    method Reconcile(env: Env) returns (ok: bool)
      modifies this`status, manager
      ensures State() == Provision(old(State()), env)
      ensures ok == ReachesStatusWrite(old(State()), env)
      ensures old(Tracked(State())) ==> (Tracked(State()) <==> !LosesTrack(old(State()), env))
      ensures Current(State()) <==> LeavesCurrent(old(State()), env)
      ensures ok ==> if Valid(old(State()), env) then Reports(status, project, env) else status == []
    {
      hide Accepted, Tracked, Current, LosesTrack, LeavesCurrent, Pruned, Ensured, Statuses;
      ghost var before := State();
      CurrentExact(before, env);
      if Tracked(before) {
        TrackedExact(before, env);
      }
      if env.pipelines.None? { return false; }
      var errs := ValidateProject(project, env.pipelines.value, env.parses);
      var statuses := [];
      if |errs| == 0 {
        var w := World(project, status, manager.streams);
        statuses, ok := ReconcileRouteStreams(manager, w, env);
        if !ok { return; }
      }
      if env.laterFails || !env.statusWrite { return false; }
      status := statuses;
      ok := true;
    }
  }

  // ---------- what every reconcile keeps

  ghost predicate Recorded(status: seq<RouteStatus>, stream: string) {
    exists i :: 0 <= i < |status| && status[i].stream == stream
  }

  /** Every stream that exists is recorded in the status, so a later reconcile can delete it. */
  ghost predicate Tracked(w: World) {
    forall s :: s in w.streams ==> s != "" && Recorded(w.status, s)
  }

  /** The recorded route names its stream and subject as the table does. */
  predicate Matches(w: World) {
    && |w.status| == |w.project.routes|
    && forall i :: 0 <= i < |w.status| ==>
        w.status[i] == StatusOf(w.project.name, w.project.routes[i], w.status[i].ready)
  }

  /** The stream of route i exists, with its own subject. */
  predicate HasStream(w: World, i: nat)
    requires i < |w.project.routes|
  {
    var r := w.project.routes[i].name;
    StreamName(w.project.name, r) in w.streams && w.streams[StreamName(w.project.name, r)] == Subject(w.project.name, r)
  }

  /** The streams are those of current routes, and every Ready route has its own. */
  ghost predicate Current(w: World) {
    && (forall s :: s in w.streams ==> Desired(w.project.name, w.project.routes, s))
    && Matches(w)
    && (forall i :: 0 <= i < |w.status| && w.status[i].ready ==> HasStream(w, i))
  }

  lemma {:induction false} EnsuredShape(project: string, routes: seq<Route>, fails: set<nat>,
                                        streams: map<string, string>)
    ensures
      var r := Ensured(project, routes, fails, streams);
      && (forall s :: s in r <==>
            s in streams || exists i :: 0 <= i < |routes| && i !in fails && StreamName(project, routes[i].name) == s)
      && (forall i :: 0 <= i < |routes| && i !in fails ==>
            r[StreamName(project, routes[i].name)] == Subject(project, routes[i].name))
  {
    hide StreamName, Subject;
    if routes != [] {
      var n := |routes| - 1;
      EnsuredShape(project, routes[..n], fails, streams);
      var before, r := Ensured(project, routes[..n], fails, streams), Ensured(project, routes, fails, streams);
      assert forall i :: 0 <= i < n ==> routes[..n][i] == routes[i];
      forall i | 0 <= i < |routes| && i !in fails
        ensures StreamName(project, routes[i].name) in r &&
                r[StreamName(project, routes[i].name)] == Subject(project, routes[i].name)
      {
        if i < n {
          assert StreamName(project, routes[..n][i].name) in before;
          if n !in fails && StreamName(project, routes[i].name) == StreamName(project, routes[n].name) {
            StreamNameInjective(project, routes[i].name, routes[n].name);
          }
        }
      }
      forall s | s in before
        ensures s in streams
                || exists i :: 0 <= i < |routes| && i !in fails && StreamName(project, routes[i].name) == s
      {
        if s !in streams {
          var i :| 0 <= i < n && i !in fails && StreamName(project, routes[..n][i].name) == s;
          assert StreamName(project, routes[i].name) == s;
        }
      }
    }
  }

  lemma {:induction false} PrunedShape(project: string, routes: seq<Route>, old_: seq<RouteStatus>, fails: set<string>,
                                       streams: map<string, string>)
    ensures
      var (r, ok) := Pruned(project, routes, old_, fails, streams);
      && (forall s :: s in r ==> s in streams && r[s] == streams[s])
      && (forall s :: s in streams && (Desired(project, routes, s) || s == "" || !Recorded(old_, s)) ==> s in r)
      && (ok ==> forall s :: s in r && s != "" && Recorded(old_, s) ==> Desired(project, routes, s))
    decreases |old_|
  {
    hide Desired;
    if old_ != [] {
      assert forall s :: Recorded(old_, s) <==> s == old_[0].stream || Recorded(old_[1..], s) by {
        RecordedSplit(old_);
      }
      if !Stale(project, routes, old_[0]) {
        PrunedShape(project, routes, old_[1..], fails, streams);
      } else if old_[0].stream !in fails {
        PrunedShape(project, routes, old_[1..], fails, streams - {old_[0].stream});
      }
    }
  }

  lemma {:induction false} PrunedOk(project: string, routes: seq<Route>, old_: seq<RouteStatus>, fails: set<string>,
                                    streams: map<string, string>)
    ensures Pruned(project, routes, old_, fails, streams).1
            <==> forall i :: 0 <= i < |old_| && Stale(project, routes, old_[i]) ==> old_[i].stream !in fails
    decreases |old_|
  {
    hide Stale;
    if old_ != [] {
      assert forall i :: 0 < i < |old_| ==> old_[i] == old_[1..][i - 1];
      assert forall i :: 0 <= i < |old_[1..]| ==> old_[1..][i] == old_[i + 1];
      if !Stale(project, routes, old_[0]) {
        PrunedOk(project, routes, old_[1..], fails, streams);
      } else if old_[0].stream !in fails {
        PrunedOk(project, routes, old_[1..], fails, streams - {old_[0].stream});
      }
    }
  }

  /** The deletion of the j-th recorded stream is reached and succeeds. */
  ghost predicate DeletedAt(project: string, routes: seq<Route>, old_: seq<RouteStatus>, fails: set<string>, j: int) {
    && 0 <= j < |old_| && Stale(project, routes, old_[j])
    && forall i :: 0 <= i <= j && Stale(project, routes, old_[i]) ==> old_[i].stream !in fails
  }

  ghost predicate IsDeleted(project: string, routes: seq<Route>, old_: seq<RouteStatus>, fails: set<string>,
                            s: string) {
    exists j :: DeletedAt(project, routes, old_, fails, j) && old_[j].stream == s
  }

  /** Pruning deletes exactly the stale recorded streams before the first failing call. */
  lemma {:induction false} PrunedExact(project: string, routes: seq<Route>, old_: seq<RouteStatus>, fails: set<string>,
                                       streams: map<string, string>)
    ensures
      var r := Pruned(project, routes, old_, fails, streams).0;
      && (forall s :: s in r <==> s in streams && !IsDeleted(project, routes, old_, fails, s))
      && (forall s :: s in r ==> r[s] == streams[s])
    decreases |old_|
  {
    hide Stale, IsDeleted;
    if old_ == [] {
      forall s ensures !IsDeleted(project, routes, old_, fails, s) {
        NoneDeleted(project, routes, fails, s);
      }
    } else {
      forall s ensures IsDeleted(project, routes, old_, fails, s) <==>
          !(Stale(project, routes, old_[0]) && old_[0].stream in fails) &&
          ((Stale(project, routes, old_[0]) && old_[0].stream == s) || IsDeleted(project, routes, old_[1..], fails, s))
      {
        DeletedSplit(project, routes, old_, fails, s);
      }
      if !Stale(project, routes, old_[0]) {
        PrunedExact(project, routes, old_[1..], fails, streams);
      } else if old_[0].stream !in fails {
        PrunedExact(project, routes, old_[1..], fails, streams - {old_[0].stream});
        var r := Pruned(project, routes, old_[1..], fails, streams - {old_[0].stream}).0;
        assert Pruned(project, routes, old_, fails, streams).0 == r;
        forall s ensures s in r <==> s in streams && !IsDeleted(project, routes, old_, fails, s) {
          assert s in streams - {old_[0].stream} <==> s in streams && s != old_[0].stream;
          DeletedSplit(project, routes, old_, fails, s);
        }
      }
    }
  }

  lemma NoneDeleted(project: string, routes: seq<Route>, fails: set<string>, s: string)
    ensures !IsDeleted(project, routes, [], fails, s)
  {
  }

  lemma DeletedSplit(project: string, routes: seq<Route>, old_: seq<RouteStatus>, fails: set<string>, s: string)
    requires old_ != []
    ensures
      var stale := Stale(project, routes, old_[0]);
      IsDeleted(project, routes, old_, fails, s) <==>
        !(stale && old_[0].stream in fails)
        && ((stale && old_[0].stream == s) || IsDeleted(project, routes, old_[1..], fails, s))
  {
    hide Stale;
    assert forall i :: 0 <= i < |old_[1..]| ==> old_[1..][i] == old_[i + 1];
    if IsDeleted(project, routes, old_, fails, s) {
      var j :| DeletedAt(project, routes, old_, fails, j) && old_[j].stream == s;
      if j > 0 {
        assert forall i :: 0 <= i <= j - 1 ==> old_[1..][i] == old_[i + 1];
        assert DeletedAt(project, routes, old_[1..], fails, j - 1);
      }
    }
    var stale := Stale(project, routes, old_[0]);
    if !(stale && old_[0].stream in fails) {
      if stale && old_[0].stream == s {
        assert DeletedAt(project, routes, old_, fails, 0);
      }
      if IsDeleted(project, routes, old_[1..], fails, s) {
        var j :| DeletedAt(project, routes, old_[1..], fails, j) && old_[1..][j].stream == s;
        forall i | 0 <= i <= j + 1 && Stale(project, routes, old_[i]) ensures old_[i].stream !in fails {
          if i > 0 {
            assert old_[1..][i - 1] == old_[i];
          }
        }
        assert DeletedAt(project, routes, old_, fails, j + 1);
      }
    }
  }

  lemma RecordedSplit(status: seq<RouteStatus>)
    requires status != []
    ensures forall s :: Recorded(status, s) <==> s == status[0].stream || Recorded(status[1..], s)
  {
    forall s ensures Recorded(status, s) <==> s == status[0].stream || Recorded(status[1..], s) {
      if Recorded(status, s) && s != status[0].stream {
        var i :| 0 <= i < |status| && status[i].stream == s;
        assert status[1..][i - 1].stream == s;
      }
      if Recorded(status[1..], s) {
        var i :| 0 <= i < |status[1..]| && status[1..][i].stream == s;
        assert status[i + 1].stream == s;
      }
    }
  }

  /** The reconciles after which a stream exists that the status does not know: an invalid route
      table empties the recorded list while streams exist, or a new stream is created and the
      reconcile does not reach its status write. */
  ghost predicate LosesTrack(w: World, env: Env) {
    if Valid(w, env)
    then !ReachesStatusWrite(w, env) && exists i :: 0 <= i < |w.project.routes| && Creates(w, env, i)
    else ReachesStatusWrite(w, env) && w.streams != map[]
  }

  /** The stream of route i is created although the status does not record it. */
  ghost predicate Creates(w: World, env: Env, i: nat)
    requires i < |w.project.routes|
  {
    i !in env.ensureFails && !Recorded(w.status, StreamName(w.project.name, w.project.routes[i].name))
  }

  lemma NamesNonEmpty(project: string, route: string)
    ensures StreamName(project, route) != ""
  {
  }

  lemma DesiredIsRecorded(project: string, routes: seq<Route>, fails: set<nat>, s: string)
    ensures Recorded(Statuses(project, routes, fails), s) <==> Desired(project, routes, s)
  {
    var st := Statuses(project, routes, fails);
    if Desired(project, routes, s) {
      var i :| 0 <= i < |routes| && StreamName(project, routes[i].name) == s;
      assert st[i].stream == s;
    }
    if Recorded(st, s) {
      var i :| 0 <= i < |st| && st[i].stream == s;
      assert StreamName(project, routes[i].name) == s;
    }
  }

  /** What provisioning a valid table leaves. */
  lemma ProvisionedShape(w: World, env: Env)
    ensures
      var p, routes := w.project.name, w.project.routes;
      var (r, ok) := Provisioned(w, env);
      && ok == PrunesAll(w, env)
      && (forall s :: s in r ==>
            s in w.streams
            || exists i :: 0 <= i < |routes| && i !in env.ensureFails && StreamName(p, routes[i].name) == s)
      && (forall s :: s in w.streams && (Desired(p, routes, s) || s == "" || !Recorded(w.status, s)) ==> s in r)
      && (forall i :: 0 <= i < |routes| && i !in env.ensureFails ==>
            StreamName(p, routes[i].name) in r && r[StreamName(p, routes[i].name)] == Subject(p, routes[i].name))
      && (ok ==> forall s :: s in r && s != "" && Recorded(w.status, s) ==> Desired(p, routes, s))
  {
    hide StreamName, Subject, Ensured, Pruned;
    var p, routes := w.project.name, w.project.routes;
    var ensured := Ensured(p, routes, env.ensureFails, w.streams);
    EnsuredShape(p, routes, env.ensureFails, w.streams);
    PrunedShape(p, routes, w.status, env.deleteFails, ensured);
    PrunedOk(p, routes, w.status, env.deleteFails, ensured);
    forall i | 0 <= i < |routes| && i !in env.ensureFails
      ensures StreamName(p, routes[i].name) in Provisioned(w, env).0
    {
      assert Desired(p, routes, StreamName(p, routes[i].name));
    }
  }

  /** One reconcile keeps every stream tracked exactly if it does not lose track. */
  lemma TrackedExact(w: World, env: Env)
    requires Tracked(w)
    ensures Tracked(Provision(w, env)) <==> !LosesTrack(w, env)
  {
    hide StreamName, Subject, Provisioned, Statuses, Accepted, PrunesAll;
    var p, routes := w.project.name, w.project.routes;
    ProvisionedShape(w, env);
    var w' := Provision(w, env);
    forall s ensures Recorded(Statuses(p, routes, env.ensureFails), s) <==> Desired(p, routes, s) {
      DesiredIsRecorded(p, routes, env.ensureFails, s);
    }
    forall i | 0 <= i < |routes| ensures StreamName(p, routes[i].name) != "" {
      NamesNonEmpty(p, routes[i].name);
    }
    if Valid(w, env) {
      if LosesTrack(w, env) {
        var i :| 0 <= i < |routes| && Creates(w, env, i);
        assert StreamName(p, routes[i].name) in w'.streams;
      } else {
        forall s | s in w'.streams ensures s != "" && Recorded(w'.status, s) {
          if s !in w.streams {
            var i :| 0 <= i < |routes| && i !in env.ensureFails && StreamName(p, routes[i].name) == s;
            assert Desired(p, routes, s) && (Creates(w, env, i) ==> ReachesStatusWrite(w, env));
          }
        }
      }
    } else if ReachesStatusWrite(w, env) && w.streams != map[] {
      var s :| s in w.streams;
      assert !Recorded([], s);
    }
  }

  /** Every stream belongs to a current route. */
  ghost predicate AllDesired(w: World) {
    forall s :: s in w.streams ==> Desired(w.project.name, w.project.routes, s)
  }

  /** Every stream belongs to a current route or is recorded, so that it can be deleted. */
  ghost predicate AllInReach(w: World) {
    forall s :: s in w.streams ==> Desired(w.project.name, w.project.routes, s) || (s != "" && Recorded(w.status, s))
  }

  /** When one reconcile leaves streams and statuses as the routes say. With a valid table and a status
      write, if no stream is out of reach; without the write, if there is no other stream, the old
      status matches the routes, and a Ready route whose creation fails has its stream; with an
      invalid table, if there is nothing to forget or nothing is written. */
  ghost predicate LeavesCurrent(w: World, env: Env) {
    if Valid(w, env) then
      if ReachesStatusWrite(w, env) then AllInReach(w)
      else
        && AllDesired(w) && Matches(w)
        && forall i :: 0 <= i < |w.status| && w.status[i].ready && i in env.ensureFails ==> HasStream(w, i)
    else if ReachesStatusWrite(w, env) then w.project.routes == [] && w.streams == map[]
    else Current(w)
  }

  lemma CurrentExact(w: World, env: Env)
    ensures Current(Provision(w, env)) <==> LeavesCurrent(w, env)
  {
    hide Accepted, Provisioned, StreamName, Subject, PrunesAll;
    if !Valid(w, env) {
      if ReachesStatusWrite(w, env) && w.project.routes == [] && w.streams != map[] {
        var s :| s in w.streams;
        assert !Desired(w.project.name, [], s);
      }
      assert !ReachesStatusWrite(w, env) ==> Provision(w, env) == w;
    } else if ReachesStatusWrite(w, env) {
      WrittenCurrent(w, env);
    } else {
      UnwrittenCurrent(w, env);
    }
  }

  lemma WrittenCurrent(w: World, env: Env)
    requires Valid(w, env) && ReachesStatusWrite(w, env)
    ensures Current(Provision(w, env)) <==> AllInReach(w)
  {
    hide StreamName, Subject, Provisioned, Accepted, PrunesAll, Desired;
    ProvisionedShape(w, env);
    var p, routes, w' := w.project.name, w.project.routes, Provision(w, env);
    forall s | s in w'.streams && s !in w.streams ensures Desired(p, routes, s) {
      var i :| 0 <= i < |routes| && i !in env.ensureFails && StreamName(p, routes[i].name) == s;
      RouteDesired(p, routes, i);
    }
  }

  lemma RouteDesired(project: string, routes: seq<Route>, i: nat)
    requires i < |routes|
    ensures Desired(project, routes, StreamName(project, routes[i].name))
  {
  }

  lemma UnwrittenCurrent(w: World, env: Env)
    requires Valid(w, env) && !ReachesStatusWrite(w, env)
    ensures Current(Provision(w, env)) <==> LeavesCurrent(w, env)
  {
    hide StreamName, Subject, Provisioned, Accepted, PrunesAll, Desired;
    ProvisionedShape(w, env);
    var p, routes, w' := w.project.name, w.project.routes, Provision(w, env);
    if Matches(w) {
      forall s | Recorded(w.status, s) ensures Desired(p, routes, s) {
        var i :| 0 <= i < |w.status| && w.status[i].stream == s;
        RouteDesired(p, routes, i);
      }
      forall s | s in w'.streams && s !in w.streams ensures Desired(p, routes, s) {
        var i :| 0 <= i < |routes| && i !in env.ensureFails && StreamName(p, routes[i].name) == s;
        RouteDesired(p, routes, i);
      }
      forall i | 0 <= i < |w.status| && i in env.ensureFails ensures HasStream(w', i) <==> HasStream(w, i) {
        UntouchedStream(w, env, i);
      }
    }
  }

  /** Provisioning leaves the stream of a route whose creation fails as it was. */
  lemma UntouchedStream(w: World, env: Env, i: nat)
    requires Valid(w, env) && i < |w.project.routes| && i in env.ensureFails
    ensures HasStream(Provision(w, env), i) <==> HasStream(w, i)
  {
    hide StreamName, Subject, Ensured, Pruned, HasCycle, RouteGraph;
    var p, routes := w.project.name, w.project.routes;
    var ensured := Ensured(p, routes, env.ensureFails, w.streams);
    EnsuredShape(p, routes, env.ensureFails, w.streams);
    PrunedShape(p, routes, w.status, env.deleteFails, ensured);
    var s := StreamName(p, routes[i].name);
    assert Desired(p, routes, s);
    EnsuredOther(p, routes, env.ensureFails, w.streams, routes[i].name);
  }

  lemma {:induction false} EnsuredOther(project: string, routes: seq<Route>, fails: set<nat>,
                                        streams: map<string, string>, name: string)
    requires forall k :: 0 <= k < |routes| && routes[k].name == name ==> k in fails
    ensures
      var s, r := StreamName(project, name), Ensured(project, routes, fails, streams);
      (s in r <==> s in streams) && (s in streams ==> r[s] == streams[s])
  {
    hide StreamName, Subject;
    if routes != [] {
      var n := |routes| - 1;
      assert forall k :: 0 <= k < n ==> routes[..n][k] == routes[k];
      EnsuredOther(project, routes[..n], fails, streams, name);
      if n !in fails && StreamName(project, name) == StreamName(project, routes[n].name) {
        StreamNameInjective(project, name, routes[n].name);
      }
    }
  }

  // ---------- runs

  datatype Event = Edited(project: Project) | Reconciled(env: Env)

  /** A project keeps its name. */
  ghost function Next(w: World, e: Event): World {
    match e
    case Edited(project) => w.(project := project.(name := w.project.name))
    case Reconciled(env) => Provision(w, env)
  }

  ghost function Run(w: World, events: seq<Event>): World {
    if |events| == 0 then w else Next(Run(w, events[..|events| - 1]), events[|events| - 1])
  }

  ghost predicate NeverLoses(w: World, events: seq<Event>) {
    forall i :: 0 <= i < |events| && events[i].Reconciled? ==> !LosesTrack(Run(w, events[..i]), events[i].env)
  }

  ghost predicate AlwaysTracked(w: World, events: seq<Event>) {
    forall i :: 0 <= i <= |events| ==> Tracked(Run(w, events[..i]))
  }

  /** Over a whole run: every stream is recorded at every point, and so can be deleted later, if and
      only if no reconcile loses track. */
  lemma {:induction false} TrackedAlways(w: World, events: seq<Event>)
    requires w.streams == map[]
    ensures AlwaysTracked(w, events) <==> NeverLoses(w, events)
  {
    hide Tracked, LosesTrack, Provision;
    if |events| == 0 {
      assert Tracked(w) by { NothingTracked(w); }
    } else {
      var n := |events| - 1;
      var before := events[..n];
      TrackedAlways(w, before);
      TrackedSplit(w, events);
      NeverLosesSplit(w, events);
      var mid := Run(w, before);
      if AlwaysTracked(w, before) {
        assert before[..n] == before && Tracked(mid);
        if events[n].Reconciled? {
          TrackedExact(mid, events[n].env);
        } else {
          EditTracked(mid, events[n].project);
        }
      }
    }
  }

  lemma NothingTracked(w: World)
    requires w.streams == map[]
    ensures Tracked(w)
  {
  }

  lemma EditTracked(w: World, project: Project)
    requires Tracked(w)
    ensures Tracked(w.(project := project.(name := w.project.name)))
  {
  }

  lemma TrackedSplit(w: World, events: seq<Event>)
    requires |events| > 0
    ensures AlwaysTracked(w, events) <==> AlwaysTracked(w, events[..|events| - 1]) && Tracked(Run(w, events))
  {
    hide Tracked, Run;
    var before := events[..|events| - 1];
    assert events[..|events|] == events;
    forall i | 0 <= i <= |events|
      ensures AlwaysTracked(w, before) && Tracked(Run(w, events)) ==> Tracked(Run(w, events[..i]))
    {
      if i <= |before| {
        assert events[..i] == before[..i];
      }
    }
    forall i | 0 <= i <= |before| ensures AlwaysTracked(w, events) ==> Tracked(Run(w, before[..i])) {
      assert events[..i] == before[..i];
    }
  }

  lemma NeverLosesSplit(w: World, events: seq<Event>)
    requires |events| > 0
    ensures
      var n := |events| - 1;
      NeverLoses(w, events) <==>
          NeverLoses(w, events[..n]) && (events[n].Reconciled? ==> !LosesTrack(Run(w, events[..n]), events[n].env))
  {
    hide LosesTrack, Run;
    var n := |events| - 1;
    var before := events[..n];
    forall i | 0 <= i < n ensures before[i] == events[i] && before[..i] == events[..i] {}
  }

  /** After every reconcile of the run, streams and statuses are as the routes say. */
  ghost predicate CurrentThroughout(w: World, events: seq<Event>) {
    forall i :: 0 <= i < |events| && events[i].Reconciled? ==> Current(Provision(Run(w, events[..i]), events[i].env))
  }

  ghost predicate EachLeavesCurrent(w: World, events: seq<Event>) {
    forall i :: 0 <= i < |events| && events[i].Reconciled? ==> LeavesCurrent(Run(w, events[..i]), events[i].env)
  }

  /** Through any sequence of route edits and failing calls, from any state: after every reconcile the
      streams are those of the current routes, each Ready one with its own subject, if and only if
      every reconcile meets its condition. */
  lemma StreamsFollowRoutes(w: World, events: seq<Event>)
    ensures CurrentThroughout(w, events) <==> EachLeavesCurrent(w, events)
    ensures forall i :: 0 <= i < |events| && events[i].Reconciled? ==>
              Run(w, events[..i + 1]) == Provision(Run(w, events[..i]), events[i].env)
  {
    hide Provision, Current, LeavesCurrent;
    forall i | 0 <= i < |events| && events[i].Reconciled?
      ensures Current(Provision(Run(w, events[..i]), events[i].env)) <==>
              LeavesCurrent(Run(w, events[..i]), events[i].env)
      ensures Run(w, events[..i + 1]) == Provision(Run(w, events[..i]), events[i].env)
    {
      CurrentExact(Run(w, events[..i]), events[i].env);
      assert events[..i + 1][..i] == events[..i];
    }
  }

  /** Over every run, from every state: a reconcile of a valid table that reaches its status write reports
      every route, Ready exactly if its stream was ensured; of an invalid one, it reports none. */
  lemma RoutesReported(w: World, events: seq<Event>, i: nat)
    requires i < |events| && events[i].Reconciled? && ReachesStatusWrite(Run(w, events[..i]), events[i].env)
    ensures
      var after := Run(w, events[..i + 1]);
      if Valid(Run(w, events[..i]), events[i].env) then Reports(after.status, after.project, events[i].env)
      else after.status == []
  {
    hide StreamName, Subject, Provisioned, Valid, PrunesAll;
    assert events[..i + 1][..i] == events[..i];
  }

  /** Every reconcile of the run finds a valid table and reaches its status write. */
  ghost predicate Smooth(w: World, events: seq<Event>) {
    forall i :: 0 <= i < |events| && events[i].Reconciled? ==>
      Valid(Run(w, events[..i]), events[i].env) && ReachesStatusWrite(Run(w, events[..i]), events[i].env)
  }

  /** In particular streams and statuses are current after every reconcile of a smooth run. */
  lemma SmoothFollowsRoutes(w: World, events: seq<Event>)
    requires w.streams == map[] && Smooth(w, events)
    ensures CurrentThroughout(w, events)
  {
    hide Provision, Current, Valid, PrunesAll, Run, Tracked, AllInReach;
    assert NeverLoses(w, events);
    TrackedAlways(w, events);
    forall i | 0 <= i < |events| && events[i].Reconciled? ensures LeavesCurrent(Run(w, events[..i]), events[i].env) {
      TrackedInReach(Run(w, events[..i]));
    }
    StreamsFollowRoutes(w, events);
  }

  lemma TrackedInReach(w: World)
    requires Tracked(w)
    ensures AllInReach(w)
  {
  }

  // ---------- a stream out of reach stays

  /** The stream exists, is not recorded and belongs to no current route. */
  ghost predicate OutOfReach(w: World, s: string) {
    s in w.streams && !Recorded(w.status, s) && !Desired(w.project.name, w.project.routes, s)
  }

  lemma ReconcileKeepsOut(w: World, env: Env, s: string)
    requires OutOfReach(w, s)
    ensures OutOfReach(Provision(w, env), s)
  {
    hide StreamName, Subject, Provisioned, Statuses, Accepted, PrunesAll;
    ProvisionedShape(w, env);
    DesiredIsRecorded(w.project.name, w.project.routes, env.ensureFails, s);
  }

  /** No edit brings a route back whose stream is `s`. */
  ghost predicate NeverReturns(project: string, events: seq<Event>, s: string) {
    forall i :: 0 <= i < |events| && events[i].Edited? ==> !Desired(project, events[i].project.routes, s)
  }

  /** A stream out of reach survives every later event until a route of its name returns. */
  lemma {:induction false} OutOfReachStays(w: World, events: seq<Event>, s: string)
    requires OutOfReach(w, s) && NeverReturns(w.project.name, events, s)
    ensures OutOfReach(Run(w, events), s) && Run(w, events).project.name == w.project.name
  {
    hide OutOfReach, Desired, Recorded;
    if |events| > 0 {
      var n := |events| - 1;
      assert forall i :: 0 <= i < n ==> events[..n][i] == events[i];
      OutOfReachStays(w, events[..n], s);
      var mid := Run(w, events[..n]);
      if events[n].Reconciled? {
        hide Provision;
        ReconcileKeepsOut(mid, events[n].env, s);
        assert Provision(mid, events[n].env).project == mid.project by { ProjectKept(mid, events[n].env); }
      } else {
        EditKeepsOut(mid, events[n].project, s);
      }
    }
  }

  lemma ProjectKept(w: World, env: Env)
    ensures Provision(w, env).project == w.project
  {
    hide Provisioned, Statuses, Valid, ReachesStatusWrite;
  }

  lemma EditKeepsOut(w: World, project: Project, s: string)
    requires OutOfReach(w, s) && !Desired(w.project.name, project.routes, s)
    ensures OutOfReach(w.(project := project.(name := w.project.name)), s)
  {
    hide Desired, Recorded;
  }

  lemma {:induction false} RunAppend(w: World, events: seq<Event>, more: seq<Event>)
    ensures Run(w, events + more) == Run(Run(w, events), more)
  {
    hide Next;
    if |more| == 0 {
      assert events + more == events;
    } else {
      var n := |more| - 1;
      RunAppend(w, events, more[..n]);
      assert (events + more)[..|events| + n] == events + more[..n];
    }
  }

  // ---------- the hypothesis is needed

  const ROUTED := Project("x", [Route("r", "p", [Target("q", "")])], [])

  const MEMBERS := Pair("x", "p", "q")

  function Fine(pipelines: map<string, PipelineView>): Env { Env(Some(pipelines), w => true, {}, {}, false, true) }

  lemma RoutedIsAccepted()
    ensures Accepted(ROUTED, MEMBERS, Fine(MEMBERS).parses)
    ensures !Accepted(ROUTED, MEMBERS - {"p"}, Fine(MEMBERS).parses)
    ensures Accepted(ROUTED.(routes := []), MEMBERS - {"p"}, Fine(MEMBERS).parses)
  {
    hide Accepted, Pair;
    PairIsAccepted("x", Route("r", "p", [Target("q", "")]), "q", Fine(MEMBERS).parses);
    NoRoutesIsAccepted("x", MEMBERS - {"p"}, Fine(MEMBERS).parses);
  }

  /** The producer is removed, the table becomes invalid and the stream is forgotten; then the route is
      removed too and the table is valid again. */
  ghost function Forgetting(): seq<Event> {
    var gone := Fine(MEMBERS - {"p"});
    [Reconciled(Fine(MEMBERS)), Reconciled(gone), Edited(ROUTED.(routes := [])), Reconciled(gone)]
  }

  lemma ForgettingRun()
    ensures
      var w := Run(World(ROUTED, [], map[]), Forgetting());
      OutOfReach(w, StreamName("x", "r")) && w.project == ROUTED.(routes := []) && Valid(w, Fine(MEMBERS - {"p"}))
  {
    hide StreamName, Subject, Accepted;
    RoutedIsAccepted();
    var gone := Fine(MEMBERS - {"p"});
    var s := StreamName("x", "r");
    var w0 := World(ROUTED, [], map[]);
    var e := Forgetting();
    var w1 := Provision(w0, Fine(MEMBERS));
    assert s in w1.streams by {
      ProvisionedShape(w0, Fine(MEMBERS));
      assert ROUTED.routes[0].name == "r";
    }
    var w2 := Provision(w1, gone);
    assert w2 == World(ROUTED, [], w1.streams);
    var w3 := World(ROUTED.(routes := []), [], w1.streams);
    assert Provision(w3, gone) == w3 by { assert Statuses("x", [], {}) == []; }
    assert e[..3][..2][..1][..0] == [] && e[..3][..2] == e[..2] && e[..2][..1] == e[..1];
    assert Run(w0, e[..1]) == w1;
    assert Run(w0, e[..2]) == w2;
    assert Run(w0, e[..3]) == w3;
  }

  /** The stream forgotten by an invalid table stays for good: no later edits and reconciles, valid or
      not, remove it unless a route of that name comes back. */
  lemma InvalidTableForgets(more: seq<Event>)
    requires NeverReturns("x", more, StreamName("x", "r"))
    ensures StreamName("x", "r") in Run(World(ROUTED, [], map[]), Forgetting() + more).streams
  {
    hide StreamName, Run, Forgetting;
    var w0 := World(ROUTED, [], map[]);
    ForgettingRun();
    OutOfReachStays(Run(w0, Forgetting()), more, StreamName("x", "r"));
    RunAppend(w0, Forgetting(), more);
  }
}
