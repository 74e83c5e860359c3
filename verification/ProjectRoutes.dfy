/** A project's routing table: naming, validation against the live pipelines, and the
    per-pipeline rewrite plan. */
module ProjectRoutes {
  import InstanceNames
  import opened Graphs
  import opened CycleSearch

  datatype CacheResource = CacheResource(name: string, hasKV: bool, hasConfig: bool)

  datatype Project = Project(name: string, routes: seq<Route>, caches: seq<CacheResource>)

  datatype PipelineView = PipelineView(projectName: string, hasInput: bool, hasOutput: bool)

  // ---------- naming

  function Subject(project: string, route: string): string { "rpc." + project + "." + route }

  function StreamName(project: string, route: string): string { "rpc-" + project + "-" + route }

  function DurableName(project: string, route: string, pipeline: string): string {
    project + "-" + route + "-" + pipeline
  }

  function NatsUrl(project: string, namespace: string): string {
    "nats://" + project + "-nats." + namespace + ".svc:4222"
  }

  lemma SubjectInjective(project: string, r1: string, r2: string)
    requires Subject(project, r1) == Subject(project, r2)
    ensures r1 == r2
  {
    var n := |"rpc." + project + "."|;
    assert Subject(project, r1)[n..] == r1 && Subject(project, r2)[n..] == r2;
  }

  lemma StreamNameInjective(project: string, r1: string, r2: string)
    requires StreamName(project, r1) == StreamName(project, r2)
    ensures r1 == r2
  {
    var n := |"rpc-" + project + "-"|;
    assert StreamName(project, r1)[n..] == r1 && StreamName(project, r2)[n..] == r2;
  }

  /** Each target of a route has its own durable consumer. */
  lemma DurableNameInjective(project: string, route: string, p1: string, p2: string)
    requires DurableName(project, route, p1) == DurableName(project, route, p2)
    ensures p1 == p2
  {
    var n := |project + "-" + route + "-"|;
    assert DurableName(project, route, p1)[n..] == p1 && DurableName(project, route, p2)[n..] == p2;
  }

  /** Different projects, and projects of different namespaces, have different servers (names of projects
      are DNS labels, without a dot). */
  lemma NatsUrlInjective(p1: string, n1: string, p2: string, n2: string)
    requires '.' !in p1 && '.' !in p2 && NatsUrl(p1, n1) == NatsUrl(p2, n2)
    ensures p1 == p2 && n1 == n2
  {
    var a, b := p1 + "-nats", p2 + "-nats";
    var x, y := "." + (n1 + ".svc:4222"), "." + (n2 + ".svc:4222");
    UrlParts(p1, n1);
    UrlParts(p2, n2);
    NoDotBefore(p1);
    NoDotBefore(p2);
    hide NatsUrl;
    InstanceNames.SameUpToDot(a, x, b, y);
    SameEnd(p1, p2, "-nats");
    assert x == (a + x)[|a|..] && y == (b + y)[|b|..];
    assert n1 + ".svc:4222" == x[1..] == y[1..] == n2 + ".svc:4222";
    SameEnd(n1, n2, ".svc:4222");
  }

  lemma UrlParts(project: string, namespace: string)
    ensures NatsUrl(project, namespace)[7..] == (project + "-nats") + ("." + (namespace + ".svc:4222"))
  {
    assert NatsUrl(project, namespace) == "nats://" + ((project + "-nats") + ("." + (namespace + ".svc:4222")));
  }

  lemma NoDotBefore(project: string)
    requires '.' !in project
    ensures forall i :: 0 <= i < |project + "-nats"| ==> (project + "-nats")[i] != '.'
  {
    assert forall i :: 0 <= i < |project| ==> (project + "-nats")[i] == project[i] && project[i] in project;
  }

  lemma SameEnd(a: string, b: string, end: string)
    requires a + end == b + end
    ensures a == b
  {
    assert |a + end| == |b + end| && a == (a + end)[..|a|] && b == (b + end)[..|b|];
  }

  // ---------- roles

  predicate IsProducer(routes: seq<Route>, pipeline: string) {
    exists i :: 0 <= i < |routes| && routes[i].source == pipeline
  }

  predicate IsTarget(targets: seq<Target>, pipeline: string) {
    exists j :: 0 <= j < |targets| && targets[j].pipeline == pipeline
  }

  predicate IsConsumer(routes: seq<Route>, pipeline: string) {
    exists i :: 0 <= i < |routes| && IsTarget(routes[i].targets, pipeline)
  }

  // ---------- the plan

  datatype Incoming = Incoming(route: string, subject: string, durable: string, when: string)

  datatype Plan = Plan(natsUrl: string, outgoing: seq<string>, incoming: seq<Incoming>)

  function Outgoing(project: string, routes: seq<Route>, pipeline: string): seq<string> {
    if routes == [] then []
    else
      var rest := Outgoing(project, routes[..|routes| - 1], pipeline);
      var r := routes[|routes| - 1];
      if r.source == pipeline then rest + [Subject(project, r.name)] else rest
  }

  function IncomingOf(project: string, route: string, targets: seq<Target>, pipeline: string): seq<Incoming> {
    if targets == [] then []
    else
      var rest := IncomingOf(project, route, targets[..|targets| - 1], pipeline);
      var t := targets[|targets| - 1];
      if t.pipeline == pipeline
      then rest + [Incoming(route, Subject(project, route), DurableName(project, route, pipeline), t.when)]
      else rest
  }

  function AllIncoming(project: string, routes: seq<Route>, pipeline: string): seq<Incoming> {
    if routes == [] then []
    else
      var r := routes[|routes| - 1];
      AllIncoming(project, routes[..|routes| - 1], pipeline) + IncomingOf(project, r.name, r.targets, pipeline)
  }

  method PlanFor(project: Project, namespace: string, pipeline: string) returns (plan: Plan)
    ensures plan == Plan(NatsUrl(project.name, namespace), Outgoing(project.name, project.routes, pipeline),
                         AllIncoming(project.name, project.routes, pipeline))
  {
    var outgoing, incoming := [], [];
    for i := 0 to |project.routes|
      invariant outgoing == Outgoing(project.name, project.routes[..i], pipeline)
      invariant incoming == AllIncoming(project.name, project.routes[..i], pipeline)
    {
      var r := project.routes[i];
      assert project.routes[..i + 1][..i] == project.routes[..i];
      if r.source == pipeline {
        outgoing := outgoing + [Subject(project.name, r.name)];
      }
      ghost var before := incoming;
      for j := 0 to |r.targets|
        invariant incoming == before + IncomingOf(project.name, r.name, r.targets[..j], pipeline)
      {
        assert r.targets[..j + 1][..j] == r.targets[..j];
        if r.targets[j].pipeline == pipeline {
          incoming := incoming +
              [Incoming(r.name, Subject(project.name, r.name), DurableName(project.name, r.name, pipeline),
                        r.targets[j].when)];
        }
      }
      assert r.targets[..|r.targets|] == r.targets;
    }
    assert project.routes[..|project.routes|] == project.routes;
    plan := Plan(NatsUrl(project.name, namespace), outgoing, incoming);
  }

  // ---------- validation

  datatype ProjectError =
    | DuplicateRoute(route: string)
    | UnknownSource(route: string, pipeline: string)
    | UnknownTarget(route: string, index: nat, pipeline: string)
    | BadPredicate(route: string, index: nat)
    | OutputConflict(pipeline: string)
    | InputConflict(pipeline: string)
    | CycleFound(cycle: seq<string>)
    | CacheAmbiguous(cache: string)

  predicate InProject(project: Project, pipelines: map<string, PipelineView>, name: string) {
    name in pipelines && pipelines[name].projectName == project.name
  }

  predicate PredicateOk(parses: string -> bool, when: string) { when == "" || parses(when) }

  /** Exactly the violations of the spec's validation table (cycles are reported once, see below). */
  ghost predicate Violates(project: Project, pipelines: map<string, PipelineView>, parses: string -> bool,
                           e: ProjectError) {
    var routes := project.routes;
    match e
    case DuplicateRoute(n) => exists i, j :: 0 <= i < j < |routes| && routes[i].name == n == routes[j].name
    case UnknownSource(n, p) =>
      exists i :: 0 <= i < |routes| && routes[i].name == n && routes[i].source == p &&
          (p == "" || !InProject(project, pipelines, p))
    case UnknownTarget(n, k, p) =>
      exists i :: 0 <= i < |routes| && routes[i].name == n && BadTarget(project, pipelines, routes[i].targets, k, p)
    case BadPredicate(n, k) =>
      exists i :: 0 <= i < |routes| && routes[i].name == n && UnparsedWhen(parses, routes[i].targets, k)
    case OutputConflict(p) => InProject(project, pipelines, p) && IsProducer(routes, p) && pipelines[p].hasOutput
    case InputConflict(p) => InProject(project, pipelines, p) && IsConsumer(routes, p) && pipelines[p].hasInput
    case CycleFound(c) => IsSimpleCycle(RouteGraph(routes), c)
    case CacheAmbiguous(n) =>
      exists i :: 0 <= i < |project.caches| && project.caches[i].name == n &&
          project.caches[i].hasKV == project.caches[i].hasConfig
  }

  predicate BadTarget(project: Project, pipelines: map<string, PipelineView>, targets: seq<Target>, k: nat, p: string) {
    k < |targets| && targets[k].pipeline == p && (p == "" || !InProject(project, pipelines, p))
  }

  predicate UnparsedWhen(parses: string -> bool, targets: seq<Target>, k: nat) {
    k < |targets| && !PredicateOk(parses, targets[k].when)
  }

  ghost predicate UniqueNames(routes: seq<Route>) {
    forall i, j :: 0 <= i < j < |routes| ==> routes[i].name != routes[j].name
  }

  /** The projects the operator accepts. */
  ghost predicate Accepted(project: Project, pipelines: map<string, PipelineView>, parses: string -> bool) {
    var routes := project.routes;
    && UniqueNames(routes)
    && (forall i :: 0 <= i < |routes| ==> routes[i].source != "" && InProject(project, pipelines, routes[i].source))
    && (forall i, k :: 0 <= i < |routes| && 0 <= k < |routes[i].targets| ==>
          var t := routes[i].targets[k];
          t.pipeline != "" && InProject(project, pipelines, t.pipeline) && PredicateOk(parses, t.when))
    && (forall p :: InProject(project, pipelines, p) ==>
          !(IsProducer(routes, p) && pipelines[p].hasOutput) && !(IsConsumer(routes, p) && pipelines[p].hasInput))
    && !HasCycle(RouteGraph(routes))
    && (forall i :: 0 <= i < |project.caches| ==> project.caches[i].hasKV != project.caches[i].hasConfig)
  }

  method DuplicateErrors(routes: seq<Route>) returns (errs: seq<ProjectError>)
    ensures forall e :: e in errs <==>
            e.DuplicateRoute? && exists i, j :: 0 <= i < j < |routes| && routes[i].name == e.route == routes[j].name
  {
    errs := [];
    var seen: set<string> := {};
    for k := 0 to |routes|
      invariant forall n :: n in seen <==> exists i :: 0 <= i < k && routes[i].name == n
      invariant forall e :: e in errs <==>
                e.DuplicateRoute? && exists i, j :: 0 <= i < j < k && routes[i].name == e.route == routes[j].name
    {
      if routes[k].name in seen {
        errs := errs + [DuplicateRoute(routes[k].name)];
      }
      seen := seen + {routes[k].name};
    }
  }

  /** The errors of one route: its source, then each target and its predicate. */
  method RouteErrors(project: Project, pipelines: map<string, PipelineView>, parses: string -> bool, r: Route)
    returns (errs: seq<ProjectError>)
    ensures forall e :: e in errs <==> RouteViolation(project, pipelines, parses, r, e)
  {
    errs := [];
    if r.source == "" || !InProject(project, pipelines, r.source) {
      errs := [UnknownSource(r.name, r.source)];
    }
    for j := 0 to |r.targets|
      invariant forall e :: e in errs <==> RouteViolation(project, pipelines, parses, r.(targets := r.targets[..j]), e)
    {
      var t := r.targets[j];
      if t.pipeline == "" || !InProject(project, pipelines, t.pipeline) {
        errs := errs + [UnknownTarget(r.name, j, t.pipeline)];
      }
      if t.when != "" && !parses(t.when) {
        errs := errs + [BadPredicate(r.name, j)];
      }
    }
    assert r.(targets := r.targets[..|r.targets|]) == r;
  }

  predicate RouteViolation(project: Project, pipelines: map<string, PipelineView>, parses: string -> bool, r: Route,
                           e: ProjectError) {
    match e
    case UnknownSource(n, p) => r.name == n && r.source == p && (p == "" || !InProject(project, pipelines, p))
    case UnknownTarget(n, k, p) => r.name == n && BadTarget(project, pipelines, r.targets, k, p)
    case BadPredicate(n, k) => r.name == n && UnparsedWhen(parses, r.targets, k)
    case _ => false
  }

  method AllRouteErrors(project: Project, pipelines: map<string, PipelineView>, parses: string -> bool)
    returns (errs: seq<ProjectError>)
    ensures forall e :: e in errs <==>
            exists i :: 0 <= i < |project.routes| && RouteViolation(project, pipelines, parses, project.routes[i], e)
  {
    errs := [];
    for k := 0 to |project.routes|
      invariant forall e :: e in errs <==>
                exists i :: 0 <= i < k && RouteViolation(project, pipelines, parses, project.routes[i], e)
    {
      var more := RouteErrors(project, pipelines, parses, project.routes[k]);
      errs := errs + more;
    }
  }

  predicate Conflict(project: Project, pipelines: map<string, PipelineView>, e: ProjectError) {
    match e
    case OutputConflict(p) => InProject(project, pipelines, p) && IsProducer(project.routes, p) &&
        pipelines[p].hasOutput
    case InputConflict(p) => InProject(project, pipelines, p) && IsConsumer(project.routes, p) && pipelines[p].hasInput
    case _ => false
  }

  predicate About(e: ProjectError, names: set<string>) {
    (e.OutputConflict? || e.InputConflict?) && e.pipeline in names
  }

  method ConflictErrors(project: Project, pipelines: map<string, PipelineView>) returns (errs: seq<ProjectError>)
    ensures forall e :: e in errs <==> Conflict(project, pipelines, e)
  {
    errs := [];
    var rest := pipelines.Keys;
    while rest != {}
      invariant rest <= pipelines.Keys
      invariant forall e :: e in errs <==> Conflict(project, pipelines, e) && About(e, pipelines.Keys - rest)
      decreases |rest|
    {
      var name :| name in rest;
      ghost var was := errs;
      if pipelines[name].projectName == project.name {
        if IsProducer(project.routes, name) && pipelines[name].hasOutput {
          errs := errs + [OutputConflict(name)];
        }
        if IsConsumer(project.routes, name) && pipelines[name].hasInput {
          errs := errs + [InputConflict(name)];
        }
      }
      rest := rest - {name};
    }
  }

  method CacheErrors(caches: seq<CacheResource>) returns (errs: seq<ProjectError>)
    ensures forall e :: e in errs <==>
              e.CacheAmbiguous?
              && exists i :: 0 <= i < |caches| && caches[i].name == e.cache && caches[i].hasKV == caches[i].hasConfig
  {
    errs := [];
    for k := 0 to |caches|
      invariant forall e :: e in errs <==>
                  e.CacheAmbiguous?
                  && exists i :: 0 <= i < k && caches[i].name == e.cache && caches[i].hasKV == caches[i].hasConfig
    {
      if caches[k].hasKV == caches[k].hasConfig {
        errs := errs + [CacheAmbiguous(caches[k].name)];
      }
    }
  }

  /** Everything wrong with a project is reported and nothing else; a cyclic route table is
      reported by one of its simple cycles. The project is accepted exactly when nothing is. */
  method ValidateProject(project: Project, pipelines: map<string, PipelineView>, parses: string -> bool)
    returns (errs: seq<ProjectError>)
    ensures forall e :: e in errs ==> Violates(project, pipelines, parses, e)
    ensures forall e :: Violates(project, pipelines, parses, e) && !e.CycleFound? ==> e in errs
    ensures HasCycle(RouteGraph(project.routes)) <==> exists c :: CycleFound(c) in errs
    ensures errs == [] <==> Accepted(project, pipelines, parses)
  {
    var dup := DuplicateErrors(project.routes);
    var routeErrs := AllRouteErrors(project, pipelines, parses);
    var conflicts := ConflictErrors(project, pipelines);
    var cycleErrs := [];
    var cyc := FindCycle(project.routes);
    if |cyc| > 0 {
      cycleErrs := [CycleFound(cyc)];
    }
    var caches := CacheErrors(project.caches);
    errs := dup + routeErrs + conflicts + cycleErrs + caches;
    assert HasCycle(RouteGraph(project.routes)) ==> CycleFound(cyc) in errs;
    NoErrorsMeansAccepted(project, pipelines, parses, errs);
  }

  lemma NoErrorsMeansAccepted(project: Project, pipelines: map<string, PipelineView>, parses: string -> bool,
                              errs: seq<ProjectError>)
    requires forall e :: e in errs ==> Violates(project, pipelines, parses, e)
    requires forall e :: Violates(project, pipelines, parses, e) && !e.CycleFound? ==> e in errs
    requires HasCycle(RouteGraph(project.routes)) <==> exists c :: CycleFound(c) in errs
    ensures errs == [] <==> Accepted(project, pipelines, parses)
  {
    var routes := project.routes;
    if errs == [] {
      assert !exists e :: Violates(project, pipelines, parses, e) && !e.CycleFound?;
      forall i, j | 0 <= i < j < |routes| ensures routes[i].name != routes[j].name {
        assert !Violates(project, pipelines, parses, DuplicateRoute(routes[i].name));
      }
      forall i | 0 <= i < |routes| ensures routes[i].source != "" && InProject(project, pipelines, routes[i].source) {
        assert !Violates(project, pipelines, parses, UnknownSource(routes[i].name, routes[i].source));
      }
      forall i, k | 0 <= i < |routes| && 0 <= k < |routes[i].targets|
        ensures var t := routes[i].targets[k];
                t.pipeline != "" && InProject(project, pipelines, t.pipeline) && PredicateOk(parses, t.when)
      {
        assert !Violates(project, pipelines, parses, UnknownTarget(routes[i].name, k, routes[i].targets[k].pipeline));
        assert !Violates(project, pipelines, parses, BadPredicate(routes[i].name, k));
      }
      forall p | InProject(project, pipelines, p)
        ensures !(IsProducer(routes, p) && pipelines[p].hasOutput) && !(IsConsumer(routes, p) && pipelines[p].hasInput)
      {
        assert !Violates(project, pipelines, parses, OutputConflict(p)) &&
            !Violates(project, pipelines, parses, InputConflict(p));
      }
      forall i | 0 <= i < |project.caches| ensures project.caches[i].hasKV != project.caches[i].hasConfig {
        assert !Violates(project, pipelines, parses, CacheAmbiguous(project.caches[i].name));
      }
    } else {
      assert Violates(project, pipelines, parses, errs[0]);
      if Accepted(project, pipelines, parses) {
        AcceptedHasNoViolation(project, pipelines, parses, errs[0]);
      }
    }
  }

  /** Two members of project `name`, without inputs and outputs of their own. */
  function Pair(name: string, p: string, q: string): map<string, PipelineView> {
    map[p := PipelineView(name, false, false), q := PipelineView(name, false, false)]
  }

  /** A route between two members is accepted; without its producer it is not. */
  lemma PairIsAccepted(name: string, r: Route, q: string, parses: string -> bool)
    requires r.source != "" && q != "" && r.source != q
    requires forall t :: t in r.targets ==> t.pipeline == q && PredicateOk(parses, t.when)
    ensures Accepted(Project(name, [r], []), Pair(name, r.source, q), parses)
    ensures !Accepted(Project(name, [r], []), Pair(name, r.source, q) - {r.source}, parses)
  {
    hide HasCycle;
    var g := RouteGraph([r]);
    assert forall e :: e in g ==> e == (r.source, q);
    var rank: map<string, nat> := map[r.source := 0, q := 1];
    RankedIsAcyclic(g, rank);
    hide RouteGraph, PredicateOk;
    assert [r][0] == r;
  }

  lemma NoRoutesIsAccepted(name: string, pipelines: map<string, PipelineView>, parses: string -> bool)
    ensures Accepted(Project(name, [], []), pipelines, parses)
  {
    hide HasCycle;
    assert RouteGraph([]) == {};
    RankedIsAcyclic(RouteGraph([]), map[]);
  }

  lemma AcceptedHasNoViolation(project: Project, pipelines: map<string, PipelineView>, parses: string -> bool,
                               e: ProjectError)
    requires Accepted(project, pipelines, parses)
    ensures !Violates(project, pipelines, parses, e)
  {
    if e.CycleFound? && IsSimpleCycle(RouteGraph(project.routes), e.cycle) {
      assert HasCycle(RouteGraph(project.routes));
    }
  }
}
