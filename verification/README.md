# Verified model of the rpc-operator core

A Dafny model of the Redpanda Connect operator's reconciliation core and of the transformations it
relies on, with proofs of what they promise. `dafny verify dfyconfig.toml` checks the whole project.

## What is modelled

**Placement of a pipeline** (`Streams`, `StreamsHttp`, `Scheduler`, `InstanceNames`, `Placement`,
`PlacementGuards`, `PipelineReconcilers`). One Pipeline resource runs in its own pod, as a stream on a cluster instance,
stopped, or is deleted. `Placement.Reconcile` is one reconcile as a step from the stored resource, its
own pod and the stream tables of all instances to their new state; its `Env` argument says what every
call of that reconcile returns, including calls that fail, are only half done (`Leftover`), PUTs that are
accepted but not loaded, and status writes that do not land. A run is any sequence of reconciles, spec
edits, deletion requests, pod restarts, lost or stalled streams. `PlacementGuards` gives the guards of the
branches of one reconcile as functions of the state and the answers alone, and what each branch does. The
class `PipelineReconciler` is the imperative form; it performs exactly these steps, keeps the status coherent,
and its `Reconcile` carries the single-holder and gate results. About runs the project proves:

- status coherence in every reachable state (`PlacementCoherence`);
- a single holder of the stream if and only if no reconcile meets one of three leak guards
  (`PlacementHolder`), and that each of the three kinds occurs (`PlacementWitness`);
- that the redeploy gate is honest if and only if no reconcile meets the guard of one kind of cut-off deploy
  (`PlacementGate`);
- what each mode accomplishes when its calls succeed, and what each exit records (`PlacementModes`): the own pod
  within four reconciles, deletion, stop and the way back from a cluster in one each;
- convergence within three reconciles, and quiescence afterwards, from every state if and only if the recorded
  hash does not mislead the gate about the destination (`PlacementConvergence`).

**Routes** (`Graphs`, `CycleSearch`, `ProjectRoutes`, `ProjectRewrite`, `Delivery`, `RouteStreams`).
The coloured depth-first cycle search; validation; the per-pipeline plan; the rewrite of a config
document; a run-time meaning of config documents (which server and subjects an output publishes to, which
consumer groups of which server an input belongs to, what a filter lets through); and the proof that the
rewritten configs of all members together deliver exactly what the table declares, however groups hand their
messages out. `RouteStreams` is the reconciliation of routes with JetStream streams over runs of edits,
validation against the live pipelines, and failures.

**Text and trees** (`Secrets`, `Json`, `ComponentRender`). Secret substitution as a scanner for the
variable pattern, and recursive rendering of component specs.

**Views** (`Layering`, `Topology`, `Layout`, `Distribution`). The worklist layering and box layout of the
topology page, and the API's distribution of pipelines over instances.

**Sessions** (`Sessions`). The session store with expiry and collection.

## Assumptions

- SHA-256 is an injective function that never yields the empty string (`Placement.Digest`).
- Kubernetes deletes take effect at once, and a reconcile reads the stored resource, not a stale cache.
- An accepted PUT that does not load leaves the stream absent; an accepted PUT that loads leaves it active.
  The test client in internal/streams/fake.go differs in two ways that are not followed: its dropped PUT
  keeps an earlier stream, and its inactive flag is kept per stream id across PUTs.
- A Connect input stamps the subject it reads from; a switch runs its first matching case and passes
  unmatched messages; a broker sends every message to all its outputs only with pattern `fan_out` (its default);
  inputs that name the same queue, or without a queue the same durable consumer, share its messages: each
  message goes to one of them.
- A Connect instance resolves `${NAME}` and `${NAME:default}` by the pattern the operator uses, and an unset
  variable without default to nothing.
- Names that exist as Kubernetes objects are valid: no NUL, no quote, no colon, no dot in a service name, no trailing
  dash. Each result states which of these it needs.

## Properties that fail, and exactly when

- A single holder is not guaranteed by the code: `PlacementHolder.SingleHolderAlways` proves it holds over a
  run if and only if no reconcile abandons, leaves behind or fails to record a stream, each stated on the state
  and the answers before the reconcile; the three families are shown in `PlacementWitness`, where
  `ForgottenStays` also proves that a forgotten stream stays until its instance is disturbed or chosen again.
- The redeploy gate can skip a needed PUT after a deploy whose status write was lost
  (`PlacementWitness.CutOffFoolsGate`). `PlacementGate.GateHonestAlways` proves it never does over a run if and
  only if no reconcile replaces the config on the instance the recorded hash is about and is cut off before
  its status write.
- Convergence fails from a state where the recorded hash is that of the desired config on the destination while
  the destination runs another one: no number of reconciles repairs it (`PlacementWitness.FooledForGood` reaches
  such a state from a fresh resource). `PlacementConvergence.ConvergesExactly` proves that this is the only
  exception.
- Secret substitution preserves meaning if and only if no value has a closing brace before another
  character (`Secrets.MeaningExact`), and is idempotent if and only if no value has one
  (`Secrets.IdempotentExact`).
- Rendering twice differs from rendering once exactly for a component named "type" with a non-empty string
  config (`ComponentRender.RenderTwice`, `ComponentRender.TrapExample`).
- An invalid route table makes the project forget its streams (`RouteStreams.InvalidTableForgets`: the producer
  is removed, then the route, and no later event removes the stream unless a route of that name returns);
  `RouteStreams.TrackedAlways` gives the exact condition over a run. `RouteStreams.CurrentExact` says, for every
  state, exactly when a reconcile leaves streams and statuses as the routes say, and
  `RouteStreams.StreamsFollowRoutes` says it for runs.
- An instance name can be read under another cluster exactly for the first instance of a cluster whose name
  ends in a dash (`InstanceNames.ReadExactly`).
- Listing a target twice in one route lets one entry's predicate filter the other
  (`Delivery.DuplicateTargetIsFiltered`). `Delivery.DeliveredExactly` says what is delivered for every accepted
  project, and `Delivery.RoutingPreserved` proves it is what the table declares, for every message, if and only
  if the entries naming one target in one route carry the same predicate.

## Model

| member | source | states |
|---|---|---|
| InstanceNames.OrdinalRoundTrip | internal/controller/cluster_scheduler.go:21-31 | printing `<cluster>-<n>` and reading it back gives n exactly for n in 0..2^31-1 |
| InstanceNames.PrintedInDecimal | internal/controller/cluster_scheduler.go:21-31 | ordinals are printed in decimal |
| InstanceNames.OtherSpellings | internal/controller/cluster_scheduler.go:21-31 | an ordinal is also read with a plus sign or a leading zero |
| InstanceNames.LargeOrdinalsWrap | internal/controller/cluster_scheduler.go:21-31 | ordinals from 2^31 to 2^32-1 are read as negative |
| InstanceNames.ReadOnlyUnderOwnCluster | internal/api/cluster_aggregation.go:48-58 | for cluster names that do not end in a dash, only its own cluster can read an instance name |
| InstanceNames.ReadExactly | internal/controller/cluster_scheduler.go:21-31 | an instance name reads under a cluster if and only if it was printed for it, or is the first instance of that cluster's name with a dash appended |
| InstanceNames.InstanceNameInjective | internal/controller/pipeline_cluster_assign.go:172-173 | equal instance names mean the same cluster and ordinal |
| InstanceNames.PodUrlInjective | internal/controller/pipeline_cluster_assign.go:49-53 | distinct instances have distinct streams-API addresses |
| Scheduler.ListReadyOrdinals | internal/controller/pipeline_cluster_assign.go:57-77 | the loop collects the ordinals of the ready pods, in list order |
| Scheduler.ReadyOrdinalsAreReadyPods | internal/controller/pipeline_cluster_assign.go:57-77 | an ordinal is listed if and only if some ready pod of the cluster has it |
| Scheduler.LoadByOrdinal | internal/controller/pipeline_cluster_assign.go:93-109 | the loop builds the load map of the other pipelines |
| Scheduler.LoadMapCounts | internal/controller/pipeline_cluster_assign.go:93-109 | every entry of the load map is the number of other pipelines recorded on that instance |
| Scheduler.OwnPlacementIgnored | internal/controller/pipeline_cluster_assign.go:93-109 | the placement of the pipeline being placed does not count |
| Scheduler.LeastLoadedInstance | internal/controller/cluster_scheduler.go:48-62 | sort-and-scan finds the lowest ordinal among the least loaded ready instances |
| Scheduler.ChooseInstance | internal/controller/cluster_scheduler.go:37-44 | the current instance while it is ready, else the least loaded one |
| Scheduler.GreedyBalance | internal/controller/cluster_scheduler.go:37-62 | placing any sequence of pipelines keeps the load gap at most max(initial gap, 1) |
| Scheduler.BalancedFromEmpty | internal/controller/cluster_scheduler.go:37-62 | from nothing placed, loads differ by at most one |
| Streams.FakeClient.EnsureStream | internal/streams/fake.go:51-67 | the call counts itself and changes exactly the addressed stream as its outcome says |
| Streams.FakeClient.DeleteStream | internal/streams/fake.go:69-74 | deletion removes exactly the addressed stream and tolerates a missing one |
| Streams.FakeClient.GetStreamStatus | internal/streams/fake.go:148-161 | missing, unreadable, or the stream's active flag |
| StreamsHttp.EnsureStream | internal/streams/client.go:109-127 | PUT then POST refines the abstract upsert: effect and reported outcome agree; success exactly when the deciding request was served, rejection exactly for 400 to 499 or a 502 that reports a failed initialisation, otherwise a transient error |
| PipelineReconcilers.PipelineReconciler.Reconcile | internal/controller/pipeline_controller.go:79-136 | one reconcile performs exactly the modelled step, PUTs and status writes included; it keeps the status coherent, keeps a single holder if and only if no leak guard holds, keeps the gate honest if and only if it does not fool it, leaves no holder when it releases the resource, and where it deploys without a PUT the instance runs the desired config |
| PipelineReconcilers.PipelineReconciler.HandleStopped | internal/controller/pipeline_controller.go:345-399 | the stop path performs the modelled step; when it is done nothing holds the stream and the pod is gone |
| PipelineReconcilers.PipelineReconciler.HandlePodMode | internal/controller/pipeline_controller.go:138-246 | the pod path performs the modelled step; when it is Done the rendered pod exists and the status names it |
| PipelineReconcilers.PipelineReconciler.HandleClusterAssigned | internal/controller/pipeline_cluster_assign.go:117-148 | the cluster path performs the modelled step |
| PipelineReconcilers.PipelineReconciler.DeployTo | internal/controller/pipeline_cluster_assign.go:172-212 | gate, deploy, confirm and record as modelled |
| PipelineReconcilers.PipelineReconciler.EnsureStreamPresent | internal/controller/pipeline_cluster_assign.go:241-250 | deploy, confirm, and recreate a confirmed-missing stream; if the last upsert loads, the config runs |
| PipelineReconcilers.PipelineReconciler.WriteClusterStatus | internal/controller/pipeline_cluster_assign.go:355-401 | the status is written exactly when it differs from the stored one |
| PipelineReconcilers.PipelineReconciler.HandleClusterFallback | internal/controller/pipeline_cluster_assign.go:264-279 | the fallback path performs the modelled step; when it requeues nothing holds the stream |
| PipelineReconcilers.PipelineReconciler.MigrateFromOldCluster | internal/controller/pipeline_cluster_assign.go:284-297 | the stream on another cluster's instance is deleted and nothing else changes; afterwards only the new cluster can hold it |
| PipelineReconcilers.PipelineReconciler.DeleteAssignedStream | internal/controller/pipeline_cluster_assign.go:217-229 | the stream on the assigned instance is deleted and nothing else changes; success means the named instance does not hold it |
| PipelineReconcilers.PipelineReconciler.HandleProjectAssigned | internal/controller/pipeline_project_assign.go:30-50 | the project path performs the modelled step |
| PipelineReconcilers.Changed | internal/controller/pipeline_cluster_assign.go:361-381 | the write guard is false exactly when the status would stay the same |
| PlacementCoherence.CoherentAlways | internal/controller/pipeline_cluster_assign.go:355-401 | after every run: placement fields all set or all empty, StreamActive present exactly when set, and when set the phase is Running, podName is empty and the instance reads under its cluster |
| PlacementCoherence.DeletePathNeverSkips | internal/controller/pipeline_cluster_assign.go:217-225 | the silent skip of an unreadable instance name is unreachable |
| PlacementGuards.ReconcileDeploys | internal/controller/pipeline_cluster_assign.go:172-250 | what a deploying reconcile leaves on every instance and in the status, from the guards and answers alone |
| PlacementGuards.GiveUpPath | internal/controller/pipeline_cluster_assign.go:117-169 | a reconcile that gives up changes no stream but one on another cluster and clears the placement if its write lands |
| PlacementGuards.StopsShort | internal/controller/pipeline_cluster_assign.go:117-148 | every other reconcile on the cluster path stops at a failing call without a PUT |
| PlacementHolder.ReconcileExact | internal/controller/pipeline_cluster_assign.go:117-212 | one reconcile keeps a single holder if and only if the state and the answers meet none of three leak guards |
| PlacementHolder.SingleHolderAlways | internal/controller/pipeline_cluster_assign.go:117-315 | over a run, only the recorded instance holds the stream at every point if and only if no reconcile meets a leak guard |
| PlacementHolder.ShelteredNeverLeaks | internal/controller/pipeline_cluster_assign.go:192-211 | issued PUTs that land with their status write, no Failed exit while placed and empty unready instances rule out every leak |
| PlacementHolder.OnePlaceAtATime | internal/controller/pipeline_controller.go:88-136 | on such runs at most one instance holds the stream, it is the recorded one, never beside the own pod, and none once Stopped or released |
| PlacementWitness.FailedExitForgets | internal/controller/pipeline_cluster_assign.go:324-327 | from every settled state, giving up for any reason leaves the stream running unrecorded |
| PlacementWitness.RescheduleForgets | internal/controller/pipeline_cluster_assign.go:149-173 | a reschedule leaves the stream on an unready instance that still holds it |
| PlacementWitness.LostWriteForgets | internal/controller/pipeline_cluster_assign.go:192-211 | a deploy whose status write is lost is unknown to the status |
| PlacementWitness.CutOffMisleads | internal/controller/pipeline_cluster_assign.go:192-211 | from every settled state, a deploy of another config whose status write is lost misleads the gate |
| PlacementWitness.CutOffFoolsGate | internal/controller/pipeline_cluster_assign.go:179-190 | after such a deploy the gate can skip the PUT while another config runs |
| PlacementWitness.FooledForGood | internal/controller/pipeline_cluster_assign.go:175-211 | a run of a fresh resource after which no number of calm reconciles settles the desired config |
| PlacementWitness.ForgottenStays | internal/controller/pipeline_cluster_assign.go:117-315 | a stream the status does not name stays on its instance through every later event until a restart, a loss, or a placement on that instance |
| PlacementWitness.ForgottenForGood | internal/controller/pipeline_cluster_assign.go:324-327 | a fresh resource that settles and then gives up once leaves such a stream |
| PlacementWitness.SampleLeak | internal/controller/pipeline_cluster_assign.go:154-157 | a concrete run of a fresh resource, ending in a render error, that breaks the single holder |
| PlacementGate.HashInjective | internal/controller/pipeline_cluster_assign.go:255-258 | instance and body are recoverable from the hashed text |
| PlacementGate.HonestMeansTruthful | internal/controller/pipeline_cluster_assign.go:175-190 | the gate is right for every instance, config and status answer if and only if the recorded hash is truthful |
| PlacementGate.ReconcileTruthExact | internal/controller/pipeline_cluster_assign.go:192-211 | one reconcile keeps the hash truthful if and only if it does not replace the config the hash is about and get cut off |
| PlacementGate.GateHonestAlways | internal/controller/pipeline_cluster_assign.go:175-211 | over a run the gate is honest at every point if and only if no reconcile fools it |
| PlacementGate.NotCutOffNotFooled | internal/controller/pipeline_cluster_assign.go:192-211 | runs in which no reconcile is cut off between its PUT and its status write never fool the gate |
| PlacementGate.GateInvisible | internal/controller/pipeline_cluster_assign.go:175-203 | after a run that never fooled the gate, whenever the PUT is skipped and the live status is active the instance runs exactly the desired config |
| PlacementGate.LossyPutHealed | internal/controller/pipeline_cluster_assign.go:241-250 | a PUT that was accepted but not loaded is healed in the same reconcile |
| PlacementConvergence.ConvergesExactly | internal/controller/pipeline_cluster_assign.go:137-212 | from every state, three or more calm reconciles settle the desired config on a ready instance if and only if the recorded hash does not mislead about the destination |
| PlacementConvergence.SettledStays | internal/controller/pipeline_cluster_assign.go:175-190 | a settled status is a fixed point: no PUT, no status write, no move |
| PlacementConvergence.QuietAfterwards | internal/controller/pipeline_cluster_assign.go:355-401 | from every state, after three calm reconciles every further one issues no PUT and no status write |
| PlacementConvergence.ConvergesFromAnywhere | internal/controller/pipeline_controller.go:107-130 | convergence from every state a run that never fooled the gate can reach |
| PlacementModes.PodConverges | internal/controller/pipeline_controller.go:107-246 | from every state of a pipeline that wants its own pod, four reconciles whose calls succeed leave exactly the rendered pod, described by the status, and no instance with the stream; further ones change and write nothing |
| PlacementModes.PodDone | internal/controller/pipeline_controller.go:138-246 | such a reconcile that is Done has the rendered pod and all its calls succeeded, or records the render error as Failed |
| PlacementModes.FinalizerFirst | internal/controller/pipeline_controller.go:106-113 | the first reconcile sets the finalizer and nothing else |
| PlacementModes.DeletionCompletes | internal/controller/pipeline_controller.go:87-104 | a deletion whose calls succeed removes the recorded stream and releases the resource |
| PlacementModes.StopCompletes | internal/controller/pipeline_controller.go:345-399 | a stop whose calls succeed removes stream and pod and records the pipeline as Stopped and nowhere; a second one changes and writes nothing |
| PlacementModes.FallbackCompletes | internal/controller/pipeline_cluster_assign.go:264-279 | the way back from a cluster removes the stream and clears the placement, and the hash stays |
| PlacementModes.FailureHolds | internal/controller/pipeline_controller.go:87-104 | while a delete or the finalizer update fails, the resource is neither released nor recorded elsewhere, and the reconcile fails |
| PlacementModes.GiveUpExits | internal/controller/pipeline_cluster_assign.go:117-169 | which failure gives which phase, reason, message and retry |
| PlacementModes.DeployExits | internal/controller/pipeline_cluster_assign.go:192-211 | a refused config is Failed, an error is retried unrecorded, success is Running with Assigned or Rescheduling and the stream condition as read |
| PlacementModes.WritesOnlyChanges | internal/controller/pipeline_cluster_assign.go:361-400 | a status is written at most once and only to change it; a write that does not land is tried again |
| CycleSearch.Searcher.Dfs | internal/projectroute/projectroute.go:292-312 | gray nodes are the path, black nodes lead to earlier finished ones; the result is a simple cycle or the node is finished |
| CycleSearch.BuildAdjacency | internal/projectroute/projectroute.go:264-274 | the adjacency lists hold exactly the edges of the route graph |
| CycleSearch.SortedNodes | internal/projectroute/projectroute.go:275-279 | the nodes in sorted order, each once |
| Prelude.SortedUnique | internal/projectroute/projectroute.go:275-282 | that order does not depend on the order of map iteration |
| Prelude.StringLeMeans | internal/projectroute/projectroute.go:275-279 | the order of names: a prefix first, otherwise the first difference decides |
| CycleSearch.FindCycle | internal/projectroute/projectroute.go:263-321 | nothing is returned if and only if the graph is acyclic; otherwise a closed walk along real edges with distinct inner nodes |
| Graphs.AcyclicHasRank | internal/projectroute/projectroute.go:260-263 | a finite graph without a cycle can be ranked along its edges |
| ProjectRoutes.PlanFor | internal/projectroute/projectroute.go:121-140 | the nested loops collect outgoing subjects and incoming targets in declaration order |
| ProjectRoutes.ValidateProject | internal/projectroute/projectroute.go:169-250 | every violation is reported and nothing else; no error if and only if the project is acceptable |
| ProjectRewrite.BuildPredicateProcessor | internal/render/project_rewrite.go:121-149 | the counting and collecting loops build the filter processor |
| ProjectRewrite.ApplyProjectIO | internal/render/project_rewrite.go:39-67 | an empty plan changes nothing, a non-mapping is an error, otherwise the mapping is rewritten in place |
| ProjectRewrite.RewriteFrame | internal/render/project_rewrite.go:155-165 | other entries and the user's processors are kept; the filter is put in front |
| ProjectRoutes.DurableNameInjective | internal/projectroute/projectroute.go:43-47 | each target of a route has its own durable consumer |
| ProjectRoutes.NatsUrlInjective | internal/projectroute/projectroute.go:49-53 | different projects and namespaces have different servers |
| Delivery.BuildOutputPublishes | internal/render/project_rewrite.go:81-93 | the built output sends every message to exactly the planned subjects of the project's server, single or fan-out |
| Delivery.BuildOutputForwards | internal/render/project_rewrite.go:69-93 | every built output forwards all metadata |
| Delivery.BuildInputBinds | internal/render/project_rewrite.go:106-115 | the built input is bound to exactly the planned durable consumers of the project's server, outside any queue, single or fan-in |
| Delivery.PrintedTexts | internal/render/project_rewrite.go:142-153 | the compiler prints the check that is true of exactly the subject's messages and the mapping that drops a message unless its predicate holds |
| Delivery.DeployedIsRewritten | internal/render/project_rewrite.go:39-67 | the config whose delivery is studied is what the rewrite makes of the user config |
| Delivery.FilterExact | internal/render/project_rewrite.go:121-149 | the filter passes a message if and only if no entry on its subject has a predicate or the first one that does holds, for one entry and for a fan-in |
| Delivery.OutgoingOnce | internal/projectroute/projectroute.go:125-127 | a producer publishes once to each of its routes |
| Delivery.IncomingOnSubject | internal/projectroute/projectroute.go:128-137 | on a route's subject a consumer has exactly that route's entries for it, in order |
| Delivery.GroupsExact | internal/render/project_rewrite.go:95-115 | on a route's subject each target is in the group of its own durable consumer only, and no other pipeline reads it |
| Delivery.SomeHand | internal/render/project_rewrite.go:95-102 | there is always a way for the groups to hand their messages out |
| Delivery.HandedToTarget | internal/projectroute/projectroute.go:43-47 | however groups hand messages to their holders, each target of a route gets its own copy |
| Delivery.DeliveredExactly | internal/render/project_rewrite.go:39-149 | with the configs of all pipelines running, for every accepted project a message is delivered over a route once to each target whose first predicate is absent or true, and to nobody else |
| Delivery.ForwardsAsDeclared | internal/render/project_rewrite.go:132-148 | that agrees with the table for every message if and only if a repeated target carries one predicate |
| Delivery.RoutingPreserved | internal/controller/pipeline_project_assign.go:40-62 | the rewritten configs deliver every message exactly as declared, once per route, if and only if no target is listed in the route with different predicates |
| Delivery.DistinctTargetsPreserved | internal/projectroute/projectroute.go:121-140 | in particular whenever the route lists no target twice |
| Delivery.DuplicateTargetIsFiltered | internal/render/project_rewrite.go:134-148 | in an accepted project that lists a target unconditionally and under a predicate, a declared message on which the predicate fails is delivered zero times |
| RouteStreams.ReconcileRouteStreams | internal/controller/pipelineproject_routes.go:62-103 | creation and pruning loops with their early exit; each route is reported Ready exactly if its stream was ensured |
| RouteStreams.PrunedExact | internal/controller/pipelineproject_routes.go:95-102 | pruning deletes exactly the recorded streams of no current route before the first failing call |
| RouteStreams.ProjectReconciler.Reconcile | internal/controller/pipelineproject_controller.go:182-275 | validate against the live pipelines, provision, write the status; each route is Ready exactly if its stream was ensured; streams are current afterwards, and stay recorded, exactly under the conditions below |
| RouteStreams.TrackedExact | internal/controller/pipelineproject_routes.go:95-102 | one reconcile keeps every stream recorded if and only if it does not lose track |
| RouteStreams.TrackedAlways | internal/controller/pipelineproject_routes.go:62-103 | over a run every stream is recorded at every point if and only if no reconcile loses track |
| RouteStreams.CurrentExact | internal/controller/pipelineproject_controller.go:182-275 | from every state, exactly when a reconcile leaves the streams of current routes only and every Ready route with its own |
| RouteStreams.StreamsFollowRoutes | internal/controller/pipelineproject_routes.go:62-103 | over every run from every state: that holds after each reconcile if and only if each meets its condition |
| RouteStreams.RoutesReported | internal/controller/pipelineproject_controller.go:190-275 | over every run, a written reconcile of a valid table reports every route, Ready exactly if its stream was ensured, and of an invalid one reports none |
| RouteStreams.SmoothFollowsRoutes | internal/controller/pipelineproject_routes.go:62-103 | in particular after every reconcile of a run with valid tables and landed status writes |
| RouteStreams.OutOfReachStays | internal/controller/pipelineproject_routes.go:95-102 | a stream neither recorded nor of a current route survives every later event until a route of its name returns |
| RouteStreams.InvalidTableForgets | internal/controller/pipelineproject_controller.go:190-196 | removing the producer and then the route leaves the stream behind, through every continuation without a route of that name |
| Secrets.FetchSecretValues | internal/controller/secret_substitution.go:45-73 | the values are the pod's environment, or the error names the first secret that is missing or unreadable, or else the first missing key |
| Secrets.LastReferenceWins | internal/controller/pipeline_controller.go:403-420 | in a pod the last reference for a variable decides |
| Secrets.OnlyReferencesSet | internal/controller/pipeline_controller.go:403-420 | only the referenced variables are set |
| Secrets.ReferenceReplaced | internal/controller/secret_substitution.go:16-38 | every `${NAME}` and `${NAME:default}`, by the characters of the pattern, is substituted and resolved, whatever follows |
| Secrets.OtherTextPassed | internal/controller/secret_substitution.go:16-38 | any other text is passed over character by character |
| Secrets.MeaningPreserved | internal/controller/secret_substitution.go:24-38 | the substituted text means without the variables what the original means with them |
| Secrets.MeaningExact | internal/controller/secret_substitution.go:24-38 | that holds for every text if and only if closing braces stand only at the end of values |
| Secrets.IdempotentExact | internal/controller/secret_substitution.go:24-38 | substitution is idempotent if and only if no value has a closing brace |
| Secrets.UnrelatedTextUnchanged | internal/controller/secret_substitution.go:21-23 | text that refers to none of the secrets is unchanged |
| Secrets.ClusterModeMatchesPodMode | internal/controller/pipeline_controller.go:403-420 | cluster mode with substitution agrees with pod mode with environment variables |
| ComponentRender.ArrayPathIsElementwise | internal/render/render.go:149-157 | the array path equals rendering element by element |
| ComponentRender.RenderKeepsLeaves | internal/render/render.go:147-218 | the scalars and empty values of the rendered value are exactly those of the input that must survive, those of a config under its type, the others in place |
| ComponentRender.LeavesDetermine | internal/render/render.go:147-218 | so the rendered value is determined: two values with the same leaves are equal |
| ComponentRender.NothingLeft | internal/render/render.go:147-218 | no spec is left if and only if no component named "type" has a non-empty string config |
| ComponentRender.FixedPoint | internal/render/render.go:147-170 | rendering leaves a value as it is if and only if it holds no spec |
| ComponentRender.RenderTwice | internal/render/render.go:147-218 | a second rendering changes nothing if and only if the first left no spec |
| Layering.Relax | ui/src/topology.ts:136-144 | one turn of the worklist raises, counts down and enqueues |
| Layering.ComputeLayers | ui/src/topology.ts:125-144 | on every graph the worklist ends, takes each node at most once, leaves only nodes that wait for an untaken one, and each layer is one above the highest followed predecessor |
| Layering.LayersAreLongestPaths | ui/src/topology.ts:119-144 | on an acyclic graph every edge rises and a layer is the longest path into the node |
| Topology.BuildTopology | ui/src/topology.ts:61-117 | one node per mentioned id and no other, drawn as what it is, a cache as undeclared exactly if the project does not declare it; one edge per route end, cache usage and cache link |
| Topology.ExpandedAcyclic | ui/src/topology.ts:78-87 | acyclicity carries over from pipelines to the graph with routers |
| Layout.ComputeLayout | ui/src/topology.ts:120-179 | every box stands in the column of its layer below the earlier nodes of the layer, caches in order; no boxes overlap, all lie within width and height, which are no larger than needed, and caches lie below routes |
| Layout.PositionsInOrder | ui/src/topology.ts:153-172 | a lower layer stands to the left, one layer in one column from the left edge, rows and caches in node order |
| Layout.AcceptedProjectsReadLeftToRight | ui/src/topology.ts:119-144 | for every accepted project each route edge goes to a higher layer and further right, and layers are longest paths |
| Layout.DrawProject | ui/src/components/ProjectDetail.tsx:97-102 | building and laying out a project end to end: content and positions for every project, left to right with longest-path layers for every accepted one |
| Distribution.AggregateDistribution | internal/api/cluster_aggregation.go:76-132 | each slot holds, sorted, exactly the pipelines on that instance; the rest with a larger ordinal are stale |
| Distribution.AppearsExactlyOnce | internal/api/cluster_aggregation.go:89-105 | in the view a pipeline with a readable instance appears once, in its slot or as stale |
| Distribution.SlotSizeIsLoad | internal/api/handlers_clusters.go:166-177 | the sizes of the view's slots equal the controller's load count |
| Distribution.ReadyMeansEligible | internal/api/cluster_aggregation.go:76-88 | with one pod per ordinal, the view shows an instance as ready exactly if the controller would place pipelines on it |
| Distribution.ReachableIsCoherent | internal/controller/pipeline_cluster_assign.go:93-109 | statuses reached by the reconciler meet the coherence that needs |
| Sessions.SessionStore.Get | internal/api/oidc.go:95-107 | answers an unexpired session and drops an expired one |
| Sessions.SessionStore.Gc | internal/api/oidc.go:117-126 | keeps exactly the sessions whose age is at most the TTL, unchanged |
| Sessions.CollectionUnobservable | internal/api/oidc.go:89-126 | a lookup answers the last undeleted put if and only if its age is at most the TTL, whatever was collected |

## Left out

- Streams.FakeClient.EnsureStream: an accepted PUT that does not load leaves the stream absent, as the reconciler assumes, while the test client keeps an earlier one; its error fields are an outcome argument.
- Streams.FakeClient.GetStreamStatus: activity belongs to the stream, while the test client keeps an inactive flag per stream id across PUTs.
- PipelineReconcilers.PipelineReconciler.HandlePodMode: ConfigMap and PodMonitor contents, and the derivation of phase and condition from a pod, are read off the environment.
- PipelineReconcilers.PipelineReconciler.HandleProjectAssigned: `Env.desired` stands for rendering, rewriting and secret substitution, whose own properties are proved separately.
- ProjectRoutes.ValidateProject: errors carry their kind and the names they mention; their texts and the sorting by text are not modelled.
- ProjectRewrite.ApplyProjectIO: works on parsed documents; YAML parsing and printing, and the error for invalid YAML, are not part of this model.
- Delivery.DeliveredExactly: user configs are assumed to stay off the project's subjects where the project does not manage them; retries, acknowledgement and redelivery are not modelled.
- Topology.BuildTopology: predicates and operators attached to edges are not modelled.
- Message texts: conditions and errors carry their reason and the names they mention, not the rendered text.
- Requeue timing and controller-runtime's retry: the result of a reconcile is modelled, the queue is not.
- Stale informer caches and concurrent reconciles of the same resource.
- Topology nodes are records in an array updated in place; sharing of node objects between callers is not modelled.
- Retention settings, cache resources, roles, the PipelineCluster reconciler and project phases: a few comparisons each.
- HTTP handlers, authentication, log streaming, metrics, schema validation and the React components.
