# Workspaces: a verified model

The operator's Workspaces subsystem is a set of step-wise protocols over shared
cluster state. This project models its core and proves what every input, every
run and every interleaving satisfies:

- the **port pool**: TCPRoutes are the allocation table; allocate, stick, free, sweep;
- the **workspace lifecycle**: phases, the GPU gate, first come first served, failure
  forensics, and the ordered deletion with its force, grace and abandon paths;
- the **GPU inventory** and the live availability query, and their agreement;
- **Helm value injection**: path parser, nested writer, and "the selector gated is the
  selector placed";
- the **prerequisite verdict**, consumed by index, and shared installs that never move;
- the **optimistic-concurrency update** of ClusterDeployments under interference.

API servers are stores; every call that can fail gets its answer as an input, so
each statement holds for every combination of successes and errors. Code that
updates objects in place is a class whose methods are proved equal to a function of
the old state; runs are sequences of such steps and arbitrary environment steps.

| file | content |
|---|---|
| `Text`, `Labels`, `SelectorKey`, `Nodes`, `Resources` | strings, labels, selectors and their key, nodes and pods, resource requests |
| `Availability`, `Offerings` | the live query, the inventory |
| `InjectionPath`, `ValueTree`, `Injection` | path grammar, value trees, injection |
| `PortPool`, `PortPoolMeaning` | one regional cluster, and what each answer says about its objects |
| `PortPoolRuns`, `PortPoolExamples` | all runs over it |
| `Prerequisites` | verdict, installs, runs |
| `ManagedUpdate` | the retry loop, all interleavings |
| `Workspaces`, `Lifecycle`, `Deletion`, `Reconciler` | one workspace, one pass over it |
| `LifecycleRuns`, `LifecycleSafety`, `LifecycleExamples` | all runs over all workspaces, and runs that show the limits |
| `RouteTeardown` | lifecycle and port pool together |

In the lifecycle model a pass is a function of the answers it met and of `Facts`, the
values it computes from them; `Honest` says the facts are the real ones. Runs require
honest facts at every step, and `Reconciler.WorkspaceRecord.Reconcile` shows that the
code's behaviour is exactly such a step.

Operations are functions that the code's methods compute. What such a function means is
stated once more without it, over the stored objects themselves, with literal keys,
names and numbers, and lists read by index (`NewEndpoint`, `AttachedEndpoint`,
`KindMeans`, `Asks`, `QuantitiesStand`, `SameConfig`, `Affords`); the run theorems use
those readings.

Where a comment or a document promises more than the code does, the model follows the
code and a lemma says exactly when the promise holds:

- "A deployed workspace must never be re-gated" (`internal/controller/workspaces/workspacedeployment_controller.go`, line 161): `RegatedExactly`, with `DeployedIsRegated` and `FailedIsRegated`.
- "The oldest waiter proceeds first; the rest defer" (line 556): on the selector stamped on the status, which an edit of the request does not change; `PassedOverOnlyIfEdited`, `EditedWaiterIsPassed`.
- Failed as a terminal phase (line 193): `FailedLeftExactly`.
- "At least one prereq has no provider yet" (`internal/controller/workspaces/prerequisites.go`, line 398): `MissingIsHidden`.
- A replaced intermediate counted as overwritten (`internal/controller/workspaces/inject.go`, line 173): `ReportIsLeafOnly`.
- "Passing the gate implies placeable" (ADR 0002): `MatchIsPlaceable`.
- Free capacity on nodes advertising both vendors: `FreeIsExact`.
- "No redundant API calls" (`internal/controller/infra/clusterdeployment/clusterdeployment.go`, line 100): `RepeatIsSilent`.
- "Routes cleaned" before deletion ends: the provider also answers success when it finds no ClusterDeployment or regional cluster; the milestone is then `RoutesSkipped`.

## Model

| member | source | states |
|---|---|---|
| `PortPoolRuns.PortsAreExclusive` | internal/controller/workspaces/routing/gatewayapi/portpool.go:55-164 | in every run of ensure, cleanup, sweep and environment steps, the sweeper's calls interleaved anyhow and whatever others do to namespaces, two routes of the operator never hold the same listener |
| `PortPoolRuns.AnsweredPortIsOwn` | internal/controller/workspaces/routing/gatewayapi/portpool.go:137-163 | in every run, a workspace that asks again for an endpoint it has is told the port of the listener its route holds, and with distinct listener ports no other operator route holds a listener on that port |
| `PortPoolRuns.CondemnedHoldsNothing` | internal/controller/workspaces/routing/gatewayapi/provider.go:279-294 | in every run, a namespace the operator put into termination after removing its routes holds no operator route |
| `PortPoolRuns.SectionIsSticky` | internal/controller/workspaces/routing/gatewayapi/portpool.go:137-163 | in every run, a route keeps its listener from the moment it is created for as long as it exists |
| `PortPoolRuns.SweepReclaims` | internal/controller/workspaces/routing/gatewayapi/sweep.go:42-94 | in every run, an error-free sweep removes exactly the operator routes in orphaned namespaces; where a route's namespace is live and labelled with its workspace, the route is left if and only if the workspace is in the snapshot of active names; what is left is unchanged |
| `PortPoolRuns.SweepFreesInactive` | internal/controller/workspaces/routing/gatewayapi/sweep.go:66-91 | with gentle neighbours, after an error-free sweep no port is left to a workspace outside the snapshot, and every route of a workspace in it is untouched |
| `PortPoolRuns.OnlyEnsureRefills` | internal/controller/workspaces/routing/gatewayapi/sweep.go:80-90 | in every run with the sweeper's two calls interleaved: if a namespace holds an operator route after its routes were swept, an ensure step of that namespace created it in between |
| `PortPoolExamples.SweepRaceHappens` | internal/controller/workspaces/routing/gatewayapi/sweep.go:82-90 | a concrete run in which that happens and the sweeper then terminates the namespace under a live port |
| `PortPoolRuns.GentleRunsAreIntact` | internal/controller/workspaces/routing/gatewayapi/provider.go:441-482 | while nobody else terminates, relabels or races a mirror namespace, every operator route keeps a live namespace labelled with its workspace |
| `PortPoolRuns.SweepIsExact` | internal/controller/workspaces/routing/gatewayapi/sweep.go:66-91 | a route disappears in a sweep if and only if its namespace is an orphan and its deletion went through, also when the bulk delete failed half-way; routes of active names are untouched |
| `PortPoolRuns.CleanupReturnsPorts` | internal/controller/workspaces/routing/gatewayapi/provider.go:279-294 | in every reachable state, a cleanup returns exactly the listeners of the workspace it cleans |
| `PortPoolRuns.RunKeepsInv` | internal/controller/workspaces/routing/gatewayapi/provider.go:124-241 | the allocation invariant holds after any number of steps |
| `PortPoolRuns.StepKeepsInv` | internal/controller/workspaces/routing/gatewayapi/provider.go:248-296 | each step keeps the allocation invariant: owned routes attached to distinct listeners, outside namespaces the operator terminated after removing their routes, and outside swept namespaces |
| `PortPool.AllocatesLowestFree` | internal/controller/workspaces/routing/gatewayapi/portpool.go:93-115 | a new route attaches to a TCP listener nobody held, and every TCP listener with a lower port is held |
| `PortPool.ExhaustedExactly` | internal/controller/workspaces/routing/gatewayapi/portpool.go:93-105 | exhaustion is reported exactly when there is a pool and every listener of it is held |
| `PortPool.PoolIsTcpListeners` | internal/controller/workspaces/routing/gatewayapi/portpool.go:203-213 | the pool is sorted by port and holds exactly the Gateway's TCP listeners |
| `PortPoolMeaning.NewEndpoint` | internal/controller/workspaces/routing/gatewayapi/portpool.go:88-133 | an endpoint without a route: exhausted, with the number of TCP listeners, exactly when every one is held; otherwise the lowest-port listener no route holds, a labelled route attached to it alone and leading to the endpoint's service, nothing else touched; a racing create still answers the port, a refused one is an error |
| `PortPoolMeaning.AttachedEndpoint` | internal/controller/workspaces/routing/gatewayapi/portpool.go:137-163 | an endpoint whose route holds a listener: shrunk exactly when the Gateway has no TCP listener of that name; otherwise that listener's own port, ready exactly when the Gateway's first report accepts and resolves the route, and afterwards the rules are the endpoint's one backend, nothing else changed; an error exactly when the rules had to be written and could not |
| `PortPoolMeaning.DetachedEndpoint` | internal/controller/workspaces/routing/gatewayapi/portpool.go:138-142 | a route attached to no listener of the Gateway is reported and left alone |
| `PortPoolMeaning.UnreadEndpoint` | internal/controller/workspaces/routing/gatewayapi/portpool.go:63-95 | no TCP listener, no TCPRoute kind, a failing read or a failing listing: each with its own answer and no change |
| `PortPoolMeaning.SectionMeans` | internal/controller/workspaces/routing/gatewayapi/portpool.go:185-199 | the listener a route holds is that of the first parent naming the Gateway in its own or the route's namespace, with a section |
| `PortPoolMeaning.HeldMeans` | internal/controller/workspaces/routing/gatewayapi/portpool.go:169-181 | a listener counts as held exactly when some route of the cluster holds it |
| `PortPoolMeaning.ProgrammedMeans` | internal/controller/workspaces/routing/gatewayapi/provider.go:646-660 | ready exactly when the first report by our Gateway says accepted and resolved |
| `PortPoolMeaning.PoolSize` | internal/controller/workspaces/routing/gatewayapi/portpool.go:203-213 | the pool has as many entries as the Gateway has TCP listeners |
| `PortPoolMeaning.EntriesMean` | internal/controller/workspaces/routing/gatewayapi/provider.go:124-241 | one entry for every endpoint, or none and an error exactly when the namespace could not be had or the call for some endpoint failed |
| `PortPoolMeaning.MirrorFailsExactly` | internal/controller/workspaces/routing/gatewayapi/provider.go:441-482 | the mirror namespace `ws-<workspace>` is refused exactly when it cannot be read, is terminating, or has to be created or relabelled and that is refused |
| `PortPoolMeaning.MirrorMeans` | internal/controller/workspaces/routing/gatewayapi/provider.go:441-482 | otherwise it is there, live, reads the workspace label and every mesh label, keeps its other labels, and no other namespace moved; or someone else created it in that moment |
| `PortPoolMeaning.CleanupMeans` | internal/controller/workspaces/routing/gatewayapi/provider.go:248-296 | route by route and namespace by namespace: the workspace's labelled routes in `ws-<workspace>` go as far as the delete got, that namespace is terminated exactly when everything went through, all else stays |
| `PortPoolMeaning.SweepMeans` | internal/controller/workspaces/routing/gatewayapi/sweep.go:60-92 | likewise for a sweep: routes go in live namespaces labelled with an inactive workspace, as far as the delete got; such a namespace is terminated exactly when neither delete failed; all else stays |
| `PortPool.TcpListeners` | internal/controller/workspaces/routing/gatewayapi/portpool.go:203-213 | the filter loop and the sort compute the pool |
| `PortPool.ParentsProgrammed` | internal/controller/workspaces/routing/gatewayapi/provider.go:646-660 | the first report of our Gateway decides whether a route is ready |
| `PortPool.Halted` | internal/controller/workspaces/routing/gatewayapi/provider.go:160-241 | once an endpoint fails, the endpoints after it change nothing |
| `PortPool.HostsAre` | internal/controller/workspaces/routing/gatewayapi/provider.go:161-216 | every entry, index by index: a service name or hostname over 63 characters is reported exactly then; any other HTTP endpoint gets its hostname and readiness, the bare workspace name exactly if no earlier HTTP endpoint could take it |
| `PortPool.HostsAreDistinct` | internal/controller/workspaces/routing/gatewayapi/provider.go:195-216 | endpoints with distinct names get distinct hostnames |
| `PortPool.RegionalCluster.AllocatedSections` | internal/controller/workspaces/routing/gatewayapi/portpool.go:169-199 | the loop over all routes returns exactly the sections held on this Gateway |
| `PortPool.RegionalCluster.EnsureTcpRoute` | internal/controller/workspaces/routing/gatewayapi/portpool.go:55-164 | updates the stored routes and answers as the allocation function says, on every error path; what those answers mean is `NewEndpoint`, `AttachedEndpoint`, `DetachedEndpoint` and `UnreadEndpoint` |
| `PortPool.RegionalCluster.EnsureMirrorNamespace` | internal/controller/workspaces/routing/gatewayapi/provider.go:441-482 | creates or heals the mirror namespace, accepts one that someone created first, refuses a terminating one |
| `PortPool.RegionalCluster.EnsureEndpoint` | internal/controller/workspaces/routing/gatewayapi/provider.go:160-239 | one turn of the endpoint loop: service name, hostname label, mirror, route |
| `PortPool.RegionalCluster.EnsureRoutes` | internal/controller/workspaces/routing/gatewayapi/provider.go:124-241 | the endpoint loop leaves the cluster and returns the entries the endpoint fold says, none at all after an error |
| `PortPool.RegionalCluster.CleanupRoutes` | internal/controller/workspaces/routing/gatewayapi/provider.go:248-296 | removes the workspace's routes, then terminates its namespace; a failed bulk delete may have removed any of the routes and keeps the namespace |
| `PortPool.RegionalCluster.SweepNamespaces` | internal/controller/workspaces/routing/gatewayapi/sweep.go:60-92 | whatever the listing order, the loop is the pointwise sweep |
| `PortPool.RegionalCluster.SweepNamespace` | internal/controller/workspaces/routing/gatewayapi/sweep.go:66-91 | one namespace: skipped unless an orphan; its routes first, as far as the delete gets, then itself |
| `PortPool.SweepOrphans` | internal/controller/workspaces/routing/gatewayapi/sweep.go:42-94 | each reachable cluster is swept with the answers it gives, each unreachable one untouched |
| `LifecycleSafety.EveryDeploymentIsGated` | internal/controller/workspaces/workspacedeployment_controller.go:158-297 | in every run, each write of a workspace ServiceSet happens in a step where the nodes with its labels had free GPUs for n replicas of g each (n and g the user's numbers, else the class's, else 1 and 0), nobody older waited for them, every declared prerequisite was reported Deployed where it belongs, and the namespace is live and reads every desired label; the release is the class's chart in `ws-<name>` with its timeout, placed on exactly those labels, and a new ServiceSet is owned by the workspace |
| `LifecycleSafety.NoQueueJumping` | internal/controller/workspaces/workspacedeployment_controller.go:499-514 | no run, spec edits included, deploys a workspace while an older one on the same cluster is Waiting with the same selector on its status |
| `LifecycleSafety.PassedOverOnlyIfEdited` | internal/controller/workspaces/workspacedeployment_controller.go:588-599 | in every run, an older waiter that asks for the same selector is passed over only if the selector stamped on it has another key; then it asked for that one earlier in the run and was edited since |
| `LifecycleSafety.StampDecides` | internal/controller/workspaces/workspacedeployment_controller.go:578-583 | in any listing such a waiter holds the newcomer back if its stamped key is its requested key, and is as good as not there otherwise |
| `LifecycleSafety.StampIsAPastWish` | internal/controller/workspaces/workspacedeployment_controller.go:536-551 | in every run, the resources stamped on a status ask for what the user wanted at some moment up to now |
| `LifecycleExamples.EditedWaiterIsPassed` | internal/controller/workspaces/workspacedeployment_controller.go:590-598 | a complete run that deploys a workspace past an older waiter asking for the very same selector |
| `LifecycleSafety.OldestIsServed` | internal/controller/workspaces/workspacedeployment_controller.go:499-515 | in every run, a visit that finds the oldest in line Waiting, neither suspended nor being deleted, with enough GPUs free for every replica, prerequisites reported in place and everything answering, deploys it |
| `LifecycleSafety.DeployedWasWritten` | internal/controller/workspaces/workspacedeployment_controller.go:282-296 | a workspace found Deploying or Running in any run got there by such a write and has stayed Deploying or Running since |
| `LifecycleSafety.RunningOnlyFromDeploying` | internal/controller/workspaces/workspacedeployment_controller.go:889-913 | Running is entered only from Deploying, with the workspace's own release reported deployed |
| `LifecycleSafety.DeployingSettles` | internal/controller/workspaces/workspacedeployment_controller.go:863-936 | a Deploying workspace past its checks becomes Running, Failed out of Deploying, or stays, as its release reports |
| `LifecycleSafety.PassReaches` | internal/controller/workspaces/workspacedeployment_controller.go:136-199 | every status a pass stores is a holding phase, Deploying with the ServiceSet written, or Running out of Deploying |
| `LifecycleSafety.RunningEnsuresRoutes` | internal/controller/workspaces/workspacedeployment_controller.go:182-196 | routes are added exactly by a pass over a Running workspace whose prerequisites are in place; no live pass removes any |
| `LifecycleSafety.GateNotAsked` | internal/controller/workspaces/workspacedeployment_controller.go:158-172 | a Deploying, Running or Failed workspace is not gated: whatever the gate would answer, the pass is the same |
| `LifecycleSafety.FeasibilityMatters` | internal/controller/workspaces/workspacedeployment_controller.go:142-156 | a failing feasibility refresh stops a pass with nothing stored in every phase but Running, Failed and Waiting, where it makes no difference |
| `LifecycleSafety.MissingParts` | internal/controller/workspaces/workspacedeployment_controller.go:109-140 | no class: Failed; no ClusterDeployment: Pending unless Running; either unreadable: nothing stored; no object written |
| `LifecycleSafety.RegatedExactly` | internal/controller/workspaces/workspacedeployment_controller.go:136-199 | over whole runs: from the write of its ServiceSet on, while not being deleted, a workspace is never exposed to the gate if and only if no step loses the Deploying status write, stores that the ClusterDeployment of a Deploying or Failed workspace is missing, or stores that a prerequisite is being installed again |
| `LifecycleSafety.LastOpening` | internal/controller/workspaces/workspacedeployment_controller.go:136-199 | whenever such a workspace is exposed to the gate, one of these steps came after the write and it has been exposed ever since |
| `LifecycleSafety.StepOpens` | internal/controller/workspaces/workspacedeployment_controller.go:136-199 | each of these three steps opens the gate again, and no other step does |
| `LifecycleSafety.PassRegatesExactly` | internal/controller/workspaces/workspacedeployment_controller.go:136-179 | one pass over a Deploying or Running workspace exposes it to the gate if and only if its ClusterDeployment is missing while Deploying, or a prerequisite is being installed again |
| `LifecycleSafety.RunningCanFailTheGate` | internal/controller/workspaces/workspacedeployment_controller.go:158-180 | after such a regression the gate can fail a workspace whose ServiceSet is in place |
| `LifecycleExamples.DeployedIsRegated` | internal/controller/workspaces/workspacedeployment_controller.go:158-163 | a concrete running workspace that is Failed by the gate two passes later |
| `LifecycleExamples.FailedIsRegated` | internal/controller/workspaces/workspacedeployment_controller.go:193-196 | a concrete running workspace that fails with its class missing, is Pending with its ClusterDeployment missing, and is failed by the gate with its ServiceSet in place |
| `LifecycleSafety.LostWriteRegates` | internal/controller/workspaces/workspacedeployment_controller.go:282-294 | after a pass that wrote the ServiceSet, the gate is asked again exactly when the status write was lost |
| `LifecycleSafety.FailedLeftExactly` | internal/controller/workspaces/workspacedeployment_controller.go:193-196 | Failed is left if and only if the ClusterDeployment is missing or a prerequisite is being installed again |
| `LifecycleSafety.FailuresAreRecorded` | internal/controller/workspaces/failurecontext.go:39-72 | in every reachable state Failed has a failure context whose phase is not Failed; Deploying and Running have none |
| `LifecycleSafety.FailureNamesItsPhase` | internal/controller/workspaces/failurecontext.go:60-72 | a newly recorded failure names the phase the workspace was in, Pending for none |
| `LifecycleSafety.FailureIsFrozen` | internal/controller/workspaces/failurecontext.go:44-51 | while a workspace stays Failed its failure context never changes |
| `LifecycleSafety.FinalizerGoesLast` | internal/controller/workspaces/workspacedeployment_controller.go:952-1018 | in every run the finalizer goes only in a pass, not suspended, that reached routes, ServiceSet, namespace in that order, each milestone being true of what is left |
| `LifecycleSafety.FinalizedIsClean` | internal/controller/workspaces/workspacedeployment_controller.go:967-1012 | in every state after that, no ServiceSet; routes gone unless skipped or abandoned; namespace gone or terminating unless the cluster was gone or cleanup abandoned |
| `LifecycleSafety.FinishesExactly` | internal/controller/workspaces/workspacedeployment_controller.go:952-1018 | with the management API up, a pass removes the finalizer if and only if the workspace is not suspended, routes are dealt with (or more than 600 seconds have passed since the mark), and the cluster is not there or being deleted, or the ServiceSet is not draining and the namespace yields (or past the 600 seconds) |
| `LifecycleSafety.FinishesByAnswers` | internal/controller/workspaces/workspacedeployment_controller.go:952-1018 | the same for every combination of answers, failing calls included, as an iff on the answers one by one |
| `LifecycleSafety.PastGraceOnlyDrainingHolds` | internal/controller/workspaces/workspacedeployment_controller.go:970-1017 | past the grace period with the management API up and suspend off, the finalizer stays if and only if the cluster is live and its ServiceSet draining; with the cluster gone no ServiceSet is left |
| `LifecycleSafety.GoneClusterNeedsNoGrace` | internal/controller/workspaces/service_apply.go:188-224 | with the cluster gone and route cleanup answering, one pass finishes at once |
| `LifecycleSafety.DrainingIsNeverForced` | internal/controller/workspaces/service_apply.go:142-179 | on a live cluster a draining ServiceSet holds the deletion however long it takes |
| `LifecycleSafety.DeletionIsRequested` | internal/controller/workspaces/workspacedeployment_controller.go:952-1000 | a deletion pass stores Deleting if it can, and one that reaches a live cluster's ServiceSet leaves it gone or marked for deletion |
| `RouteTeardown.CleanedHoldsNoPort` | internal/controller/workspaces/routing/gatewayapi/provider.go:279-294 | with the port pool of its regional cluster alongside: a teardown that finishes with routes cleaned leaves the workspace no operator route |
| `RouteTeardown.FreedStaysFree` | internal/controller/workspaces/workspacedeployment_controller.go:186-192 | and none comes back until a workspace of that name runs |
| `RouteTeardown.SweeperReclaimsAbandoned` | internal/controller/workspaces/routes.go:133-137 | what a teardown abandoned the sweeper reclaims: after an error-free sweep no port is left under a name no workspace bears any more, and existing workspaces keep theirs |
| `LifecycleSafety.NothingCreatedAfterMark` | internal/controller/workspaces/workspacedeployment_controller.go:96-99 | after the deletion mark, any number of steps later: no route and no ServiceSet that was not there; a namespace only if there was one, or a ServiceSet that can bring it back |
| `LifecycleSafety.StepAddsNothing` | internal/controller/workspaces/workspacedeployment_controller.go:952-1018 | after the mark no reconcile step creates a route, a ServiceSet or a namespace |
| `LifecycleSafety.OwnedIsGuarded` | internal/controller/workspaces/workspacedeployment_controller.go:101-107 | whenever the operator holds a ServiceSet or routes for a workspace, its finalizer is in place |
| `LifecycleRuns.RunKeepsInv` | internal/controller/workspaces/workspacedeployment_controller.go:78-200 | the invariant of all workspaces and finished teardowns holds after any number of steps |
| `LifecycleRuns.StepKeepsInv` | internal/controller/workspaces/workspacedeployment_controller.go:78-200 | one reconcile or environment step keeps it |
| `LifecycleRuns.VisitKeepsHealth` | internal/controller/workspaces/workspacedeployment_controller.go:78-200 | any pass, live or deleting, keeps a workspace's status sound, changes nothing of its request, and a finished teardown is clean |
| `LifecycleRuns.PassFollows` | internal/controller/workspaces/workspacedeployment_controller.go:136-199 | a live pass keeps the failure-context rules; it stamps only what the workspace asks for now, and always when it enters Waiting |
| `Lifecycle.GateIsAdmission` | internal/controller/workspaces/workspacedeployment_controller.go:442-515 | the gate opens if and only if no GPU is asked for, or a usable node with its labels advertises one, enough are free for every replica, and nobody older waits |
| `Lifecycle.GateHolds` | internal/controller/workspaces/workspacedeployment_controller.go:453-514 | what a closed gate stores: Pending while the cluster cannot be asked, Failed exactly without a usable node with the labels and a GPU, Waiting with the request stamped exactly when short of n times g GPUs or behind an older waiter, nothing when siblings cannot be listed |
| `Lifecycle.PrereqStageIsMet` | internal/controller/workspaces/workspacedeployment_controller.go:718-833 | the prerequisite stage lets a pass continue if and only if every declared prerequisite is reported in place and none carries a version constraint or is unreadable |
| `Lifecycle.PrereqStageHolds` | internal/controller/workspaces/workspacedeployment_controller.go:729-831 | by the reports themselves: a prerequisite in another namespace than requested fails the workspace before a failed install does, each with its own reason; anything else not in place means installing, unless the last of those has no provider and an install call failed |
| `Lifecycle.PrereqStageUnjudged` | internal/controller/workspaces/workspacedeployment_controller.go:718-760 | the first version constraint fails the workspace as invalid; an unreadable ServiceSet before it, or no ClusterDeployment, stores nothing; no prerequisites, nothing asked |
| `Lifecycle.StartHolds` | internal/controller/workspaces/workspacedeployment_controller.go:206-297 | why a start stops short: no child client is Pending, values that do not compose are an internal error, a terminating or racing namespace is Pending, an unwritable one stores nothing, an unwritable ServiceSet is an internal error; otherwise Deploying without a failure context |
| `Lifecycle.OutcomeMeans` | internal/controller/workspaces/workspacedeployment_controller.go:879-931 | a release is settled as the first settled report on its entry says, and not without one |
| `Lifecycle.WriteIsGated` | internal/controller/workspaces/workspacedeployment_controller.go:206-297 | one pass: the ServiceSet write implies admission, prerequisites in place, labelled namespace, the workspace's own release, and placement on the gated selector |
| `Lifecycle.EnsureNamespaceLabels` | internal/controller/workspaces/namespace.go:77-149 | ready means labelled and not terminating; waiting exactly on a terminating namespace or one someone just created; other labels untouched |
| `Deletion.TeardownInOrder` | internal/controller/workspaces/workspacedeployment_controller.go:952-1018 | milestones come in order, each true of the result; the finalizer goes exactly with the fourth; nothing is created |
| `Workspaces.ExactlyOneUnblocked` | internal/controller/workspaces/workspacedeployment_controller.go:557-586 | any non-empty group of waiters has exactly one member that is not blocked, the oldest |
| `Workspaces.OlderIsStrictTotal` | internal/controller/workspaces/workspacedeployment_controller.go:620-626 | earlier creation is older, equal creation is decided by UID, and that is a strict total order |
| `Workspaces.CompetingMeansSameSelector` | internal/controller/workspaces/workspacedeployment_controller.go:578-580 | for selectors in label syntax, comparing keys is comparing selectors |
| `Workspaces.HasOlderWaitingSibling` | internal/controller/workspaces/workspacedeployment_controller.go:557-586 | the loop answers whether some other, older, Waiting workspace on the same cluster has the same selector key |
| `Workspaces.MarkFailedMeans` | internal/controller/workspaces/failurecontext.go:39-72 | the first failure is kept while the phase stays Failed; otherwise the reason and the phase it came out of, Pending for none, and nothing else moves |
| `Reconciler.WorkspaceRecord.Reconcile` | internal/controller/workspaces/workspacedeployment_controller.go:78-200 | one call leaves the stored objects, and reports, as the pass function of the run theorems says, and the prerequisite store as its install step does |
| `Reconciler.WorkspaceRecord.ReconcileActive` | internal/controller/workspaces/workspacedeployment_controller.go:101-107 | the finalizer before anything else |
| `Reconciler.WorkspaceRecord.ReconcileLive` | internal/controller/workspaces/workspacedeployment_controller.go:109-117 | class resolution, then the stages |
| `Reconciler.WorkspaceRecord.ReconcileStages` | internal/controller/workspaces/workspacedeployment_controller.go:128-199 | checks and phase dispatch as the stage functions say |
| `Reconciler.WorkspaceRecord.Check` | internal/controller/workspaces/workspacedeployment_controller.go:136-180 | cluster, feasibility, gate and prerequisites in that order, each skipped in the phases that skip it |
| `Reconciler.WorkspaceRecord.Advance` | internal/controller/workspaces/workspacedeployment_controller.go:182-199 | Deploying polls, Running ensures routes, Failed stops, everything else starts |
| `Reconciler.WorkspaceRecord.Tend` | internal/controller/workspaces/workspacedeployment_controller.go:182-196 | Deploying polls, Running ensures routes, Failed stops |
| `Reconciler.WorkspaceRecord.StartDeployment` | internal/controller/workspaces/workspacedeployment_controller.go:206-297 | stamps the resolved request, composes the values, installs |
| `Reconciler.WorkspaceRecord.InstallWorkspace` | internal/controller/workspaces/workspacedeployment_controller.go:265-296 | namespace before ServiceSet before Deploying, with every error path |
| `Reconciler.WorkspaceRecord.EnsureWorkspaceNamespace` | internal/controller/workspaces/namespace.go:77-122 | create, wait on termination or on whoever created it first, or heal labels |
| `Reconciler.WorkspaceRecord.EnsureWorkspaceServiceSet` | internal/controller/workspaces/service_apply.go:49-136 | create the ServiceSet with its owner, or replace its one release: chart, namespace, timeout, values |
| `Reconciler.WorkspaceRecord.CheckServiceReadiness` | internal/controller/workspaces/workspacedeployment_controller.go:863-936 | Running or Failed by the first settled report of the workspace's own release |
| `Reconciler.WorkspaceRecord.ReconcileDelete` | internal/controller/workspaces/workspacedeployment_controller.go:952-1018 | marks Deleting best-effort, then tears down as the deletion function says |
| `Reconciler.WorkspaceRecord.TearDown` | internal/controller/workspaces/workspacedeployment_controller.go:967-1015 | the four steps, each waiting for the one before |
| `Reconciler.WorkspaceRecord.CleanupRoutes` | internal/controller/workspaces/routes.go:138-168 | cleaned, skipped, retried, or abandoned past the grace period |
| `Reconciler.WorkspaceRecord.ForceDeleteServiceSet` | internal/controller/workspaces/service_apply.go:188-224 | deletes and clears finalizers |
| `Reconciler.WorkspaceRecord.EnsureServiceSetDeleted` | internal/controller/workspaces/service_apply.go:142-179 | requests deletion and reports whether the ServiceSet is gone |
| `Reconciler.WorkspaceRecord.CleanupNamespace` | internal/controller/workspaces/workspacedeployment_controller.go:1093-1127 | deleted or terminating, retried, or abandoned past the grace period |
| `Reconciler.GateGpuOffering` | internal/controller/workspaces/workspacedeployment_controller.go:442-515 | the lazy gate computes the gate function on the live summary and the sibling list; with `GateIsAdmission`, `GateHolds` and `DemandCoversReplicas` that is admission for every replica's GPUs |
| `Reconciler.ReconcilePrerequisites` | internal/controller/workspaces/workspacedeployment_controller.go:718-833 | evaluates, installs what is missing into the store, and what each verdict does to the workspace |
| `Reconciler.FindOutcome` | internal/controller/workspaces/workspacedeployment_controller.go:879-931 | the first settled report with the workspace's entry name |
| `Labels.ApplyMissingLabels` | internal/controller/workspaces/namespace.go:137-149 | the in-place loop heals exactly the differing labels and says whether there were any |
| `Labels.HealedReads` | internal/controller/workspaces/namespace.go:137-149 | afterwards each desired label reads as desired and each other one as before |
| `Prerequisites.EvaluatePrerequisites` | internal/controller/workspaces/prerequisites.go:237-365 | computes the evaluation that `EvaluateMeans` describes by the reports |
| `Prerequisites.EvaluateMeans` | internal/controller/workspaces/prerequisites.go:237-365 | an error without the ClusterDeployment; the first version constraint makes it Invalid and the first unreadable ServiceSet an error, whichever comes first; otherwise Conflict iff something is in another namespace than requested, else Failed iff an own install first reports failure, Satisfied iff all are in place, else by the last that is not; statuses[i] shows name, source, namespace and phase of prerequisite i |
| `Prerequisites.KindMeans` | internal/controller/workspaces/prerequisites.go:285-360 | over indices: with its own ServiceSet a template is satisfied iff the first report on it is Deployed, failed iff that is Failed, installing otherwise, also without a report; without one it is satisfied iff some report of the colony on it is Deployed, missing iff the colony neither reports nor lists it |
| `Prerequisites.MisplacedMeans` | internal/controller/workspaces/prerequisites.go:413-415 | a conflict is a named namespace that differs from the non-empty one of the first entry of the own ServiceSet, or of the colony's last report, or without a report of its first entry |
| `Prerequisites.StatusMeans` | internal/controller/workspaces/prerequisites.go:285-360 | name, source, namespace and phase of a status, from the reports; a missing one shows the requested namespace or `default` |
| `Prerequisites.InstallFailsExactly` | internal/controller/workspaces/workspacedeployment_controller.go:779-804 | the install loop goes through exactly when every pending template can be read and, if not installed yet, created |
| `Prerequisites.VerdictStep` | internal/controller/workspaces/prerequisites.go:296-355 | the fold step agrees with the declarative verdict |
| `Prerequisites.Judge` | internal/controller/workspaces/prerequisites.go:285-360 | one turn of the loop yields the status and moves the verdict by the kind that `StatusMeans` and `KindMeans` read off the reports |
| `Prerequisites.Survey` | internal/controller/workspaces/prerequisites.go:255-270 | known, deployed and namespace of each template: the last report wins over the first spec entry |
| `Prerequisites.ReadState` | internal/controller/workspaces/prerequisites.go:369-376 | the first report on the template |
| `Prerequisites.ReadNamespace` | internal/controller/workspaces/prerequisites.go:381-388 | the first spec entry of the template |
| `Prerequisites.MissingStepProvides` | internal/controller/workspaces/workspacedeployment_controller.go:779-804 | after an error-free Missing step every prerequisite has a provider; a formerly missing one is installing, or conflicts if the class declared its template earlier with another namespace; the rest is unchanged |
| `Prerequisites.MissingIsHidden` | internal/controller/workspaces/prerequisites.go:313-355 | a step with a willing API server leaves a prerequisite without provider if and only if one was missing and something conflicts, failed, or the last unsatisfied one is merely installing |
| `Prerequisites.MissingHiddenByInstalling` | internal/controller/workspaces/prerequisites.go:398-399 | a concrete class whose missing prerequisite is not installed by the step |
| `Prerequisites.InstallIsSticky` | internal/controller/workspaces/prerequisites.go:131-137 | in every run an installed prerequisite stays as it was declared for as long as its ServiceSet exists |
| `Prerequisites.FirstInstallerDecides` | internal/controller/workspaces/prerequisites.go:413-415 | in every run, after one class installed a template, another conflicts exactly when it names a namespace other than the first one's, `default` if that named none |
| `Prerequisites.PrerequisiteStore.EnsureServiceSet` | internal/controller/workspaces/prerequisites.go:120-214 | creates the ServiceSet if absent, never touches an existing one |
| `Prerequisites.PrerequisiteStore.InstallMissing` | internal/controller/workspaces/workspacedeployment_controller.go:779-804 | the install loop, stopping at the first error, and the statuses it reports |
| `Prerequisites.PrerequisiteStore.Reconcile` | internal/controller/workspaces/workspacedeployment_controller.go:718-833 | evaluation plus installation on the store |
| `ManagedUpdate.RunIsSerial` | internal/controller/infra/clusterdeployment/clusterdeployment.go:150-237 | every interleaving of any number of updaters and foreign writers is a serial run of atomic overlays and foreign writes |
| `ManagedUpdate.SuccessCarries` | internal/controller/infra/clusterdeployment/clusterdeployment.go:217-233 | whenever an updater succeeds, updated or unchanged, the object carries all it desired at that moment: the same configuration or one that decodes to the same value, the four other fields, every label and annotation |
| `ManagedUpdate.ForeignWritesSurvive` | internal/controller/infra/clusterdeployment/clusterdeployment.go:203-215 | unmanaged fields and keys keep what was last written by others, whatever the updaters do |
| `ManagedUpdate.AgreementStands` | internal/controller/infra/clusterdeployment/clusterdeployment.go:164-234 | updaters with one desire never undo each other |
| `ManagedUpdate.UpdaterIsRetry` | internal/controller/infra/clusterdeployment/clusterdeployment.go:164-236 | in every interleaving, an updater finishes with the result of the retry loop on what it met |
| `ManagedUpdate.UpdaterLeavesRetrysObject` | internal/controller/infra/clusterdeployment/clusterdeployment.go:222-233 | and when it succeeds, the object is the one that loop leaves |
| `ManagedUpdate.RetryMeans` | internal/controller/infra/clusterdeployment/clusterdeployment.go:164-236 | exhaustion exactly when every attempt was overtaken; unchanged or updated exactly as the deciding attempt finds; success carries everything desired |
| `ManagedUpdate.OverlayMeans` | internal/controller/infra/clusterdeployment/clusterdeployment.go:171-215 | an overlay sets every managed field and key, the configuration up to its decoded value, and leaves the rest |
| `ManagedUpdate.UnchangedMeans` | internal/controller/infra/clusterdeployment/clusterdeployment.go:217-220 | reporting no change implies the object carries everything and an overlay would store the same |
| `ManagedUpdate.ChangedExactly` | internal/controller/infra/clusterdeployment/clusterdeployment.go:171-220 | no change is reported if and only if the configuration decodes to the stored one's value, the four other fields are equal, and both maps are there with every desired key at its value |
| `ManagedUpdate.RepeatIsSilent` | internal/controller/infra/clusterdeployment/clusterdeployment.go:98-101 | a repeated update makes no call if and only if neither merged map is empty, the configuration decodes, and the service spec has no empty list |
| `ManagedUpdate.RepeatWrites` | internal/controller/infra/clusterdeployment/clusterdeployment.go:209-215 | a settled object without annotations that is written again |
| `ManagedUpdate.RepeatWritesServices` | internal/controller/infra/clusterdeployment/clusterdeployment.go:192-195 | so is an object whose service spec has an empty list |
| `ManagedUpdate.ReturnedExactly` | internal/controller/infra/clusterdeployment/clusterdeployment.go:192-195 | a service spec comes back from the API server as sent exactly when it has no empty list |
| `ManagedUpdate.MergeLabels` | internal/controller/infra/clusterdeployment/clusterdeployment.go:432-460 | existing entries overlaid by the colony's |
| `ManagedUpdate.Edit` | internal/controller/infra/clusterdeployment/clusterdeployment.go:171-215 | the edited object and the changed flag |
| `ManagedUpdate.ApiObject.Update` | internal/controller/infra/clusterdeployment/clusterdeployment.go:222-233 | accepted only at the version that was read |
| `ManagedUpdate.ApiObject.UpdateManagedFields` | internal/controller/infra/clusterdeployment/clusterdeployment.go:150-237 | five attempts of read, edit, compare-and-set under any interference, with reads and writes that may fail; what they achieve is `RetryMeans` with `ChangedExactly` |
| `Offerings.DeriveOfferings` | internal/gpu/offering.go:196-244 | one offering per occurring key with the per-key sums and node counts and the labels of a node with that key, ordered by model and resource name |
| `Offerings.GrandTotalConserved` | internal/gpu/offering.go:196-244 | the totals add up to every schedulable GPU of the cluster |
| `Offerings.KeyDetermines` | internal/gpu/offering.go:149-186 | nodes with one key have one selector and one model |
| `Offerings.Origin` | internal/gpu/offering.go:205-233 | every offering has key, model, selector and raw labels of some schedulable node, and its sums are the per-key sums |
| `Offerings.Present` | internal/gpu/offering.go:196-244 | every schedulable GPU resource appears under the model and selector of its node |
| `Offerings.PermutationInvariant` | internal/gpu/offering.go:196-244 | keys, models, totals and counts do not depend on node order |
| `Offerings.InventoryIsPlaceable` | internal/gpu/offering.go:374-421 | every offering with a selector is Found by the gate's query, with Free at least its Total when there are no pods |
| `Offerings.CanonicalInventoryAgrees` | internal/gpu/offering.go:374-421 | for a canonical-label selector and no pods, Free is the sum of Totals of the offerings carrying it |
| `Offerings.Aggregate` | internal/gpu/offering.go:200-229 | the node and vendor loops build an exact group-by |
| `Offerings.PieceMeans` | internal/gpu/offering.go:149-164 | a node's offering: vendor from the vendor label, else the resource's; model and selector from the model label, else the first product label of that vendor, else none; the units it advertises |
| `Offerings.DefaultProducts` | internal/gpu/offering.go:57-60 | without options NVIDIA is read off `nvidia.com/gpu.product`, AMD off `amd.com/gpu.product-name`, then `amd.com/gpu.device-id` |
| `Offerings.GpuLabelsMean` | internal/gpu/offering.go:446-460 | the raw labels kept are exactly those under the four GPU prefixes |
| `Offerings.OrderedMeans` | internal/gpu/offering.go:237-242 | the list is ordered by model, then by resource name |
| `Availability.AvailabilityForSelector` | internal/gpu/offering.go:374-421 | found, free, resource and vendor as the folds over nodes and pods say |
| `Availability.AvailableForModel` | internal/gpu/offering.go:265-307 | free and found for a canonical model |
| `Availability.ModelQueryIsSelectorQuery` | internal/gpu/offering.go:325-327 | for all inputs the model query is the selector query on NodeSelectorForModel |
| `Availability.FreeIsExact` | internal/gpu/offering.go:385-392 | Free is allocatable minus live requests for every pod population if and only if no counted node advertises both vendors' GPUs |
| `Availability.Accounting` | internal/gpu/offering.go:374-421 | the code's account is the node-by-node reference plus exactly the requests it forgets on dual-vendor nodes |
| `Availability.SummaryMeaning` | internal/gpu/offering.go:374-421 | found if and only if some node that is not cordoned and not reported unready carries the labels and advertises a GPU of either vendor |
| `Availability.FirstMeans` | internal/gpu/offering.go:374-397 | resource and vendor are those of the first usable node with the labels and a GPU, NVIDIA before AMD |
| `Availability.AffordsMeans` | internal/controller/workspaces/workspacedeployment_controller.go:492-498 | enough is free exactly when allocatable minus live requests on usable nodes with the labels, plus what the code forgets, covers the demand |
| `Availability.RequestedIsAsked` | internal/gpu/offering.go:398-413 | a pod's use is the sum over all its containers |
| `Availability.CountUsed` | internal/gpu/offering.go:398-413 | the pod loop sums requests on matched nodes |
| `Nodes.MatchIsPlaceable` | internal/gpu/offering.go:360-367 | matching implies carrying the labels exactly for selectors without empty values |
| `SelectorKey.Serialize` | internal/controller/workspaces/workspacedeployment_controller.go:602-616 | whatever the map iteration order, the result is the selector's one key |
| `SelectorKey.KeyInjective` | internal/gpu/offering.go:169-186 | on label syntax, equal keys if and only if equal selectors |
| `SelectorKey.KeyAmbiguous` | internal/gpu/offering.go:169-186 | two selectors outside label syntax with one key |
| `SelectorKey.SingleKeyInjective` | internal/gpu/offering.go:169-186 | single-entry keys are recoverable from names without an equals sign |
| `SelectorKey.KeyPair` | internal/controller/workspaces/workspacedeployment_controller.go:602-616 | the key of two entries is `k=v;` for each, in the byte order of their names |
| `Injection.GatedIsPlaced` | internal/controller/workspaces/workspacedeployment_controller.go:245-257 | for every class, override, value tree and injection map, `_exalsius.scheduling.nodeSelector` holds exactly the selector the gate evaluated, and nodes the gate counted carry it when no value is empty |
| `Injection.InjectionTheorem` | internal/controller/workspaces/inject.go:270-384 | for incomparable declared paths outside _exalsius: declared and standard paths hold their values, other lookups are unchanged, warnings are exactly unparsable paths and replaced non-nil leaves |
| `Injection.NumbersStand` | internal/controller/workspaces/inject.go:295-345 | for such paths: replicas and gpuCount stand at `_exalsius.resources.replicas` and `_exalsius.resources.perReplica.gpuCount` and at every parsed path declared for them; unset ones leave their path as it was |
| `Injection.QuantitiesStand` | internal/controller/workspaces/inject.go:298-337 | likewise cpu, memory and storage, each at its own path and at the paths declared for it |
| `Injection.GpuStands` | internal/controller/workspaces/inject.go:310-337 | likewise gpuVendor and gpuType |
| `Injection.SectionStands` | internal/controller/workspaces/inject.go:321-337 | likewise `_exalsius.resources.perReplica` is an object afterwards, whatever was asked for and whatever the values held there |
| `Injection.WarningsAreEarned` | internal/controller/workspaces/inject.go:355-383 | each warning is earned by a declared path of a set field that does not parse or held a value other than null, and each such path gets its warning |
| `Injection.RequestsWhatIsThere` | internal/controller/workspaces/workspacedeployment_controller.go:634-657 | `_exalsius.resources.perReplica.gpuResourceName` is the resource of the first node that provides the selector, and an unset vendor becomes that node's |
| `Injection.RequestsByVendor` | internal/controller/workspaces/workspacedeployment_controller.go:634-657 | without such a node or listing it is that of the vendor the request names, and the request stays |
| `Injection.UserValuesWin` | internal/controller/workspaces/merge.go:61-81 | outside `_exalsius` and the declared paths, each top-level key is the user's where set, else the class's |
| `Injection.WritesFrame` | internal/controller/workspaces/inject.go:180-203 | writes leave every incomparable path alone |
| `Injection.WriteStands` | internal/controller/workspaces/inject.go:180-203 | a write stands unless a later one is comparable |
| `Injection.DeclaredCovers` | internal/controller/workspaces/inject.go:355-383 | every declared path of a set field is written |
| `Injection.InjectResources` | internal/controller/workspaces/inject.go:270-384 | standard section, then declared paths, with the warnings in order, as `InjectionTheorem` and the lemmas below it describe |
| `Injection.ComposeValues` | internal/controller/workspaces/workspacedeployment_controller.go:231-257 | merge, inject, selector, resource name |
| `Injection.ResolveGpuResource` | internal/controller/workspaces/workspacedeployment_controller.go:634-657 | vendor and resource from the live nodes, else from the vendor |
| `ValueTree.SetNestedValue` | internal/controller/workspaces/inject.go:180-203 | the nested write, nothing for an empty path, reporting only the leaf it replaced |
| `ValueTree.GetPut` | internal/controller/workspaces/inject.go:180-203 | a written path reads back its value |
| `ValueTree.GetPutOther` | internal/controller/workspaces/inject.go:180-203 | an incomparable path reads as before |
| `ValueTree.ReportIsLeafOnly` | internal/controller/workspaces/inject.go:173-203 | the report covers replaced intermediates if and only if none is destroyed |
| `ValueTree.DestroyedUnreported` | internal/controller/workspaces/inject.go:190-197 | a destroyed intermediate that is not reported |
| `InjectionPath.ParsePath` | internal/controller/workspaces/inject.go:85-171 | accepts exactly the strings of the path grammar and returns their names; the two exits after the loop are unreachable |
| `InjectionPath.RoundTrip` | internal/controller/workspaces/inject.go:85-171 | every non-empty list of non-empty names without both quotes prints to a path that parses back to it |
| `InjectionPath.OnlySpellable` | internal/controller/workspaces/inject.go:85-171 | whatever is accepted has only such names, so none is empty |
| `InjectionPath.Unambiguous` | internal/controller/workspaces/inject.go:85-171 | a string has at most one reading |
| `InjectionPath.ScanIsGrammar` | internal/controller/workspaces/inject.go:85-171 | the reference recognizer is the grammar, both ways |
| `InjectionPath.DottedPath` | internal/controller/workspaces/inject.go:75-84 | two bare names with a dot between them are a path of those two |
| `InjectionPath.BracketedPath` | internal/controller/workspaces/inject.go:72-84 | a key in brackets and either quotes, after a name with or without a dot, may hold anything but its own quote |
| `InjectionPath.DotsSeparate` | internal/controller/workspaces/inject.go:82-84 | nothing empty, and nothing that begins or ends with a dot, is a path |
| `Resources.ClassCannotPinGpu` | internal/controller/workspaces/merge.go:18-55 | the GPU selector comes from the user alone |
| `Resources.MergedFields` | internal/controller/workspaces/merge.go:18-55 | field by field: the user's where set, the class's otherwise; type and node selector are the user's or none |
| `Resources.DemandCoversReplicas` | internal/controller/workspaces/workspacedeployment_controller.go:669-679 | the demand is n times g: replicas of the user, else the class, else 1; GPUs per replica likewise, else 0 |
| `Resources.SelectorMeans` | internal/controller/workspaces/workspacedeployment_controller.go:519-521 | label by label: the raw entries, and the model under its canonical label unless a raw entry takes that label |

## Left out

- Client construction, kubeconfigs, watches, requeue intervals, logging and event transport: their outcomes are inputs; an abandon event is the milestone `RoutesAbandoned` or `NamespaceAbandoned`.
- Concurrency between passes: reconciles are serial steps, as the controller sets no concurrency. The route sweeper runs beside it: its two calls on a namespace interleave with whole ensure and cleanup passes, not with the single calls inside one. A cached listing that lags behind the store is not modelled.
- Object names: ServiceSets, namespaces and prerequisite ServiceSets are keyed by workspace or template, that is, `prefix-cluster-name` concatenations and their hash-bounded forms are taken to be distinct.
- LifecycleRuns.StepKeepsInv: a workspace's cluster reference is fixed, nobody else writes its status or finalizers, and only an existing ServiceSet brings a namespace back once deletion is requested.
- PortPoolRuns.StepKeepsInv: others do not re-attach an operator's route or move it to another workspace; listener names are non-empty.
- PortPool.RegionalCluster.EnsureRoutes: HTTPRoutes, mirror Services, tenant domains and waypoints are answers, not objects.
- Prerequisites.PrerequisiteStore.EnsureServiceSet: Helm options, timeouts and values of a prerequisite install are not part of the stored object, and no one else creates it between the read and the create.
- Prerequisites.EvaluatePrerequisites: failure messages are not modelled, so neither is the search for the conflicting message.
- Reconciler.WorkspaceRecord.Reconcile: conditions, messages, events, `status.prerequisites`, `status.access` and the feasibility report are not part of the status; the failure context keeps phase and reason, not the ServiceSet snapshot and recent events.
- Reconciler.WorkspaceRecord.CleanupRoutes: what the provider removes is an answer here; `RouteTeardown` ties it to the route table.
- ValueTree.SetNestedValue: Go updates the nested maps in place; decoded values are trees without sharing, so the writer works on values and rebuilds the spine.
- JSON: values and configurations start decoded; a document that does not decode is an input answer, and a JSON null document is not distinguished from an empty one.
- Integers are unbounded: totals, requests and demands are taken to fit their 64 and 32 bit types; quantities other than GPU counts are their canonical strings.
- Strings are sequences of characters where Go compares bytes; the orders agree on ASCII, which label keys and UIDs are.
- SelectorKey.KeyInjective: outside label syntax keys can collide, as `KeyAmbiguous` shows; an exact description of all collisions is not given.
- Offerings.DeriveOfferings: the order of offerings equal in model and resource name is left open, as the source's sort does.
- ManagedUpdate.RunIsSerial: EnsureClusterDeployment's create path, owner references and back-off times are not modelled.
- `computeFeasibility`: reported only, never gates.
- Any claim that GPUs are not oversubscribed: the gate reserves nothing, so none holds.
- Colony status, kubeconfig mirroring, the Cilium ConfigMap, PVC deletion, preflight retry, WorkspaceClass validation and the route sweeper's ticker are not part of this model.
