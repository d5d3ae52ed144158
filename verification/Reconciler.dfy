/** The workspace reconciler as it runs: stage by stage, updating the stored
    objects in place. */
module Reconciler {
  import opened Text
  import opened Labels
  import opened Availability
  import opened Resources
  import opened Injection
  import opened Workspaces
  import opened Lifecycle
  import opened Deletion
  import LifecycleRuns
  import Prerequisites

  // ---- stages that only decide ----------------------------------------------

  /** `gateGPUOffering`: each question is asked only when the one before it did
      not settle the matter. */
  method GateGpuOffering(ws: Workspace, st: Status, c: Class, all: seq<Workspace>, g: GateAnswers,
                         ghost f: Facts) returns (stage: Stage)
    requires GateFacts(ws, c, all, f, g)
    ensures stage == Gate(st, f, g)
  {
    var resolved := MergeResources(c.defaults, ws.resources);
    var selector := GpuSelectorOf(resolved);
    if |selector| == 0 {
      return Continue;
    }
    if !g.child || g.nodes.None? || g.pods.None? {
      return End(st.(phase := Pending), true);
    }
    var avail := AvailabilityForSelector(g.nodes.value, g.pods.value, selector);
    if !avail.found {
      return End(MarkFailed(st, GpuOfferingUnavailable), true);
    }
    var demand := GpuDemand(resolved);
    if demand > 0 && avail.free < demand {
      return End(EnterWaiting(st, resolved), true);
    }
    if !g.listed {
      return End(st, false);
    }
    var older := HasOlderWaitingSibling(all, ws, selector);
    if older {
      return End(EnterWaiting(st, resolved), true);
    }
    return Continue;
  }

  /** `reconcilePrerequisites`: evaluates, installs what is missing, decides. */
  method ReconcilePrerequisites(st: Status, c: Class, p: PrereqAnswers, store: Prerequisites.PrerequisiteStore,
                                ghost f: Facts)
      returns (stage: Stage)
    requires PrereqFacts(c, f, p) && store.sets == p.sets
    modifies store
    ensures stage == PrereqStage(st, f) && store.sets == f.store
  {
    if |c.prerequisites| == 0 {
      return Continue;
    }
    var outcome, installed := store.Reconcile(p.cluster, p.unreadable, c.prerequisites, p.no);
    if outcome.EvaluationError? {
      return End(st, false);
    }
    match outcome.verdict
    case Invalid => return End(MarkFailed(st, InvalidPrerequisite), true);
    case SomeConflict => return End(MarkFailed(st, PrerequisiteNamespaceConflict), true);
    case SomeFailed => return End(MarkFailed(st, PrerequisitesNotReady), true);
    case SomeMissing =>
      if !installed {
        return End(st, false);
      }
      return End(st.(phase := InstallingPrerequisites), true);
    case SomeInstalling => return End(st.(phase := InstallingPrerequisites), true);
    case AllSatisfied => return Continue;
  }

  /** The loop of `checkServiceReadiness` over the reported services. */
  method FindOutcome(reports: seq<Report>, entry: string) returns (state: Prerequisites.State)
    ensures state == Outcome(reports, entry)
  {
    for i := 0 to |reports|
      invariant Outcome(reports, entry) == Outcome(reports[i..], entry)
    {
      if reports[i].name != entry {
        continue;
      }
      if reports[i].state != Prerequisites.Unsettled {
        return reports[i].state;
      }
    }
    return Prerequisites.Unsettled;
  }

  // ---- the stored objects ---------------------------------------------------

  /** One workspace and the objects the operator keeps for it. */
  class WorkspaceRecord {
    var ws: Workspace
    var serviceSet: Option<ServiceSet>
    var namespace: Option<Namespace>
    var routes: bool

    ghost function View(): Local
      reads this
    {
      Local(ws, serviceSet, namespace, routes)
    }

    constructor (l: Local)
      ensures View() == l
    {
      ws, serviceSet, namespace, routes := l.ws, l.serviceSet, l.namespace, l.routes;
    }

    /** A status write, which may fail. */
    method StoreStatus(st: Status, succeeds: bool)
      modifies this`ws
      ensures ws == if succeeds then old(ws).(status := st) else old(ws)
    {
      if succeeds {
        ws := ws.(status := st);
      }
    }

    /** `ensureWorkspaceNamespace`. */
    method EnsureWorkspaceNamespace(desired: map<string, string>, readable: bool,
                                    write: Creation) returns (ready: Readiness)
      modifies this`namespace
      ensures (namespace, ready) == EnsureNamespace(old(namespace), desired, readable, write)
    {
      if !readable {
        return Trouble;
      }
      if namespace.None? {
        match write {
          case Refused => return Trouble;
          case AlreadyExists => return NotYet;
          case Written =>
            namespace := Some(Namespace(desired, false));
            return Ready;
        }
      }
      if namespace.value.terminating {
        return NotYet;
      }
      var healed, changed := ApplyMissingLabels(namespace.value.labels, desired);
      if changed {
        if write.Refused? {
          return Trouble;
        }
        namespace := Some(namespace.value.(labels := healed));
      }
      return Ready;
    }

    /** `ensureWorkspaceServiceSet`. */
    method EnsureWorkspaceServiceSet(release: Release, readable: bool, writable: bool) returns (ok: bool)
      modifies this`serviceSet
      ensures (serviceSet, ok) == EnsureServiceSet(old(serviceSet), release, ws.uid, readable, writable)
    {
      if !readable || !writable {
        return false;
      }
      if serviceSet.Some? {
        serviceSet := Some(serviceSet.value.(release := release));
      } else {
        serviceSet := Some(ServiceSet(release, Some(ws.uid), [], false, false));
      }
      return true;
    }

    /** Namespace first, then the ServiceSet. */
    method InstallWorkspace(st: Status, release: Release, s: StartAnswers, stored: bool) returns (wrote: bool)
      modifies this
      ensures View() == Settle(old(View()), Install(old(View()), st, release, s), stored)
      ensures wrote == Install(old(View()), st, release, s).wrote
    {
      wrote := false;
      var ready := EnsureWorkspaceNamespace(DesiredLabels(ws, s.mesh), s.namespaceReads, s.namespaceWrite);
      match ready
      case Trouble => return;
      case NotYet => StoreStatus(st.(phase := Pending), stored);
      case Ready =>
        wrote := EnsureWorkspaceServiceSet(release, s.serviceSetReads, s.serviceSetWrites);
        StoreStatus(if wrote then st.(phase := Deploying, failure := None) else MarkFailed(st, InternalError), stored);
    }

    /** `startDeployment`. */
    method StartDeployment(c: Class, s: StartAnswers, stored: bool, ghost f: Facts) returns (wrote: bool)
      requires StartFacts(ws, c, f, s.nodes)
      modifies this
      ensures View() == Settle(old(View()), Start(old(View()), old(ws.status), f, s), stored)
      ensures wrote == Start(old(View()), old(ws.status), f, s).wrote
    {
      wrote := false;
      var st := ws.status;
      var merged := MergeResources(c.defaults, ws.resources);
      if !s.child {
        StoreStatus(st.(resolved := Some(merged), phase := Pending), stored);
        return;
      }
      var resolved, _ := ResolveGpuResource(merged, s.nodes);
      st := st.(resolved := Some(resolved));
      if !s.merges || !s.serializes {
        StoreStatus(MarkFailed(st, InternalError), stored);
        return;
      }
      var values, _ := ComposeValues(c.values, ws.values, merged, c.injection, s.nodes);
      wrote := InstallWorkspace(st, ReleaseOf(ws, c, values), s, stored);
    }

    /** `checkServiceReadiness`. */
    method CheckServiceReadiness(readable: bool, refetches: bool, stored: bool)
      modifies this`ws
      ensures View() == Settle(old(View()), CheckReadiness(old(View()), old(ws.status), readable, refetches), stored)
    {
      if !readable || serviceSet.None? || !refetches {
        return;
      }
      var state := FindOutcome(serviceSet.value.reports, ws.entry);
      match state
      case Deployed => StoreStatus(ws.status.(phase := Running, failure := None), stored);
      case Broken => StoreStatus(MarkFailed(ws.status, HelmReleaseFailed), stored);
      case Unsettled =>
    }

    // ---- deletion -----------------------------------------------------------

    /** `cleanupRoutes`. */
    method CleanupRoutes(c: RouteCleanup, expired: bool) returns (op: Option<Op>)
      modifies this`routes
      ensures (routes, op) == RoutesStage(old(routes), c, expired)
    {
      match c
      case NoProvider => return Some(RoutesSkipped);
      case Skipped => return Some(RoutesSkipped);
      case Cleaned =>
        routes := false;
        return Some(RoutesCleaned);
      case CleanupFailed(left) =>
        routes := routes && left;
        return if expired then Some(RoutesAbandoned) else None;
    }

    /** `forceDeleteWorkspaceServiceSet`. */
    method ForceDeleteServiceSet(a: DeleteAnswers) returns (op: Option<Op>)
      modifies this`serviceSet
      ensures (serviceSet, op) == ForceStage(old(serviceSet), a)
    {
      if !a.serviceSetReads {
        return None;
      }
      if serviceSet.None? {
        return Some(ServiceSetForced);
      }
      var ss := serviceSet.value;
      if !ss.terminating {
        if !a.serviceSetDeletes {
          return None;
        }
        serviceSet := Delete(ss);
      }
      if ss.finalizers {
        if !a.finalizersClear {
          return None;
        }
        serviceSet := None;
      }
      return Some(ServiceSetForced);
    }

    /** `ensureWorkspaceServiceSetDeleted`. */
    method EnsureServiceSetDeleted(a: DeleteAnswers) returns (op: Option<Op>)
      modifies this`serviceSet
      ensures (serviceSet, op) == DrainStage(old(serviceSet), a)
    {
      if !a.serviceSetReads {
        return None;
      }
      if serviceSet.None? {
        return Some(ServiceSetGone);
      }
      if !serviceSet.value.terminating {
        if !a.serviceSetDeletes {
          return None;
        }
        serviceSet := Delete(serviceSet.value);
      }
      if a.serviceSetRereads && serviceSet.None? {
        return Some(ServiceSetGone);
      }
      return None;
    }

    /** `cleanupWorkspaceNamespace` with `deleteWorkspaceNamespace`. */
    method CleanupNamespace(a: DeleteAnswers, expired: bool) returns (op: Option<Op>)
      modifies this`namespace
      ensures (namespace, op) == NamespaceStage(old(namespace), a, expired)
    {
      if a.child && a.namespaceReads {
        if namespace.None? || namespace.value.terminating {
          return Some(NamespaceDeleted);
        }
        if a.namespaceDeletes {
          namespace := Some(namespace.value.(terminating := true));
          return Some(NamespaceDeleted);
        }
      }
      return if expired then Some(NamespaceAbandoned) else None;
    }

    /** The ServiceSet step: wait for it, or force it when there is no cluster. */
    method RemoveServiceSet(a: DeleteAnswers) returns (op: Option<Op>)
      modifies this`serviceSet
      ensures (serviceSet, op) == ServiceSetStage(old(serviceSet), a)
    {
      if ClusterGone(a) {
        op := ForceDeleteServiceSet(a);
      } else {
        op := EnsureServiceSetDeleted(a);
      }
    }

    /** The namespace step, skipped when there is no cluster. */
    method RemoveNamespace(a: DeleteAnswers, expired: bool) returns (op: Option<Op>)
      modifies this`namespace
      ensures (namespace, op) ==
        if ClusterGone(a) then (old(namespace), Some(NamespaceSkipped)) else NamespaceStage(old(namespace), a, expired)
    {
      if ClusterGone(a) {
        op := Some(NamespaceSkipped);
      } else {
        op := CleanupNamespace(a, expired);
      }
    }

    /** `reconcileDelete`. */
    method ReconcileDelete(a: DeleteAnswers, now: int) returns (ops: seq<Op>)
      modifies this
      ensures Teardown(View(), ops) == DeletePass(old(View()), a, now)
    {
      ops := [];
      if !ws.finalizer {
        return;
      }
      StoreStatus(ws.status.(phase := Deleting), a.statusWrites);
      var expired := Expired(ws, now);
      ghost var l := View();
      assert l == MarkDeleting(old(View()), a.statusWrites) && expired == Expired(old(ws), now);
      ops := TearDown(a, expired);
    }

    /** The four steps of a teardown. */
    method TearDown(a: DeleteAnswers, expired: bool) returns (ops: seq<Op>)
      modifies this
      ensures Teardown(View(), ops) ==
        InOrder(old(View()), RoutesStage(old(routes), a.cleanup, expired), ServiceSetStage(old(serviceSet), a),
                if ClusterGone(a) then (old(namespace), Some(NamespaceSkipped))
                    else NamespaceStage(old(namespace), a, expired), a)
    {
      var r := CleanupRoutes(a.cleanup, expired);
      if r.None? {
        return [];
      }
      if a.cluster.Unavailable? {
        return [r.value];
      }
      var s := RemoveServiceSet(a);
      if s.None? {
        return [r.value];
      }
      var n := RemoveNamespace(a, expired);
      if n.None? {
        return [r.value, s.value];
      }
      if !a.finalizerWrites {
        return [r.value, s.value, n.value];
      }
      ws := ws.(finalizer := false);
      return [r.value, s.value, n.value, FinalizerRemoved];
    }

    // ---- one pass -----------------------------------------------------------

    /** Cluster, feasibility, gate and prerequisites, in order. */
    method Check(c: Class, all: seq<Workspace>, a: Answers, store: Prerequisites.PrerequisiteStore,
                 ghost f: Facts) returns (stage: Stage)
      requires GateFacts(ws, c, all, f, a.gate) && PrereqFacts(c, f, a.prereqs) && store.sets == a.prereqs.sets
      modifies store
      ensures store.sets == if ReachesPrereqs(ws.status, Gate(ws.status, f, a.gate), a) then f.store else a.prereqs.sets
      ensures stage == Checks(ws.status, Gate(ws.status, f, a.gate), PrereqStage(ws.status, f), a)
    {
      var st := ws.status;
      if st.phase != Running {
        if a.cluster.NotFound? {
          return End(st.(phase := Pending), true);
        }
        if a.cluster.Unavailable? {
          return End(st, false);
        }
      }
      if Watched(st.phase) && !a.feasible {
        return End(st, false);
      }
      if Gated(st.phase) {
        var gate := GateGpuOffering(ws, st, c, all, a.gate, f);
        if gate.End? {
          return gate;
        }
      }
      stage := ReconcilePrerequisites(st, c, a.prereqs, store, f);
    }

    /** Deploying polls, Running ensures routes, Failed stops. */
    method Tend(a: Answers)
      requires !Gated(ws.status.phase)
      modifies this
      ensures View() == Tended(old(View()), a)
    {
      match ws.status.phase
      case Deploying => CheckServiceReadiness(a.serviceSetReads, a.refetches, a.statusWrites);
      case Running => routes := routes || a.routed;
      case _ =>
    }

    /** What remains once the checks are passed. */
    method Advance(c: Class, a: Answers, ghost f: Facts) returns (wrote: bool)
      requires StartFacts(ws, c, f, a.start.nodes)
      modifies this
      ensures (View(), wrote) == Advanced(old(View()), f, a)
    {
      if Gated(ws.status.phase) {
        wrote := StartDeployment(c, a.start, a.statusWrites, f);
      } else {
        Tend(a);
        wrote := false;
      }
    }

    /** The stages once the class is resolved. */
    method ReconcileStages(c: Class, all: seq<Workspace>, a: Answers, store: Prerequisites.PrerequisiteStore,
                           ghost f: Facts)
        returns (wrote: bool)
      requires GateFacts(ws, c, all, f, a.gate) && PrereqFacts(c, f, a.prereqs) && StartFacts(ws, c, f, a.start.nodes)
      requires store.sets == a.prereqs.sets
      modifies this, store
      ensures store.sets ==
        if ReachesPrereqs(old(ws.status), Gate(old(ws.status), f, a.gate), a) then f.store else a.prereqs.sets
      ensures View() == Settle(old(View()), Stages(old(View()), f, a), a.statusWrites)
      ensures wrote == Stages(old(View()), f, a).wrote
    {
      ghost var l := View();
      var stage := Check(c, all, a, store, f);
      wrote := Conclude(stage, c, a, f);
      StagesMean(l, f, a, stage, View(), wrote);
    }

    /** Stores the status the checks ended with, or goes on. */
    method Conclude(stage: Stage, c: Class, a: Answers, ghost f: Facts) returns (wrote: bool)
      requires StartFacts(ws, c, f, a.start.nodes)
      modifies this
      ensures (View(), wrote) ==
        if stage.End? then (Settle(old(View()), Ends(old(View()), stage.status, stage.write), a.statusWrites), false)
        else Advanced(old(View()), f, a)
    {
      if stage.End? {
        StoreStatus(stage.status, stage.write && a.statusWrites);
        return false;
      }
      wrote := Advance(c, a, f);
    }

    /** `Reconcile`. */
    method Reconcile(all: seq<Workspace>, a: Answers, d: DeleteAnswers, now: int,
                     store: Prerequisites.PrerequisiteStore, ghost f: Facts)
        returns (wrote: bool, ops: seq<Op>)
      requires Honest(ws, all, f, a) && store.sets == a.prereqs.sets
      modifies this, store
      ensures store.sets ==
        if LifecycleRuns.LiveVisit(old(View())) && (old(ws.finalizer) || a.finalizerWrites)
            && Installs(old(ws.status), f, a)
        then f.store else a.prereqs.sets
      ensures LifecycleRuns.Faithful(old(View()), LifecycleRuns.Visit(all, f, a, d, View(), ops, wrote), now)
    {
      wrote, ops := false, [];
      if ws.suspended {
        return;
      }
      if ws.deletedAt.Some? {
        ops := ReconcileDelete(d, now);
        return;
      }
      wrote := ReconcileActive(all, a, store, f);
    }

    /** Neither suspended nor being deleted: the finalizer comes first. */
    method ReconcileActive(all: seq<Workspace>, a: Answers, store: Prerequisites.PrerequisiteStore,
                           ghost f: Facts) returns (wrote: bool)
      requires Honest(ws, all, f, a) && store.sets == a.prereqs.sets
      modifies this, store
      ensures store.sets ==
        if (old(ws.finalizer) || a.finalizerWrites) && Installs(old(ws.status), f, a) then f.store else a.prereqs.sets
      ensures View() == LivePass(old(View()), f, a)
      ensures wrote == ((old(ws.finalizer) || a.finalizerWrites) && Live(WithFinalizer(old(View())), f, a).wrote)
    {
      if !ws.finalizer && !a.finalizerWrites {
        return false;
      }
      FinalizerIrrelevant(ws, all, f, a);
      ws := ws.(finalizer := true);
      wrote := ReconcileLive(all, a, store, f);
    }

    /** Past the finalizer: the class, then the stages. */
    method ReconcileLive(all: seq<Workspace>, a: Answers, store: Prerequisites.PrerequisiteStore,
                         ghost f: Facts) returns (wrote: bool)
      requires Honest(ws, all, f, a) && store.sets == a.prereqs.sets
      modifies this, store
      ensures store.sets == if Installs(old(ws.status), f, a) then f.store else a.prereqs.sets
      ensures View() == Settle(old(View()), Live(old(View()), f, a), a.statusWrites)
      ensures wrote == Live(old(View()), f, a).wrote
    {
      wrote := false;
      match a.class_
      case NotFound => StoreStatus(MarkFailed(ws.status, ClassNotFound), a.statusWrites);
      case Unavailable =>
      case Got(c) => wrote := ReconcileStages(c, all, a, store, f);
    }
  }

  /** The pass reaches the prerequisites. */
  predicate Installs(st: Status, f: Facts, a: Answers) {
    a.class_.Got? && ReachesPrereqs(st, Gate(st, f, a.gate), a)
  }

  /** What the phases past the gate do to a workspace. */
  function Tended(l: Local, a: Answers): Local {
    match l.ws.status.phase
    case Deploying => Settle(l, CheckReadiness(l, l.ws.status, a.serviceSetReads, a.refetches), a.statusWrites)
    case Running => l.(routes := l.routes || a.routed)
    case _ => l
  }

  /** What `Advance` does to one workspace. */
  function Advanced(l: Local, f: Facts, a: Answers): (Local, bool) {
    if Gated(l.ws.status.phase) then
      var p := Start(l, l.ws.status, f, a.start);
      (Settle(l, p, a.statusWrites), p.wrote)
    else (Tended(l, a), false)
  }

  /** Checks first, then the rest, is the order of the stages. */
  lemma StagesMean(l: Local, f: Facts, a: Answers, stage: Stage, l': Local, wrote: bool)
    requires stage == Checks(l.ws.status, Gate(l.ws.status, f, a.gate), PrereqStage(l.ws.status, f), a)
    requires (l', wrote) ==
      if stage.End? then (Settle(l, Ends(l, stage.status, stage.write), a.statusWrites), false) else Advanced(l, f, a)
    ensures l' == Settle(l, Stages(l, f, a), a.statusWrites) && wrote == Stages(l, f, a).wrote
  {
    DispatchMeans(l, f, a);
  }

  lemma DispatchMeans(l: Local, f: Facts, a: Answers)
    ensures var p := Dispatch(l, CheckReadiness(l, l.ws.status, a.serviceSetReads, a.refetches), Start(l,
        l.ws.status, f, a.start), a);
            Advanced(l, f, a) == (Settle(l, p, a.statusWrites), p.wrote)
  {
  }
}
