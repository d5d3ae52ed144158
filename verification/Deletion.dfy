/** The deletion protocol: routes, then the ServiceSet, then the namespace, then
    the finalizer, with force and abandon paths. */
module Deletion {
  import opened Text
  import opened Workspaces

  /** Seconds a remote cleanup step is retried before it is abandoned. */
  const GRACE := 600

  /** What the routing provider says. `Skipped`: it found no cluster or regional
      parent to clean. A failed cleanup may still have removed the routes. */
  datatype RouteCleanup = NoProvider | Cleaned | Skipped | CleanupFailed(routesLeft: bool)

  datatype DeleteAnswers = DeleteAnswers(
    statusWrites: bool, cleanup: RouteCleanup, cluster: Fetch<bool>,
    serviceSetReads: bool, serviceSetDeletes: bool, finalizersClear: bool, serviceSetRereads: bool,
    child: bool, namespaceReads: bool, namespaceDeletes: bool, finalizerWrites: bool)

  /** The milestones of one pass, in order. */
  datatype Op =
    | RoutesCleaned | RoutesSkipped | RoutesAbandoned
    | ServiceSetForced | ServiceSetGone
    | NamespaceDeleted | NamespaceSkipped | NamespaceAbandoned
    | FinalizerRemoved

  datatype Teardown = Teardown(local: Local, ops: seq<Op>)

  /** `remoteCleanupGraceExpired`. */
  predicate Expired(ws: Workspace, now: int) {
    ws.deletedAt.Some? && now - ws.deletedAt.value > GRACE
  }

  /** `cleanupRoutes`: the routes left, and the milestone if it is done. */
  function RoutesStage(routes: bool, c: RouteCleanup, expired: bool): (bool, Option<Op>) {
    match c
    case NoProvider => (routes, Some(RoutesSkipped))
    case Cleaned => (false, Some(RoutesCleaned))
    case Skipped => (routes, Some(RoutesSkipped))
    case CleanupFailed(left) => (routes && left, if expired then Some(RoutesAbandoned) else None)
  }

  /** Deleting an object without finalizers removes it; otherwise it is marked. */
  function Delete(ss: ServiceSet): Option<ServiceSet> {
    if ss.finalizers then Some(ss.(terminating := true)) else None
  }

  /** `forceDeleteWorkspaceServiceSet`: clearing the finalizers of a marked object
      removes it. No milestone when a call failed. */
  function ForceStage(ss: Option<ServiceSet>, a: DeleteAnswers): (Option<ServiceSet>, Option<Op>) {
    if !a.serviceSetReads then (ss, None)
    else if ss.None? then (None, Some(ServiceSetForced))
    else if !ss.value.terminating && !a.serviceSetDeletes then (ss, None)
    else
      var marked := if ss.value.terminating then ss else Delete(ss.value);
      if ss.value.finalizers && !a.finalizersClear then (marked, None)
      else (if ss.value.finalizers then None else marked, Some(ServiceSetForced))
  }

  /** `ensureWorkspaceServiceSetDeleted`: done only once it is gone. */
  function DrainStage(ss: Option<ServiceSet>, a: DeleteAnswers): (Option<ServiceSet>, Option<Op>) {
    if !a.serviceSetReads then (ss, None)
    else if ss.None? then (None, Some(ServiceSetGone))
    else if !ss.value.terminating && !a.serviceSetDeletes then (ss, None)
    else
      var ss' := if ss.value.terminating then ss else Delete(ss.value);
      (ss', if a.serviceSetRereads && ss'.None? then Some(ServiceSetGone) else None)
  }

  /** `cleanupWorkspaceNamespace`. */
  function NamespaceStage(ns: Option<Namespace>, a: DeleteAnswers, expired: bool): (Option<Namespace>, Option<Op>) {
    var abandon := if expired then Some(NamespaceAbandoned) else None;
    if !a.child || !a.namespaceReads then (ns, abandon)
    else if ns.None? || ns.value.terminating then (ns, Some(NamespaceDeleted))
    else if !a.namespaceDeletes then (ns, abandon)
    else (Some(ns.value.(terminating := true)), Some(NamespaceDeleted))
  }

  predicate ClusterGone(a: DeleteAnswers) {
    a.cluster.NotFound? || (a.cluster.Got? && a.cluster.item)
  }

  /** Wait for the uninstall, unless there is no cluster left to run it. */
  function ServiceSetStage(ss: Option<ServiceSet>, a: DeleteAnswers): (Option<ServiceSet>, Option<Op>) {
    if ClusterGone(a) then ForceStage(ss, a) else DrainStage(ss, a)
  }

  function MarkDeleting(l: Local, stored: bool): Local {
    if stored then l.(ws := l.ws.(status := l.ws.status.(phase := Deleting))) else l
  }

  /** The order of the steps: each one waits for the milestone before it. */
  function InOrder(l: Local, routes: (bool, Option<Op>), ss: (Option<ServiceSet>, Option<Op>),
                   ns: (Option<Namespace>, Option<Op>),
                   a: DeleteAnswers): Teardown {
    var l1 := l.(routes := routes.0);
    if routes.1.None? then Teardown(l1, [])
    else if a.cluster.Unavailable? then Teardown(l1, [routes.1.value])
    else
      var l2 := l1.(serviceSet := ss.0);
      if ss.1.None? then Teardown(l2, [routes.1.value])
      else
        var l3 := l2.(namespace := ns.0);
        if ns.1.None? then Teardown(l3, [routes.1.value, ss.1.value])
        else if !a.finalizerWrites then Teardown(l3, [routes.1.value, ss.1.value, ns.1.value])
        else Teardown(l3.(ws := l3.ws.(finalizer := false)), [routes.1.value, ss.1.value, ns.1.value, FinalizerRemoved])
  }

  /** `reconcileDelete`. */
  function DeletePass(l0: Local, a: DeleteAnswers, now: int): Teardown {
    if !l0.ws.finalizer then Teardown(l0, [])
    else
      var l, expired := MarkDeleting(l0, a.statusWrites), Expired(l0.ws, now);
      InOrder(l, RoutesStage(l.routes, a.cleanup, expired), ServiceSetStage(l.serviceSet, a),
              if ClusterGone(a) then (l.namespace, Some(NamespaceSkipped))
                  else NamespaceStage(l.namespace, a, expired), a)
  }

  // ---- what a pass guarantees -----------------------------------------------

  /** What each milestone says about what is left. */
  predicate RoutesTruth(op: Op, routes: bool, a: DeleteAnswers, expired: bool) {
    match op
    case RoutesCleaned => !routes && a.cleanup.Cleaned?
    case RoutesSkipped => a.cleanup.NoProvider? || a.cleanup.Skipped?
    case RoutesAbandoned => expired && a.cleanup.CleanupFailed?
    case _ => false
  }

  predicate ServiceSetTruth(op: Op, ss: Option<ServiceSet>, a: DeleteAnswers) {
    ss.None? && op == if ClusterGone(a) then ServiceSetForced else ServiceSetGone
  }

  predicate NamespaceTruth(op: Op, ns: Option<Namespace>, a: DeleteAnswers, expired: bool) {
    match op
    case NamespaceDeleted => ns.Some? ==> ns.value.terminating
    case NamespaceSkipped => ClusterGone(a)
    case NamespaceAbandoned => expired
    case _ => false
  }

  /** The milestones come in order, and each is true of what the pass leaves. */
  ghost predicate Truthful(t: Teardown, a: DeleteAnswers, expired: bool) {
    && |t.ops| <= 4
    && (|t.ops| > 0 ==> RoutesTruth(t.ops[0], t.local.routes, a, expired))
    && (|t.ops| > 1 ==> ServiceSetTruth(t.ops[1], t.local.serviceSet, a))
    && (|t.ops| > 2 ==> NamespaceTruth(t.ops[2], t.local.namespace, a, expired))
    && (|t.ops| > 3 ==> t.ops[3] == FinalizerRemoved)
  }

  lemma StagesHold(l: Local, a: DeleteAnswers, expired: bool)
    ensures var (routes, r) := RoutesStage(l.routes, a.cleanup, expired);
            (routes ==> l.routes) && (r.Some? ==> RoutesTruth(r.value, routes, a, expired))
    ensures var (ss, s) := ServiceSetStage(l.serviceSet, a);
            (ss.Some? ==> l.serviceSet.Some?) && (s.Some? ==> ServiceSetTruth(s.value, ss, a))
    ensures var (ns, n) := NamespaceStage(l.namespace, a, expired);
            (ns.Some? ==> l.namespace.Some?) && (n.Some? ==> NamespaceTruth(n.value, ns, a, expired))
  {
  }

  /** What the pass leaves is no more than what was there. */
  ghost predicate NoMore(after: Local, before: Local) {
    && (after.routes ==> before.routes) && (after.serviceSet.Some? ==> before.serviceSet.Some?)
    && (after.namespace.Some? ==> before.namespace.Some?)
  }

  lemma OrderHolds(l: Local, routes: (bool, Option<Op>), ss: (Option<ServiceSet>, Option<Op>),
                   ns: (Option<Namespace>, Option<Op>),
                   a: DeleteAnswers, expired: bool)
    requires routes.1.Some? ==> RoutesTruth(routes.1.value, routes.0, a, expired)
    requires ss.1.Some? ==> ServiceSetTruth(ss.1.value, ss.0, a)
    requires ns.1.Some? ==> NamespaceTruth(ns.1.value, ns.0, a, expired)
    requires NoMore(Local(l.ws, ss.0, ns.0, routes.0), l) && l.ws.finalizer
    ensures var t := InOrder(l, routes, ss, ns, a);
            Truthful(t, a, expired) && NoMore(t.local, l) && t.local.ws == l.ws.(finalizer := |t.ops| != 4)
  {
  }

  /** Teardown goes in order: routes, ServiceSet, namespace, finalizer. Each
      milestone holds of the result, the finalizer goes exactly at the last one,
      and nothing is created on the way. */
  lemma TeardownInOrder(l: Local, a: DeleteAnswers, now: int)
    requires l.ws.finalizer
    ensures var t := DeletePass(l, a, now);
            && Truthful(t, a, Expired(l.ws, now)) && NoMore(t.local, l)
            && t.local.ws == MarkDeleting(l, a.statusWrites).ws.(finalizer := |t.ops| != 4)
  {
    var m, expired := MarkDeleting(l, a.statusWrites), Expired(l.ws, now);
    StagesHold(m, a, expired);
    var ns := if ClusterGone(a) then (m.namespace, Some(NamespaceSkipped)) else NamespaceStage(m.namespace, a, expired);
    OrderHolds(m, RoutesStage(m.routes, a.cleanup, expired), ServiceSetStage(m.serviceSet, a), ns, a, expired);
  }

  /** The management API server answers everything. */
  ghost predicate ManagementUp(a: DeleteAnswers) {
    && !a.cluster.Unavailable? && a.serviceSetReads && a.serviceSetDeletes && a.finalizersClear
    && a.serviceSetRereads && a.finalizerWrites
  }

  /** The ServiceSet is held by its own finalizers. */
  predicate Draining(l: Local) {
    l.serviceSet.Some? && l.serviceSet.value.finalizers
  }

  /** The child cluster lets the namespace go, or there is nothing left to do. */
  predicate NamespaceYields(l: Local, a: DeleteAnswers) {
    a.child && a.namespaceReads && (l.namespace.None? || l.namespace.value.terminating || a.namespaceDeletes)
  }
}
