/** Every run of reconcile and environment steps over any number of workspaces:
    what gates a deployment, who goes first, what failures record, and what a
    finished deletion leaves behind. */
module LifecycleRuns {
  import opened Text
  import opened SelectorKey
  import opened Resources
  import opened Workspaces
  import opened Lifecycle
  import opened Deletion

  /** All workspaces by UID, the milestones of each finished teardown, the clock. */
  datatype World = World(all: map<string, Local>, torn: map<string, seq<Op>>, now: int)

  /** One reconcile: the listing, the facts and the answers it met, what it left,
      the teardown milestones it reached, and whether it wrote the ServiceSet. */
  datatype Visit = Visit(
    list: seq<Workspace>, facts: Facts, a: Answers, d: DeleteAnswers, after: Local, ops: seq<Op>, wrote: bool)

  datatype Step =
    | ReconcileStep(uid: string, visit: Visit)
    | Environment(all: map<string, Local>, now: int)

  /** Deleted, and nothing holds the object any more. */
  predicate Gone(l: Local) {
    l.ws.deletedAt.Some? && !l.ws.finalizer
  }

  predicate Idle(l: Local) {
    l.ws.suspended || Gone(l)
  }

  predicate LiveVisit(l: Local) {
    !Idle(l) && l.ws.deletedAt.None?
  }

  /** `Reconcile`: suspension comes before deletion. */
  function Reconciled(l: Local, f: Facts, a: Answers, d: DeleteAnswers, now: int): Teardown {
    if Idle(l) then Teardown(l, [])
    else if l.ws.deletedAt.Some? then DeletePass(l, d, now)
    else Teardown(LivePass(l, f, a), [])
  }

  /** Whether a live pass puts the ServiceSet in place. */
  predicate Writes(l: Local, f: Facts, a: Answers) {
    LiveVisit(l) && (l.ws.finalizer || a.finalizerWrites) && Live(WithFinalizer(l), f, a).wrote
  }

  /** The visit is a pass of the reconciler over `l`. */
  ghost predicate Faithful(l: Local, v: Visit, now: int) {
    && Honest(l.ws, v.list, v.facts, v.a)
    && Teardown(v.after, v.ops) == Reconciled(l, v.facts, v.a, v.d, now)
    && v.wrote == Writes(l, v.facts, v.a)
  }

  /** The list is what the API server holds. */
  ghost predicate Lists(list: seq<Workspace>, w: World) {
    && (forall u :: u in w.all && !Gone(w.all[u]) ==> w.all[u].ws in list)
    && (forall x :: x in list ==> x.uid in w.all && !Gone(w.all[x.uid]) && x == w.all[x.uid].ws)
  }

  // ---- the environment ------------------------------------------------------

  /** A freshly created workspace. */
  ghost predicate Newborn(u: string, l: Local) {
    && l.ws.uid == u && l.ws.status == Status(NoPhase, None, None)
    && !l.ws.finalizer && l.ws.deletedAt.None? && l.serviceSet.None? && !l.routes
  }

  /** Users edit the requested resources and values, suspend and delete; the
      cluster managers report on, drain and remove ServiceSets; namespaces come and
      go, but for a workspace being deleted only an existing ServiceSet can bring
      one back. Nobody else writes a status or a finalizer, and the cluster
      reference is fixed. */
  ghost predicate Evolves(l: Local, l': Local) {
    && l'.ws == l.ws.(suspended := l'.ws.suspended, deletedAt := l'.ws.deletedAt,
                      resources := l'.ws.resources, values := l'.ws.values)
    && (l.ws.deletedAt.Some? ==> l'.ws.deletedAt == l.ws.deletedAt)
    && (l'.serviceSet.Some? ==> l.serviceSet.Some?)
    && (l'.routes ==> l.routes)
    && (l.ws.deletedAt.Some? && l.serviceSet.None? && l'.namespace.Some? ==>
          l.namespace.Some? && (l.namespace.value.terminating ==> l'.namespace.value.terminating))
  }

  ghost predicate Enabled(w: World, s: Step) {
    match s
    case ReconcileStep(u, v) => u in w.all && Lists(v.list, w)
    case Environment(all, _) =>
      && (forall u :: u in w.all ==> u in all && Evolves(w.all[u], all[u]))
      && (forall u :: u in all && u !in w.all ==> Newborn(u, all[u]))
  }

  ghost function Next(w: World, s: Step): World
    requires Enabled(w, s)
  {
    match s
    case ReconcileStep(u, v) => World(w.all[u := v.after], if |v.ops| == 4 then w.torn[u := v.ops] else w.torn, w.now)
    case Environment(all, now) => World(all, w.torn, now)
  }

  ghost predicate Initial(w: World) {
    w.all == map[] && w.torn == map[]
  }

  ghost predicate FaithfulStep(w: World, s: Step) {
    s.ReconcileStep? && s.uid in w.all ==> Faithful(w.all[s.uid], s.visit, w.now)
  }

  ghost predicate Run(ws: seq<World>, steps: seq<Step>) {
    && |ws| == |steps| + 1 && Initial(ws[0])
    && (forall i :: 0 <= i < |steps| ==> Enabled(ws[i], steps[i]) && ws[i + 1] == Next(ws[i], steps[i]))
    && (forall i {:trigger FaithfulStep(ws[i], steps[i])} :: 0 <= i < |steps| ==> FaithfulStep(ws[i], steps[i]))
  }

  // ---- what every pass keeps ------------------------------------------------

  /** Failed has its forensics, from another phase; a deployed workspace has none. */
  ghost predicate Sound(st: Status) {
    && (st.phase == Failed ==>
        st.failure.Some? && st.failure.value.phaseWhenFailed != Failed && st.failure.value.phaseWhenFailed != NoPhase)
    && (st.phase == Deploying || st.phase == Running ==> st.failure.None?)
  }

  /** The resources stamped on the status stay, or become a request for what the
      workspace wants now; entering Waiting always stamps. */
  ghost predicate Restamps(st: Status, st': Status, wanted: Selector) {
    && (st'.resolved == st.resolved || (st'.resolved.Some? && GpuSelectorOf(st'.resolved.value) == wanted))
    && (st.phase != Waiting && st'.phase == Waiting ==>
        st'.resolved.Some? && GpuSelectorOf(st'.resolved.value) == wanted)
  }

  /** A status a pass may leave in place of `st`. */
  ghost predicate Follows(st: Status, st': Status, wanted: Selector) {
    (Sound(st) ==> Sound(st')) && Restamps(st, st', wanted)
  }

  ghost predicate Stamped(f: Facts, wanted: Selector) {
    GpuSelectorOf(f.merged) == wanted && GpuSelectorOf(f.resolved) == wanted
  }

  lemma HonestStamps(ws: Workspace, all: seq<Workspace>, f: Facts, a: Answers)
    requires Honest(ws, all, f, a) && a.class_.Got?
    ensures Stamped(f, WantedSelector(ws))
  {
  }

  lemma GateFollows(st: Status, f: Facts, a: Answers, wanted: Selector)
    requires Stamped(f, wanted) && Gated(st.phase)
    ensures var g := Gate(st, f, a.gate); g.End? ==> Follows(st, g.status, wanted)
  {
  }

  lemma PrereqsFollow(st: Status, f: Facts, wanted: Selector)
    ensures var g := PrereqStage(st, f); g.End? ==> Follows(st, g.status, wanted)
  {
  }

  lemma FailedFollows(st: Status, st': Status, reason: Reason, wanted: Selector)
    requires Restamps(st, st', wanted) && st'.phase == st.phase && st'.failure == st.failure
    ensures Follows(st, MarkFailed(st', reason), wanted)
  {
  }

  lemma StartFollows(l: Local, f: Facts, a: Answers, wanted: Selector)
    requires Stamped(f, wanted)
    ensures Follows(l.ws.status, Start(l, l.ws.status, f, a.start).status, wanted)
  {
    var st := l.ws.status.(resolved := Some(f.resolved));
    FailedFollows(l.ws.status, st, InternalError, wanted);
    assert Follows(l.ws.status, st.(phase := Deploying, failure := None), wanted)
        && Follows(l.ws.status, st.(phase := Pending), wanted);
  }

  lemma ReadinessFollows(l: Local, a: Answers, wanted: Selector)
    ensures Follows(l.ws.status, CheckReadiness(l, l.ws.status, a.serviceSetReads, a.refetches).status, wanted)
  {
  }

  lemma OrderFollows(l: Local, gate: Stage, prereqs: Stage, readiness: Pass, start: Pass, a: Answers, wanted: Selector)
    requires Gated(l.ws.status.phase) && gate.End? ==> Follows(l.ws.status, gate.status, wanted)
    requires prereqs.End? ==> Follows(l.ws.status, prereqs.status, wanted)
    requires Follows(l.ws.status, readiness.status, wanted) && Follows(l.ws.status, start.status, wanted)
    ensures Follows(l.ws.status, StageOrder(l, gate, prereqs, readiness, start, a).status, wanted)
  {
  }

  /** A live pass keeps the failure rules, and stamps only what is wanted. */
  lemma PassFollows(l: Local, all: seq<Workspace>, f: Facts, a: Answers)
    requires Honest(l.ws, all, f, a)
    ensures Follows(l.ws.status, LivePass(l, f, a).ws.status, WantedSelector(l.ws))
  {
    var m, st, wanted := WithFinalizer(l), l.ws.status, WantedSelector(l.ws);
    if a.class_.Got? {
      HonestStamps(l.ws, all, f, a);
      if Gated(st.phase) {
        GateFollows(st, f, a, wanted);
      }
      PrereqsFollow(st, f, wanted);
      StartFollows(m, f, a, wanted);
      ReadinessFollows(m, a, wanted);
      OrderFollows(m, Gate(st, f, a.gate), PrereqStage(st, f),
        CheckReadiness(m, st, a.serviceSetReads, a.refetches), Start(m, st, f, a.start), a, wanted);
    }
  }

  // ---- the invariant --------------------------------------------------------

  /** What a finished teardown recorded, and what must still be true of it. */
  ghost predicate Clean(l: Local, ops: seq<Op>) {
    && Gone(l) && l.serviceSet.None?
    && |ops| == 4 && ops[3] == FinalizerRemoved
    && (ops[0] == RoutesCleaned || ops[0] == RoutesSkipped || ops[0] == RoutesAbandoned)
    && (ops[1] == ServiceSetForced || ops[1] == ServiceSetGone)
    && (ops[2] == NamespaceDeleted || ops[2] == NamespaceSkipped || ops[2] == NamespaceAbandoned)
    && (ops[0] == RoutesCleaned ==> !l.routes)
    && (ops[2] == NamespaceDeleted && l.namespace.Some? ==> l.namespace.value.terminating)
  }

  /** One workspace in a reachable state: its status is sound, and whatever the
      operator holds for it is guarded by the finalizer. */
  ghost predicate Healthy(l: Local) {
    && Sound(l.ws.status)
    && (l.serviceSet.Some? || (l.routes && l.ws.deletedAt.None?) ==> l.ws.finalizer)
  }

  ghost predicate Inv(w: World) {
    && (forall u :: u in w.all ==> w.all[u].ws.uid == u && Healthy(w.all[u]))
    && (forall u :: u in w.torn ==> u in w.all && Clean(w.all[u], w.torn[u]))
  }

  /** The operator changes only a workspace's status and finalizer. */
  ghost predicate SameRequest(ws: Workspace, ws': Workspace) {
    ws' == ws.(status := ws'.status, finalizer := ws'.finalizer)
  }

  lemma LiveKeepsHealth(l: Local, list: seq<Workspace>, f: Facts, a: Answers)
    requires Healthy(l) && Honest(l.ws, list, f, a) && LiveVisit(l)
    ensures Healthy(LivePass(l, f, a)) && SameRequest(l.ws, LivePass(l, f, a).ws)
  {
    PassFollows(l, list, f, a);
  }

  lemma TornIsClean(l: Local, t: Teardown, d: DeleteAnswers, expired: bool)
    requires Healthy(l) && l.ws.finalizer && l.ws.deletedAt.Some?
    requires Truthful(t, d, expired) && NoMore(t.local, l)
    requires t.local.ws == MarkDeleting(l, d.statusWrites).ws.(finalizer := |t.ops| != 4)
    ensures Healthy(t.local) && SameRequest(l.ws, t.local.ws) && (|t.ops| == 4 ==> Clean(t.local, t.ops))
  {
  }

  /** What a visit does to its workspace. */
  ghost predicate Keeps(l: Local, v: Visit) {
    && (Healthy(l) ==> Healthy(v.after)) && SameRequest(l.ws, v.after.ws)
    && (Healthy(l) && |v.ops| == 4 ==> Clean(v.after, v.ops))
    && (Gone(l) ==> v.after == l && v.ops == [])
  }

  lemma VisitKeepsHealth(l: Local, v: Visit, now: int)
    requires Faithful(l, v, now) && Healthy(l)
    ensures Keeps(l, v)
  {
    if LiveVisit(l) {
      LiveKeepsHealth(l, v.list, v.facts, v.a);
    } else if !Idle(l) {
      TeardownInOrder(l, v.d, now);
      TornIsClean(l, Teardown(v.after, v.ops), v.d, Expired(l.ws, now));
    }
  }

  lemma StepKeepsInv(w: World, s: Step)
    requires Inv(w) && Enabled(w, s) && (s.ReconcileStep? ==> Keeps(w.all[s.uid], s.visit))
    ensures Inv(Next(w, s))
  {
    if s.Environment? {
      forall u | u in s.all ensures s.all[u].ws.uid == u && Healthy(s.all[u]) && (u in w.torn ==>
          Clean(s.all[u], w.torn[u])) {
        if u in w.all {
          assert Evolves(w.all[u], s.all[u]);
        }
      }
    }
  }

  lemma StepIsKept(ws: seq<World>, steps: seq<Step>, i: nat)
    requires Run(ws, steps) && i < |steps| && Inv(ws[i]) && steps[i].ReconcileStep?
    ensures Enabled(ws[i], steps[i]) && Keeps(ws[i].all[steps[i].uid], steps[i].visit)
  {
    assert FaithfulStep(ws[i], steps[i]);
    VisitKeepsHealth(ws[i].all[steps[i].uid], steps[i].visit, ws[i].now);
  }

  lemma {:induction false} RunKeepsInv(ws: seq<World>, steps: seq<Step>, i: nat)
    requires Run(ws, steps) && i < |ws|
    ensures Inv(ws[i])
  {
    if i > 0 {
      RunKeepsInv(ws, steps, i - 1);
      if steps[i - 1].ReconcileStep? {
        StepIsKept(ws, steps, i - 1);
      }
      StepKeepsInv(ws[i - 1], steps[i - 1]);
      assert ws[i - 1 + 1] == ws[i];
    }
  }
}
