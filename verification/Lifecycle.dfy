/** One pass of the reconciler over a workspace that is not being deleted: the
    stages in order, as functions of what the API servers answer. */
module Lifecycle {
  import opened Text
  import opened Labels
  import opened SelectorKey
  import opened Nodes
  import opened Availability
  import opened Resources
  import opened Injection
  import opened Workspaces
  import PortPool
  import PortPoolMeaning
  import Prerequisites
  import ValueTree

  datatype Class = Class(
    template: string, timeout: Option<int>,
    defaults: Spec, prerequisites: seq<Prerequisites.Prereq>, values: ValueTree.Tree, injection: InjectionMap)

  const DEFAULT_TIMEOUT := 900

  /** The class's deploy timeout; a zero one counts as none. */
  function Timeout(c: Class): int {
    if c.timeout.None? || c.timeout.value == 0 then DEFAULT_TIMEOUT else c.timeout.value
  }

  /** The release a workspace installs, into its own namespace. */
  function ReleaseOf(ws: Workspace, c: Class, values: ValueTree.Tree): Release {
    Release(c.template, PortPool.MirrorNamespace(ws.name), Timeout(c), values)
  }

  datatype GateAnswers = GateAnswers(child: bool, nodes: Option<seq<Node>>, pods: Option<seq<Pod>>, listed: bool)

  datatype PrereqAnswers = PrereqAnswers(
    cluster: Fetch<Prerequisites.Services>, sets: Prerequisites.Sets, unreadable: set<string>,
        no: Prerequisites.Refusals)

  datatype StartAnswers = StartAnswers(
    child: bool, nodes: Option<seq<Node>>, merges: bool, serializes: bool, mesh: map<string, string>,
    namespaceReads: bool, namespaceWrite: Creation, serviceSetReads: bool, serviceSetWrites: bool)

  datatype Answers = Answers(
    finalizerWrites: bool, class_: Fetch<Class>, cluster: Fetch<()>, feasible: bool,
    gate: GateAnswers, prereqs: PrereqAnswers, start: StartAnswers,
    serviceSetReads: bool, refetches: bool, routed: bool, statusWrites: bool)

  /** What a pass leaves: the status in memory, whether it tries to store it, and
      the objects it wrote. `wrote` says it put the ServiceSet in place. */
  datatype Pass = Pass(status: Status, write: bool, wrote: bool, serviceSet: Option<ServiceSet>,
      namespace: Option<Namespace>, routes: bool)

  function Ends(l: Local, st: Status, write: bool): Pass {
    Pass(st, write, false, l.serviceSet, l.namespace, l.routes)
  }

  /** A stage lets the pass continue or ends it. */
  datatype Stage = Continue | End(status: Status, write: bool)

  /** What the pass computes from what it read: the merged request, the live
      availability, whether an older workspace waits, the judgement on the
      prerequisites, the prerequisite store after installing what is missing and
      whether that went through, the request with its vendor, the release. */
  datatype Facts = Facts(
    merged: Spec, selector: Selector, demand: int, summary: Summary, blocked: bool,
    judgement: Option<Prerequisites.Outcome>, store: Prerequisites.Sets, installed: bool, resolved: Spec,
    release: Release)

  ghost function FactsOf(ws: Workspace, c: Class, all: seq<Workspace>, a: Answers): Facts {
    var r := MergeResources(c.defaults, ws.resources);
    var sel := GpuSelectorOf(r);
    Facts(r, sel, GpuDemand(r), SummaryOf(sel, a.gate), Blocked(all, ws, sel),
          JudgementOf(c, a.prereqs), InstallOf(c, a.prereqs).0, InstallOf(c, a.prereqs).1,
          ResolveGpu(r, a.start.nodes).0,
          ReleaseOf(ws, c, Composed(c.values, ws.values, r, c.injection, a.start.nodes)))
  }

  ghost function SummaryOf(sel: Selector, g: GateAnswers): Summary {
    if g.nodes.Some? && g.pods.Some? then SelectorSummary(g.nodes.value, g.pods.value, sel)
        else Summary(false, 0, "", "")
  }

  /** None when the class declares no prerequisites. */
  ghost function JudgementOf(c: Class, p: PrereqAnswers): Option<Prerequisites.Outcome> {
    if c.prerequisites == [] then None
    else Some(Prerequisites.Evaluate(p.cluster, p.sets, p.unreadable, c.prerequisites))
  }

  /** The prerequisite store after the stage, and whether no install call failed. */
  ghost function InstallOf(c: Class, p: PrereqAnswers): (Prerequisites.Sets, bool) {
    Prerequisites.Provide(p.sets, p.cluster, p.unreadable, c.prerequisites, p.no)
  }

  /** The part of the facts the gate relies on. */
  ghost predicate GateFacts(ws: Workspace, c: Class, all: seq<Workspace>, f: Facts, g: GateAnswers) {
    && f.merged == MergeResources(c.defaults, ws.resources) && f.selector == GpuSelectorOf(f.merged)
    && f.demand == GpuDemand(f.merged) && f.summary == SummaryOf(f.selector, g)
        && f.blocked == Blocked(all, ws, f.selector)
  }

  /** The part of the facts the prerequisite stage relies on. */
  ghost predicate PrereqFacts(c: Class, f: Facts, p: PrereqAnswers) {
    f.judgement == JudgementOf(c, p) && (f.store, f.installed) == InstallOf(c, p)
  }

  /** The part of the facts a start relies on. */
  ghost predicate StartFacts(ws: Workspace, c: Class, f: Facts, nodes: Option<seq<Node>>) {
    && f.merged == MergeResources(c.defaults, ws.resources) && f.resolved == ResolveGpu(f.merged, nodes).0
    && f.release == ReleaseOf(ws, c, Composed(c.values, ws.values, f.merged, c.injection, nodes))
  }

  // ---- the GPU gate ---------------------------------------------------------

  function EnterWaiting(st: Status, r: Spec): Status {
    st.(phase := Waiting, resolved := Some(r))
  }

  /** `gateGPUOffering`. */
  function Gate(st: Status, f: Facts, g: GateAnswers): Stage {
    if f.selector == map[] then Continue
    else if !g.child || g.nodes.None? || g.pods.None? then End(st.(phase := Pending), true)
    else if !f.summary.found then End(MarkFailed(st, GpuOfferingUnavailable), true)
    else if f.demand > 0 && f.summary.free < f.demand then End(EnterWaiting(st, f.merged), true)
    else if !g.listed then End(st, false)
    else if f.blocked then End(EnterWaiting(st, f.merged), true)
    else Continue
  }

  /** What a workspace must find before it may deploy: nothing if it asks for no
      GPU; otherwise a usable node with its labels and a GPU, enough free GPUs for
      every replica, and nobody older waiting for the same. */
  ghost predicate Admissible(ws: Workspace, defaults: Spec, all: seq<Workspace>, g: GateAnswers) {
    var sel := WantedSelector(ws);
    sel != map[] ==>
      && g.child && g.nodes.Some? && g.pods.Some? && g.listed
      && Offered(g.nodes.value, sel)
      && (forall n, k :: Asks(defaults, ws.resources, n, k) ==> Affords(g.nodes.value, g.pods.value, sel, n * k))
      && !Blocked(all, ws, sel)
  }

  /** The gate opens exactly for admissible workspaces. */
  lemma GateIsAdmission(ws: Workspace, c: Class, st: Status, all: seq<Workspace>, g: GateAnswers, f: Facts)
    requires GateFacts(ws, c, all, f, g)
    ensures Gate(st, f, g).Continue? <==> Admissible(ws, c.defaults, all, g)
  {
    ClassCannotPinGpu(c.defaults, ws.resources);
    var (n, k) := Request(c.defaults, ws.resources);
    DemandCoversReplicas(c.defaults, ws.resources, n, k);
    if f.selector != map[] && g.nodes.Some? && g.pods.Some? {
      SummaryMeaning(g.nodes.value, g.pods.value, f.selector);
      AffordsMeans(g.nodes.value, g.pods.value, f.selector, n * k);
      assert forall m, j :: Asks(c.defaults, ws.resources, m, j) ==> m == n && j == k;
    }
  }

  /** What the gate stores when it holds a workspace that asks for a GPU: Pending
      while the cluster cannot be asked; Failed exactly when no usable node has its
      labels and a GPU; Waiting, stamped with the request, exactly when one does but
      too few GPUs are free for `n` replicas of `k`, or an older workspace waits;
      nothing when only the siblings could not be listed. */
  lemma GateHolds(ws: Workspace, c: Class, st: Status, all: seq<Workspace>, g: GateAnswers, f: Facts, n: int, k: int)
    requires GateFacts(ws, c, all, f, g) && WantedSelector(ws) != map[] && Asks(c.defaults, ws.resources, n, k)
    ensures var stage, sel := Gate(st, f, g), WantedSelector(ws);
            if !g.child || g.nodes.None? || g.pods.None? then stage == End(st.(phase := Pending), true)
            else
              var offered := Offered(g.nodes.value, sel);
              var short := !Affords(g.nodes.value, g.pods.value, sel, n * k);
              && (stage == End(MarkFailed(st, GpuOfferingUnavailable), true) <==> !offered)
              && (stage == End(st.(phase := Waiting, resolved := Some(f.merged)), true) <==>
                  offered && (short || (g.listed && Blocked(all, ws, sel))))
              && (stage == End(st, false) <==> offered && !short && !g.listed)
  {
    ClassCannotPinGpu(c.defaults, ws.resources);
    DemandCoversReplicas(c.defaults, ws.resources, n, k);
    if g.nodes.Some? && g.pods.Some? {
      SummaryMeaning(g.nodes.value, g.pods.value, f.selector);
      AffordsMeans(g.nodes.value, g.pods.value, f.selector, n * k);
    }
  }

  // ---- prerequisites --------------------------------------------------------

  /** `reconcilePrerequisites`: what each judgement does to the workspace. */
  function PrereqStage(st: Status, f: Facts): Stage {
    match f.judgement
    case None => Continue
    case Some(EvaluationError) => End(st, false)
    case Some(Judged(verdict, _)) =>
      match verdict
      case Invalid => End(MarkFailed(st, InvalidPrerequisite), true)
      case SomeConflict => End(MarkFailed(st, PrerequisiteNamespaceConflict), true)
      case SomeFailed => End(MarkFailed(st, PrerequisitesNotReady), true)
      case SomeMissing => if f.installed then End(st.(phase := InstallingPrerequisites), true) else End(st, false)
      case SomeInstalling => End(st.(phase := InstallingPrerequisites), true)
      case AllSatisfied => Continue
  }

  /** Every declared prerequisite is in place, by what is reported about it. */
  ghost predicate PrerequisitesMet(ps: seq<Prerequisites.Prereq>, p: PrereqAnswers) {
    ps != [] ==>
      && p.cluster.Got?
      && forall i :: 0 <= i < |ps| ==>
           && ps[i].versionConstraint == "" && ps[i].template !in p.unreadable
           && Prerequisites.InPlace(p.cluster.item, p.sets, ps[i])
  }

  lemma PrereqStageIsMet(st: Status, c: Class, p: PrereqAnswers, f: Facts)
    requires f.judgement == JudgementOf(c, p)
    ensures PrereqStage(st, f).Continue? <==> PrerequisitesMet(c.prerequisites, p)
  {
    if c.prerequisites != [] && p.cluster.Got? {
      VerdictIsMet(p.cluster.item, p.sets, p.unreadable, c.prerequisites);
    }
  }

  lemma VerdictIsMet(k: Prerequisites.Services, sets: Prerequisites.Sets, unreadable: set<string>,
                     ps: seq<Prerequisites.Prereq>)
    ensures var o := Prerequisites.Evaluate(Got(k), sets, unreadable, ps);
            o.Judged? && o.verdict == Prerequisites.AllSatisfied <==>
            forall i :: 0 <= i < |ps| ==>
              && ps[i].versionConstraint == "" && ps[i].template !in unreadable
              && Prerequisites.InPlace(k, sets, ps[i])
  {
    Prerequisites.SettledMeans(k, sets, ps);
  }

  /** Once every declared prerequisite can be judged: one reported in another
      namespace fails the workspace before a failed install does, anything else that
      is not in place sends it to installing, unless the last of them has no
      provider and an install call fails. */
  lemma PrereqStageHolds(st: Status, k: Prerequisites.Services, ps: seq<Prerequisites.Prereq>, p: PrereqAnswers,
                         f: Facts)
    requires ps != [] && p.cluster == Got(k)
    requires forall q :: q in ps ==> q.versionConstraint == "" && q.template !in p.unreadable
    requires f.judgement == Some(Prerequisites.Evaluate(p.cluster, p.sets, p.unreadable, ps))
    ensures HeldByReports(st, k, p.sets, ps, f)
  {
    Prerequisites.EvaluateMeans(p.cluster, p.sets, p.unreadable, ps);
    RulesDecide(st, k, p.sets, ps, f);
  }

  ghost predicate HeldByReports(st: Status, k: Prerequisites.Services, sets: Prerequisites.Sets,
                                ps: seq<Prerequisites.Prereq>, f: Facts) {
    var stage := PrereqStage(st, f);
    if exists q :: q in ps && Prerequisites.Misplaced(k, sets, q) then
      stage == End(MarkFailed(st, PrerequisiteNamespaceConflict), true)
    else if exists q :: q in ps && Prerequisites.Broke(k, sets, q) then
      stage == End(MarkFailed(st, PrerequisitesNotReady), true)
    else if forall q :: q in ps ==> Prerequisites.InPlace(k, sets, q) then stage == Continue
    else if !f.installed && exists i: nat :: i < |ps| && Prerequisites.LastOut(k, sets, ps, i)
                              && Prerequisites.Unprovided(k, sets, ps[i]) then
      stage == End(st, false)
    else stage == End(st.(phase := InstallingPrerequisites), true)
  }

  lemma RulesDecide(st: Status, k: Prerequisites.Services, sets: Prerequisites.Sets, ps: seq<Prerequisites.Prereq>,
                    f: Facts)
    requires f.judgement.Some? && f.judgement.value.Judged?
    requires Prerequisites.Rules(k, sets, ps, f.judgement.value.verdict)
    ensures HeldByReports(st, k, sets, ps, f)
  {
    match f.judgement.value.verdict
    case AllSatisfied =>
      forall q | q in ps ensures !Prerequisites.Misplaced(k, sets, q) && !Prerequisites.Broke(k, sets, q) {
        Prerequisites.KindMeans(k, sets, q);
      }
    case SomeMissing =>
      var i: nat :| i < |ps| && Prerequisites.LastOut(k, sets, ps, i) && Prerequisites.Unprovided(k, sets, ps[i]);
      assert ps[i] in ps;
    case SomeInstalling =>
      var i: nat :| i < |ps| && Prerequisites.LastOut(k, sets, ps, i) && !Prerequisites.Unprovided(k, sets, ps[i]);
      assert ps[i] in ps;
      Prerequisites.OneLastOut(k, sets, ps, i);
    case _ =>
  }

  /** A version constraint fails the workspace; an unreadable ServiceSet before it, or
      no ClusterDeployment to judge by, ends the pass with nothing stored; a class
      without prerequisites asks nothing. */
  lemma PrereqStageUnjudged(st: Status, c: Class, p: PrereqAnswers, f: Facts, n: nat)
    requires f.judgement == JudgementOf(c, p)
    ensures c.prerequisites == [] ==> PrereqStage(st, f) == Continue
    ensures c.prerequisites != [] && !p.cluster.Got? ==> PrereqStage(st, f) == End(st, false)
    ensures p.cluster.Got? && Prerequisites.FirstOddity(c.prerequisites, p.unreadable, n) ==>
              PrereqStage(st, f) ==
                if c.prerequisites[n].versionConstraint != "" then End(MarkFailed(st, InvalidPrerequisite), true)
                else End(st, false)
  {
    Prerequisites.EvaluateMeans(p.cluster, p.sets, p.unreadable, c.prerequisites);
  }

  // ---- starting -------------------------------------------------------------

  function DesiredLabels(ws: Workspace, mesh: map<string, string>): map<string, string> {
    map[PortPool.LABEL_WORKSPACE := ws.name] + mesh
  }

  ghost predicate Labelled(ns: Option<Namespace>, desired: map<string, string>) {
    ns.Some? && !ns.value.terminating && forall k :: k in desired ==> Lookup(ns.value.labels, k) == desired[k]
  }

  datatype Readiness = Ready | NotYet | Trouble

  /** `ensureWorkspaceNamespace`. */
  function EnsureNamespace(ns: Option<Namespace>, desired: map<string, string>, readable: bool,
                           write: Creation): (Option<Namespace>, Readiness) {
    if !readable then (ns, Trouble)
    else if ns.None? then
      match write
      case Written => (Some(Namespace(desired, false)), Ready)
      case AlreadyExists => (ns, NotYet)
      case Refused => (ns, Trouble)
    else if ns.value.terminating then (ns, NotYet)
    else
      if Differing(ns.value.labels, desired) == map[] then (ns, Ready)
      else if !write.Refused? then (Some(ns.value.(labels := Healed(ns.value.labels, desired))), Ready)
      else (ns, Trouble)
  }

  lemma EnsureNamespaceLabels(ns: Option<Namespace>, desired: map<string, string>, readable: bool, write: Creation)
    ensures var (ns', ready) := EnsureNamespace(ns, desired, readable, write);
            && (ready.Ready? ==> Labelled(ns', desired))
            && (ready.NotYet? <==> readable && if ns.Some? then ns.value.terminating else write.AlreadyExists?)
            && (ns.Some? && ns'.Some? ==> forall k :: k !in desired ==>
                Lookup(ns'.value.labels, k) == Lookup(ns.value.labels, k))
  {
    if ns.Some? {
      forall k | k in desired && Lookup(ns.value.labels, k) != desired[k]
          ensures k in Differing(ns.value.labels, desired) {
      }
    }
  }

  /** `ensureWorkspaceServiceSet`. */
  function EnsureServiceSet(ss: Option<ServiceSet>, release: Release, owner: string, readable: bool, writable: bool)
      : (Option<ServiceSet>, bool)
  {
    if !readable || !writable then (ss, false)
    else if ss.Some? then (Some(ss.value.(release := release)), true)
    else (Some(ServiceSet(release, Some(owner), [], false, false)), true)
  }

  /** The end of `startDeployment`: namespace first, then the ServiceSet. */
  function Install(l: Local, st: Status, release: Release, s: StartAnswers): Pass {
    var (ns, ready) := EnsureNamespace(l.namespace, DesiredLabels(l.ws, s.mesh), s.namespaceReads, s.namespaceWrite);
    var l' := l.(namespace := ns);
    match ready
    case Trouble => Ends(l', st, false)
    case NotYet => Ends(l', st.(phase := Pending), true)
    case Ready =>
      var (ss, ok) := EnsureServiceSet(l.serviceSet, release, l.ws.uid, s.serviceSetReads, s.serviceSetWrites);
      if !ok then Ends(l', MarkFailed(st, InternalError), true)
      else Pass(st.(phase := Deploying, failure := None), true, true, ss, ns, l.routes)
  }

  /** `startDeployment`. */
  function Start(l: Local, st: Status, f: Facts, s: StartAnswers): Pass {
    var st' := st.(resolved := Some(f.resolved));
    if !s.child then Ends(l, st.(resolved := Some(f.merged), phase := Pending), true)
    else if !s.merges || !s.serializes then Ends(l, MarkFailed(st', InternalError), true)
    else Install(l, st', f.release, s)
  }

  /** Why a start stops short of the ServiceSet: no kubeconfig for the child cluster
      yet, values that cannot be composed, a namespace that is terminating or not to be
      had, a ServiceSet that cannot be written. The resolved request is stamped on
      whatever status is stored. */
  lemma StartHolds(l: Local, st: Status, f: Facts, s: StartAnswers)
    ensures var p, st' := Start(l, st, f, s), st.(resolved := Some(f.resolved));
            if !s.child then p == Ends(l, st.(resolved := Some(f.merged), phase := Pending), true)
            else if !s.merges || !s.serializes then p == Ends(l, MarkFailed(st', InternalError), true)
            else if !s.namespaceReads then p == Ends(l, st', false)
            else if (if l.namespace.Some? then l.namespace.value.terminating else s.namespaceWrite.AlreadyExists?) then
              p == Ends(l, st'.(phase := Pending), true)
            else if s.namespaceWrite.Refused? && !Mirrored(l.namespace, l.ws.name, s.mesh) then
              p == Ends(l, st', false)
            else
              && Mirrored(p.namespace, l.ws.name, s.mesh) && p.routes == l.routes && p.write
              && p.wrote == (s.serviceSetReads && s.serviceSetWrites)
              && (!p.wrote ==> p.serviceSet == l.serviceSet && p.status == MarkFailed(st', InternalError))
              && (p.wrote ==> p.status == st'.(phase := Deploying, failure := None))
  {
    var desired := DesiredLabels(l.ws, s.mesh);
    EnsureNamespaceLabels(l.namespace, desired, s.namespaceReads, s.namespaceWrite);
    LabelledMeans(Start(l, st, f, s).namespace, l.ws, s.mesh);
    if l.namespace.Some? {
      PortPoolMeaning.DifferingMeans(l.namespace.value.labels, l.ws.name, s.mesh);
    }
  }

  // ---- readiness ------------------------------------------------------------

  /** The first settled report on the workspace's own release. */
  function Outcome(reports: seq<Report>, entry: string): Prerequisites.State {
    if reports == [] then Prerequisites.Unsettled
    else if reports[0].name == entry && reports[0].state != Prerequisites.Unsettled then reports[0].state
    else Outcome(reports[1..], entry)
  }

  /** `i` is the first settled report on `entry`. */
  predicate FirstSettled(reports: seq<Report>, entry: string, i: nat) {
    && i < |reports| && reports[i].name == entry && reports[i].state != Prerequisites.Unsettled
    && forall j :: 0 <= j < i ==> reports[j].name != entry || reports[j].state == Prerequisites.Unsettled
  }

  /** Settled as its first settled report says, and not at all without one. */
  lemma {:induction false} OutcomeMeans(reports: seq<Report>, entry: string, i: nat)
    ensures FirstSettled(reports, entry, i) ==> Outcome(reports, entry) == reports[i].state
    ensures (forall r :: r in reports ==> r.name != entry || r.state == Prerequisites.Unsettled) ==>
              Outcome(reports, entry) == Prerequisites.Unsettled
  {
    if reports != [] {
      OutcomeMeans(reports[1..], entry, if i == 0 then 0 else i - 1);
      if FirstSettled(reports, entry, i) && i > 0 {
        assert FirstSettled(reports[1..], entry, i - 1);
      }
      assert reports[0] in reports;
    }
  }

  function CheckReadiness(l: Local, st: Status, readable: bool, refetches: bool): Pass {
    if !readable || l.serviceSet.None? || !refetches then Ends(l, st, false)
    else
      match Outcome(l.serviceSet.value.reports, l.ws.entry)
      case Deployed => Ends(l, l.ws.status.(phase := Running, failure := None), true)
      case Broken => Ends(l, MarkFailed(l.ws.status, HelmReleaseFailed), true)
      case Unsettled => Ends(l, st, false)
  }

  // ---- the pass -------------------------------------------------------------

  predicate Watched(p: Phase) {
    p != Running && p != Failed && p != Waiting
  }

  predicate Gated(p: Phase) {
    p != Deploying && p != Running && p != Failed
  }

  /** The checks in order, given what gate and prerequisites would answer. */
  function Checks(st: Status, gate: Stage, prereqs: Stage, a: Answers): Stage {
    if st.phase != Running && a.cluster.NotFound? then End(st.(phase := Pending), true)
    else if st.phase != Running && a.cluster.Unavailable? then End(st, false)
    else if Watched(st.phase) && !a.feasible then End(st, false)
    else if Gated(st.phase) && gate.End? then gate
    else prereqs
  }

  /** The checks before the prerequisites are passed. */
  predicate ReachesPrereqs(st: Status, gate: Stage, a: Answers) {
    && (st.phase == Running || a.cluster.Got?)
    && (Watched(st.phase) ==> a.feasible)
    && (Gated(st.phase) ==> gate.Continue?)
  }

  /** What each phase does once the checks are passed. */
  function Dispatch(l: Local, readiness: Pass, start: Pass, a: Answers): Pass {
    var st := l.ws.status;
    match st.phase
    case Deploying => readiness
    case Running => Ends(l, st, false).(routes := l.routes || a.routed)
    case Failed => Ends(l, st, false)
    case _ => start
  }

  function StageOrder(l: Local, gate: Stage, prereqs: Stage, readiness: Pass, start: Pass, a: Answers): Pass {
    var checks := Checks(l.ws.status, gate, prereqs, a);
    if checks.End? then Ends(l, checks.status, checks.write) else Dispatch(l, readiness, start, a)
  }

  /** `Reconcile` past the class. */
  function Stages(l: Local, f: Facts, a: Answers): Pass {
    var st := l.ws.status;
    StageOrder(l, Gate(st, f, a.gate), PrereqStage(st, f),
               CheckReadiness(l, st, a.serviceSetReads, a.refetches), Start(l, st, f, a.start), a)
  }

  /** `Reconcile` past the finalizer. */
  function Live(l: Local, f: Facts, a: Answers): Pass {
    match a.class_
    case NotFound => Ends(l, MarkFailed(l.ws.status, ClassNotFound), true)
    case Unavailable => Ends(l, l.ws.status, false)
    case Got(_) => Stages(l, f, a)
  }

  /** What the API servers hold after the pass. */
  function Settle(l: Local, p: Pass, stored: bool): Local {
    Local(l.ws.(status := if p.write && stored then p.status else l.ws.status), p.serviceSet, p.namespace, p.routes)
  }

  function WithFinalizer(l: Local): Local {
    l.(ws := l.ws.(finalizer := true))
  }

  /** A pass over a workspace that is not being deleted. */
  function LivePass(l: Local, f: Facts, a: Answers): Local {
    if !l.ws.finalizer && !a.finalizerWrites then l
    else Settle(WithFinalizer(l), Live(WithFinalizer(l), f, a), a.statusWrites)
  }

  // ---- what one pass can do -------------------------------------------------

  /** The facts are what the pass really computes. */
  ghost predicate Honest(ws: Workspace, all: seq<Workspace>, f: Facts, a: Answers) {
    a.class_.Got? ==> f == FactsOf(ws, a.class_.item, all, a)
  }

  lemma FinalizerIrrelevant(ws: Workspace, all: seq<Workspace>, f: Facts, a: Answers)
    requires Honest(ws, all, f, a)
    ensures Honest(ws.(finalizer := true), all, f, a)
  {
  }

  lemma StartWrites(l: Local, st: Status, f: Facts, s: StartAnswers)
    ensures var p := Start(l, st, f, s);
            p.wrote ==>
              && Labelled(p.namespace, DesiredLabels(l.ws, s.mesh))
              && Puts(l.serviceSet, p.serviceSet, l.ws.uid) && p.serviceSet.value.release == f.release
              && p.status.phase == Deploying && p.status.failure.None? && p.write
  {
    EnsureNamespaceLabels(l.namespace, DesiredLabels(l.ws, s.mesh), s.namespaceReads, s.namespaceWrite);
  }

  /** A pass that writes the ServiceSet went through every stage. */
  lemma WriteShape(l: Local, f: Facts, a: Answers)
    requires Live(l, f, a).wrote
    ensures a.class_.Got? && Gated(l.ws.status.phase)
    ensures Gate(l.ws.status, f, a.gate).Continue? && PrereqStage(l.ws.status, f).Continue?
    ensures Live(l, f, a) == Start(l, l.ws.status, f, a.start)
  {
  }

  lemma PlacedAsWanted(ws: Workspace, c: Class, nodes: Option<seq<Node>>)
    requires WantedSelector(ws) != map[]
    ensures Places(Composed(c.values, ws.values, MergeResources(c.defaults, ws.resources), c.injection, nodes),
                   WantedSelector(ws))
  {
    ClassCannotPinGpu(c.defaults, ws.resources);
    GatedIsPlaced(c.defaults, ws.resources, c.values, ws.values, c.injection, nodes, [], []);
  }

  /** The namespace is there, live, and reads every label wanted of it. */
  ghost predicate Mirrored(ns: Option<Namespace>, name: string, mesh: map<string, string>) {
    ns.Some? && !ns.value.terminating && PortPoolMeaning.LabelsRead(ns.value.labels, name, mesh)
  }

  lemma LabelledMeans(ns: Option<Namespace>, ws: Workspace, mesh: map<string, string>)
    ensures Labelled(ns, DesiredLabels(ws, mesh)) <==> Mirrored(ns, ws.name, mesh)
  {
    var desired := DesiredLabels(ws, mesh);
    forall k ensures PortPoolMeaning.Wanted(ws.name, mesh, k) == if k in desired then Some(desired[k]) else None {}
  }

  /** The release of a workspace: the class's chart in the workspace's namespace, with
      the class's timeout or a quarter of an hour, on exactly the nodes wanted. */
  ghost predicate Releases(r: Release, ws: Workspace, c: Class, nodes: Option<seq<Node>>) {
    && r.template == c.template && r.namespace == "ws-" + ws.name
    && r.timeout == (if c.timeout == None || c.timeout == Some(0) then 900 else c.timeout.value)
    && r.values == Composed(c.values, ws.values, MergeResources(c.defaults, ws.resources), c.injection, nodes)
    && (WantedSelector(ws) != map[] ==> Places(r.values, WantedSelector(ws)))
  }

  /** A new ServiceSet is owned by its workspace; an old one keeps all but its release. */
  ghost predicate Puts(before: Option<ServiceSet>, after: Option<ServiceSet>, uid: string) {
    && after.Some?
    && if before.None? then
         && after.value.owner == Some(uid) && after.value.reports == []
         && !after.value.terminating && !after.value.finalizers
       else after.value == before.value.(release := after.value.release)
  }

  /** The ServiceSet is written only in a pass that was admitted, with every
      prerequisite in place and the namespace labelled and not terminating; its
      values place the chart on exactly the selector that was admitted. */
  lemma WriteIsGated(l: Local, all: seq<Workspace>, f: Facts, a: Answers)
    requires Honest(l.ws, all, f, a) && Live(l, f, a).wrote
    ensures var p := Live(l, f, a);
            && a.class_.Got?
            && Admissible(l.ws, a.class_.item.defaults, all, a.gate)
            && PrerequisitesMet(a.class_.item.prerequisites, a.prereqs)
            && Mirrored(p.namespace, l.ws.name, a.start.mesh)
            && Puts(l.serviceSet, p.serviceSet, l.ws.uid)
            && Releases(p.serviceSet.value.release, l.ws, a.class_.item, a.start.nodes)
  {
    var c, st := a.class_.item, l.ws.status;
    WriteShape(l, f, a);
    StartWrites(l, st, f, a.start);
    GateIsAdmission(l.ws, c, st, all, a.gate, f);
    PrereqStageIsMet(st, c, a.prereqs, f);
    LabelledMeans(Live(l, f, a).namespace, l.ws, a.start.mesh);
    if WantedSelector(l.ws) != map[] {
      PlacedAsWanted(l.ws, c, a.start.nodes);
    }
  }
}
