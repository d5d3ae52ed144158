/** What holds in every run of the workspace reconciler. */
module LifecycleSafety {
  import opened Text
  import opened SelectorKey
  import opened Nodes
  import opened Resources
  import opened Injection
  import opened Workspaces
  import opened Lifecycle
  import opened Deletion
  import opened LifecycleRuns
  import Availability
  import Prerequisites

  // ---- every deployment is gated --------------------------------------------

  /** What a pass that writes the ServiceSet has established. */
  ghost predicate Cleared(l: Local, v: Visit) {
    && LiveVisit(l) && l.ws.status.phase !in {Deploying, Running, Failed} && v.a.class_.Got?
    && Admissible(l.ws, v.a.class_.item.defaults, v.list, v.a.gate)
    && PrerequisitesMet(v.a.class_.item.prerequisites, v.a.prereqs)
    && Mirrored(v.after.namespace, l.ws.name, v.a.start.mesh)
    && Puts(l.serviceSet, v.after.serviceSet, l.ws.uid)
    && Releases(v.after.serviceSet.value.release, l.ws, v.a.class_.item, v.a.start.nodes)
  }

  lemma WrittenIsCleared(l: Local, v: Visit, now: int)
    requires Faithful(l, v, now) && v.wrote
    ensures Cleared(l, v)
  {
    var m := WithFinalizer(l);
    FinalizerIrrelevant(l.ws, v.list, v.facts, v.a);
    WriteIsGated(m, v.list, v.facts, v.a);
    WriteShape(m, v.facts, v.a);
    assert forall sel :: Blocked(v.list, m.ws, sel) == Blocked(v.list, l.ws, sel);
  }

  /** In every run, each write of a workspace ServiceSet happens in a step where
      enough GPUs for every replica were free on nodes with its labels, nobody older
      waited for them, every declared prerequisite was reported in place, and the
      child namespace is labelled and not terminating; what is written is the
      workspace's own release, placed on exactly those labels. */
  lemma EveryDeploymentIsGated(ws: seq<World>, steps: seq<Step>, i: nat)
    requires Run(ws, steps) && i < |steps| && steps[i].ReconcileStep? && steps[i].visit.wrote
    ensures Enabled(ws[i], steps[i]) && Cleared(ws[i].all[steps[i].uid], steps[i].visit)
  {
    assert FaithfulStep(ws[i], steps[i]);
    WrittenIsCleared(ws[i].all[steps[i].uid], steps[i].visit, ws[i].now);
  }

  /** No run deploys a workspace while an older one on the same cluster waits with
      the same selector on its status. */
  lemma NoQueueJumping(ws: seq<World>, steps: seq<Step>, i: nat, u: string)
    requires Run(ws, steps) && i < |steps| && steps[i].ReconcileStep? && steps[i].visit.wrote
    requires u in ws[i].all && !Gone(ws[i].all[u]) && u != steps[i].uid && ws[i].all[u].ws.status.phase == Waiting
    ensures steps[i].uid in ws[i].all
    ensures var (me, other) := (ws[i].all[steps[i].uid].ws, ws[i].all[u].ws);
            me.cluster == other.cluster && WantedSelector(me) != map[]
                && Key(EffectiveSelector(other)) == Key(WantedSelector(me)) ==>
              !Older(other, me)
  {
    EveryDeploymentIsGated(ws, steps, i);
    RunKeepsInv(ws, steps, i);
    assert Lists(steps[i].visit.list, ws[i]);
    var me, other := ws[i].all[steps[i].uid], ws[i].all[u];
    assert other.ws in steps[i].visit.list;
  }

  lemma VisitRestamps(l: Local, v: Visit, now: int)
    requires Faithful(l, v, now)
    ensures Restamps(l.ws.status, v.after.ws.status, WantedSelector(l.ws))
  {
    if LiveVisit(l) {
      PassFollows(l, v.list, v.facts, v.a);
    } else if !Idle(l) && l.ws.finalizer {
      TeardownInOrder(l, v.d, now);
    }
  }

  /** The stamp at `i + 1` was there at `i`, or is what was wanted at `i`. */
  lemma StampStep(ws: seq<World>, steps: seq<Step>, i: nat, u: string)
    requires Run(ws, steps) && i < |steps| && u in ws[i + 1].all && ws[i + 1].all[u].ws.status.resolved.Some?
    ensures u in ws[i].all
    ensures Restamps(ws[i].all[u].ws.status, ws[i + 1].all[u].ws.status, WantedSelector(ws[i].all[u].ws))
  {
    var s := steps[i];
    assert Enabled(ws[i], s) && ws[i + 1] == Next(ws[i], s);
    if s.ReconcileStep? {
      assert FaithfulStep(ws[i], s);
      VisitRestamps(ws[i].all[s.uid], s.visit, ws[i].now);
    } else if u in ws[i].all {
      assert Evolves(ws[i].all[u], s.all[u]);
    }
  }

  /** In every run, what is stamped on a status is what the user wanted at some
      moment up to now. */
  lemma {:induction false} StampIsAPastWish(ws: seq<World>, steps: seq<Step>, i: nat, u: string) returns (k: nat)
    requires Run(ws, steps) && i < |ws| && u in ws[i].all && ws[i].all[u].ws.status.resolved.Some?
    ensures k <= i && u in ws[k].all && WantedSelector(ws[k].all[u].ws) == EffectiveSelector(ws[i].all[u].ws)
  {
    var b := i - 1;
    StampStep(ws, steps, b, u);
    if ws[b].all[u].ws.status.resolved == ws[i].all[u].ws.status.resolved {
      k := StampIsAPastWish(ws, steps, b, u);
    } else {
      k := b;
    }
  }

  /** First come, first served on what users ask for, exactly. An older waiter that
      asks for the same selector as the workspace being deployed is passed over
      only if the selector stamped on it is another one; and then its request was
      that other one earlier in the run and has been edited since. */
  lemma PassedOverOnlyIfEdited(ws: seq<World>, steps: seq<Step>, i: nat, u: string) returns (k: nat)
    requires Run(ws, steps) && i < |steps| && steps[i].ReconcileStep? && steps[i].visit.wrote
    requires steps[i].uid in ws[i].all
    requires u in ws[i].all && !Gone(ws[i].all[u]) && u != steps[i].uid && ws[i].all[u].ws.status.phase == Waiting
    requires var (me, other) := (ws[i].all[steps[i].uid].ws, ws[i].all[u].ws);
             other.cluster == me.cluster && Older(other, me) && WantedSelector(other) == WantedSelector(me) != map[]
    ensures var other := ws[i].all[u].ws; Key(EffectiveSelector(other)) != Key(WantedSelector(other))
    ensures k < i && u in ws[k].all && WantedSelector(ws[k].all[u].ws) == EffectiveSelector(ws[i].all[u].ws)
  {
    NoQueueJumping(ws, steps, i, u);
    k := StampIsAPastWish(ws, steps, i, u);
  }

  /** `s` is one of those that hold `me` back. */
  ghost predicate Blocks(s: Workspace, me: Workspace) {
    s.uid != me.uid && Competes(s, me.cluster, WantedSelector(me)) && Older(s, me)
  }

  /** The stamp decides: in any listing, an older waiter asking for the same selector
      holds a workspace back if its stamped key is its requested key; otherwise it
      is as good as not there. */
  lemma StampDecides(all: seq<Workspace>, other: Workspace, me: Workspace)
    requires other in all && other.uid != me.uid && other.status.phase == Waiting && other.cluster == me.cluster
    requires Older(other, me)
    requires WantedSelector(other) == WantedSelector(me)
    ensures Blocks(other, me) <==> Key(EffectiveSelector(other)) == Key(WantedSelector(other))
    ensures Blocked(all, me, WantedSelector(me)) <==>
              || Key(EffectiveSelector(other)) == Key(WantedSelector(other))
              || exists s :: s in all && s != other && Blocks(s, me)
  {
  }

  /** Everything after the gate answers: the class, the cluster, the start. */
  predicate Answering(l: Local, a: Answers) {
    && a.class_.Got? && a.cluster.Got? && a.feasible
    && a.start.child && a.start.merges && a.start.serializes
    && a.start.namespaceReads && a.start.namespaceWrite.Written? && a.start.serviceSetReads && a.start.serviceSetWrites
    && (l.namespace.Some? ==> !l.namespace.value.terminating)
  }

  /** There is room for it: its nodes are there, with enough GPUs free for every
      replica. */
  ghost predicate Room(ws: Workspace, defaults: Spec, g: GateAnswers) {
    var sel := WantedSelector(ws);
    && g.child && g.nodes.Some? && g.pods.Some? && g.listed && Availability.Offered(g.nodes.value, sel)
    && forall n, k :: Asks(defaults, ws.resources, n, k) ==>
         Availability.Affords(g.nodes.value, g.pods.value, sel, n * k)
  }

  /** No workspace the API server holds blocks `u`. */
  ghost predicate OldestInLine(w: World, u: string) {
    u in w.all && forall o :: o in w.all && !Gone(w.all[o]) ==> !Blocks(w.all[o].ws, w.all[u].ws)
  }

  /** The oldest in line is served as soon as there is room: in every run, a visit
      that finds it Waiting, neither suspended nor being deleted, with enough GPUs
      free, prerequisites met and everything answering, deploys it. */
  lemma OldestIsServed(ws: seq<World>, steps: seq<Step>, i: nat)
    requires Run(ws, steps) && i < |steps| && steps[i].ReconcileStep? && OldestInLine(ws[i], steps[i].uid)
    requires var (l, v) := (ws[i].all[steps[i].uid], steps[i].visit);
             && LiveVisit(l) && (l.ws.finalizer || v.a.finalizerWrites) && Answering(l, v.a)
             && l.ws.status.phase == Waiting && WantedSelector(l.ws) != map[]
             && Room(l.ws, v.a.class_.item.defaults, v.a.gate)
             && PrerequisitesMet(v.a.class_.item.prerequisites, v.a.prereqs)
    ensures steps[i].visit.wrote
    ensures steps[i].visit.a.statusWrites ==> IsDeployed(ws[i + 1], steps[i].uid)
  {
    assert FaithfulStep(ws[i], steps[i]);
    assert Enabled(ws[i], steps[i]) && Lists(steps[i].visit.list, ws[i]);
    var l, v := ws[i].all[steps[i].uid], steps[i].visit;
    forall s | s in v.list ensures !Blocks(s, l.ws) {
      assert s == ws[i].all[s.uid].ws;
    }
    VisitServes(l, v, ws[i].now);
  }

  lemma VisitServes(l: Local, v: Visit, now: int)
    requires Faithful(l, v, now) && LiveVisit(l) && (l.ws.finalizer || v.a.finalizerWrites) && Answering(l, v.a)
    requires l.ws.status.phase == Waiting && WantedSelector(l.ws) != map[]
    requires Room(l.ws, v.a.class_.item.defaults, v.a.gate)
    requires PrerequisitesMet(v.a.class_.item.prerequisites, v.a.prereqs)
    requires !Blocked(v.list, l.ws, WantedSelector(l.ws))
    ensures v.wrote && (v.a.statusWrites ==> v.after.ws.status.phase == Deploying)
  {
    var m, st := WithFinalizer(l), l.ws.status;
    HonestFacts(l.ws, v.list, v.facts, v.a);
    GateIsAdmission(l.ws, v.a.class_.item, st, v.list, v.a.gate, v.facts);
    PrereqStageIsMet(st, v.a.class_.item, v.a.prereqs, v.facts);
    ReadyToStart(m, v.facts, v.a);
    WriteShape(m, v.facts, v.a);
    StartWrites(m, st, v.facts, v.a.start);
  }

  lemma ReadyToStart(l: Local, f: Facts, a: Answers)
    requires Answering(l, a) && Gated(l.ws.status.phase)
    requires Gate(l.ws.status, f, a.gate).Continue? && PrereqStage(l.ws.status, f).Continue?
    ensures Live(l, f, a).wrote
  {
  }

  // ---- phases ---------------------------------------------------------------

  predicate Deployed(p: Phase) {
    p == Deploying || p == Running
  }

  predicate Held(p: Phase) {
    p == Pending || p == Waiting || p == InstallingPrerequisites || p == Failed
  }

  /** The workspace's own release is reported deployed. */
  predicate ReleaseDeployed(l: Local) {
    l.serviceSet.Some? && Outcome(l.serviceSet.value.reports, l.ws.entry) == Prerequisites.Deployed
  }

  /** Every status a pass stores: a holding phase, Deploying with the ServiceSet
      written, or Running out of Deploying. */
  ghost predicate Reaches(l: Local, p: Pass) {
    p.write ==>
      || (Held(p.status.phase) && !p.wrote)
      || (p.status.phase == Deploying && p.wrote)
      || (p.status.phase == Running && !p.wrote && l.ws.status.phase == Deploying && ReleaseDeployed(l))
  }

  lemma StartReaches(l: Local, st: Status, f: Facts, s: StartAnswers)
    ensures Reaches(l, Start(l, st, f, s))
  {
  }

  lemma OrderReaches(l: Local, gate: Stage, prereqs: Stage, readiness: Pass, start: Pass, a: Answers)
    requires gate.End? && gate.write ==> Held(gate.status.phase)
    requires prereqs.End? && prereqs.write ==> Held(prereqs.status.phase)
    requires l.ws.status.phase == Deploying ==> Reaches(l, readiness)
    requires Reaches(l, start)
    ensures Reaches(l, StageOrder(l, gate, prereqs, readiness, start, a))
  {
  }

  lemma PassReaches(l: Local, f: Facts, a: Answers)
    ensures Reaches(l, Live(l, f, a))
  {
    var st := l.ws.status;
    StartReaches(l, st, f, a.start);
    OrderReaches(l, Gate(st, f, a.gate), PrereqStage(st, f),
      CheckReadiness(l, st, a.serviceSetReads, a.refetches), Start(l, st, f, a.start), a);
  }

  lemma VisitEntersByWriting(l: Local, v: Visit, now: int)
    requires Faithful(l, v, now)
    ensures Deployed(v.after.ws.status.phase) ==> Deployed(l.ws.status.phase) || v.wrote
  {
    if LiveVisit(l) {
      PassReaches(WithFinalizer(l), v.facts, v.a);
    } else if !Idle(l) && l.ws.finalizer {
      TeardownInOrder(l, v.d, now);
    }
  }

  ghost predicate IsDeployed(w: World, u: string) {
    u in w.all && Deployed(w.all[u].ws.status.phase)
  }

  /** Step `k` wrote the ServiceSet of `u`. */
  ghost predicate Wrote(steps: seq<Step>, k: int, u: string) {
    0 <= k < |steps| && steps[k].ReconcileStep? && steps[k].uid == u && steps[k].visit.wrote
  }

  lemma StepEntersByWriting(ws: seq<World>, steps: seq<Step>, i: nat, u: string)
    requires Run(ws, steps) && i < |steps|
    ensures IsDeployed(ws[i + 1], u) ==> IsDeployed(ws[i], u) || Wrote(steps, i, u)
  {
    var s := steps[i];
    assert Enabled(ws[i], s) && ws[i + 1] == Next(ws[i], s);
    if s.ReconcileStep? {
      assert FaithfulStep(ws[i], s);
      VisitEntersByWriting(ws[i].all[s.uid], s.visit, ws[i].now);
    } else if u in ws[i].all {
      assert Evolves(ws[i].all[u], s.all[u]);
    }
  }

  ghost predicate DeployedSince(ws: seq<World>, k: nat, i: nat, u: string)
    requires i < |ws|
  {
    forall h :: k < h <= i ==> IsDeployed(ws[h], u)
  }

  lemma SinceNext(ws: seq<World>, k: nat, i: nat, u: string)
    requires i + 1 < |ws| && IsDeployed(ws[i + 1], u) && (k < i ==> DeployedSince(ws, k, i, u)) && k <= i
    ensures DeployedSince(ws, k, i + 1, u)
  {
  }

  /** A workspace found Deploying or Running got there by a gated write, and has
      been Deploying or Running ever since. */
  lemma {:induction false} DeployedWasWritten(ws: seq<World>, steps: seq<Step>, i: nat, u: string) returns (k: nat)
    requires Run(ws, steps) && i < |ws| && IsDeployed(ws[i], u)
    ensures k < i && Wrote(steps, k, u) && DeployedSince(ws, k, i, u)
  {
    var b := i - 1;
    StepEntersByWriting(ws, steps, b, u);
    if IsDeployed(ws[b], u) {
      k := DeployedWasWritten(ws, steps, b, u);
    } else {
      k := b;
    }
    SinceNext(ws, k, b, u);
  }

  /** Running is entered only from Deploying, when the ServiceSet reports the
      workspace's own release deployed. */
  lemma RunningOnlyFromDeploying(l: Local, f: Facts, a: Answers)
    requires l.ws.status.phase != Running && LivePass(l, f, a).ws.status.phase == Running
    ensures l.ws.status.phase == Deploying && ReleaseDeployed(l)
  {
    PassReaches(WithFinalizer(l), f, a);
  }

  /** A Deploying workspace past its checks does what its release reports: Running
      when deployed, Failed out of Deploying when failed, nothing until then. */
  lemma DeployingSettles(l: Local, f: Facts, a: Answers)
    requires l.ws.status.phase == Deploying && l.ws.status.failure.None? && l.serviceSet.Some?
    requires a.class_.Got? && a.cluster.Got? && a.feasible && a.serviceSetReads && a.refetches
    requires PrereqStage(l.ws.status, f).Continue?
    ensures var (p, outcome) := (Live(l, f, a), Outcome(l.serviceSet.value.reports, l.ws.entry));
            && (p.write <==> outcome != Prerequisites.Unsettled)
            && (outcome == Prerequisites.Deployed ==> p.status.phase == Running)
            && (outcome == Prerequisites.Broken ==>
                  p.status.phase == Failed && p.status.failure == Some(FailureContext(Deploying, HelmReleaseFailed)))
  {
  }

  // ---- which answers matter when --------------------------------------------

  /** The GPU gate is not asked about a workspace that is deployed or has failed:
      whatever it would say, the pass is the same. */
  lemma GateNotAsked(l: Local, f: Facts, a: Answers, g: GateAnswers, sel: Selector, demand: int,
                     summary: Availability.Summary, blocked: bool)
    requires l.ws.status.phase in {Deploying, Running, Failed}
    ensures var f' := f.(selector := sel, demand := demand, summary := summary, blocked := blocked);
            Live(l, f', a.(gate := g)) == Live(l, f, a)
  {
    var st, f' := l.ws.status, f.(selector := sel, demand := demand, summary := summary, blocked := blocked);
    assert PrereqStage(st, f') == PrereqStage(st, f);
    OrderIgnoresGate(l, Gate(st, f, a.gate), Gate(st, f', g), PrereqStage(st, f),
      CheckReadiness(l, st, a.serviceSetReads, a.refetches), Start(l, st, f, a.start), Start(l, st, f', a.start), a, g);
  }

  lemma OrderIgnoresGate(l: Local, gate: Stage, gate': Stage, prereqs: Stage, readiness: Pass, start: Pass,
                         start': Pass, a: Answers, g: GateAnswers)
    requires l.ws.status.phase in {Deploying, Running, Failed}
    ensures StageOrder(l, gate', prereqs, readiness, start', a.(gate := g)) ==
              StageOrder(l, gate, prereqs, readiness, start, a)
  {
  }

  /** A failing feasibility refresh stops a workspace on its way to Running, unless it
      is waiting for GPUs; nothing is stored. In every other phase it makes no
      difference. */
  lemma FeasibilityMatters(l: Local, f: Facts, a: Answers)
    requires a.class_.Got? && a.cluster.Got?
    ensures var stopped := Live(l, f, a.(feasible := false));
            if l.ws.status.phase in {Running, Failed, Waiting} then stopped == Live(l, f, a.(feasible := true))
            else stopped == Ends(l, l.ws.status, false)
  {
  }

  /** Without its class a workspace fails; without its ClusterDeployment it is
      Pending, unless it is Running; when either cannot be read nothing is stored. In
      none of these cases is any object written. */
  lemma MissingParts(l: Local, f: Facts, a: Answers)
    ensures a.class_.NotFound? ==> Live(l, f, a) == Ends(l, MarkFailed(l.ws.status, ClassNotFound), true)
    ensures a.class_.Unavailable? ==> Live(l, f, a) == Ends(l, l.ws.status, false)
    ensures a.class_.Got? && l.ws.status.phase != Running && a.cluster.NotFound? ==>
              Live(l, f, a) == Ends(l, l.ws.status.(phase := Pending), true)
    ensures a.class_.Got? && l.ws.status.phase != Running && a.cluster.Unavailable? ==>
              Live(l, f, a) == Ends(l, l.ws.status, false)
  {
  }

  /** Routes are ensured exactly by a pass over a Running workspace whose
      prerequisites are in place; nothing else adds any, and no live pass removes
      any. */
  lemma RunningEnsuresRoutes(l: Local, f: Facts, a: Answers)
    requires a.class_.Got? ==> f.judgement == JudgementOf(a.class_.item, a.prereqs)
    ensures Live(l, f, a).routes <==>
              || l.routes
              || (&& l.ws.status.phase == Running && a.class_.Got? && a.routed
                  && PrerequisitesMet(a.class_.item.prerequisites, a.prereqs))
  {
    var st := l.ws.status;
    if a.class_.Got? {
      PrereqStageIsMet(st, a.class_.item, a.prereqs, f);
      StartKeepsRoutes(l, st, f, a.start);
      OrderRoutes(l, Gate(st, f, a.gate), PrereqStage(st, f),
        CheckReadiness(l, st, a.serviceSetReads, a.refetches), Start(l, st, f, a.start), a);
    }
  }

  lemma StartKeepsRoutes(l: Local, st: Status, f: Facts, s: StartAnswers)
    ensures Start(l, st, f, s).routes == l.routes
  {
  }

  lemma OrderRoutes(l: Local, gate: Stage, prereqs: Stage, readiness: Pass, start: Pass, a: Answers)
    requires readiness.routes == l.routes && start.routes == l.routes
    ensures StageOrder(l, gate, prereqs, readiness, start, a).routes <==>
              l.routes || (l.ws.status.phase == Running && a.routed && prereqs.Continue?)
  {
  }

  // ---- leaving Deploying, Running and Failed --------------------------------

  /** The judgements that send any workspace back to installing. */
  predicate Reinstalls(f: Facts) {
    && f.judgement.Some? && f.judgement.value.Judged?
    && (|| f.judgement.value.verdict == Prerequisites.SomeInstalling
        || (f.judgement.value.verdict == Prerequisites.SomeMissing && f.installed))
  }

  /** The pass reaches its stages and its status write succeeds. */
  predicate Effective(l: Local, a: Answers) {
    (l.ws.finalizer || a.finalizerWrites) && a.statusWrites && a.class_.Got?
  }

  /** One pass over a deployed workspace exposes it to the gate again if and only if
      its ClusterDeployment is missing while it is Deploying, or a prerequisite is
      being installed again. */
  lemma PassRegatesExactly(l: Local, f: Facts, a: Answers)
    requires Deployed(l.ws.status.phase)
    ensures Gated(LivePass(l, f, a).ws.status.phase) <==>
              && Effective(l, a)
              && (|| (l.ws.status.phase == Deploying && a.cluster.NotFound?)
                  || ((l.ws.status.phase == Running || (a.cluster.Got? && a.feasible)) && Reinstalls(f)))
  {
  }

  /** A running workspace whose prerequisite disappears is gated afresh: if its
      nodes are then gone too, the gate fails it, release and all. */
  lemma RunningCanFailTheGate(l: Local, f: Facts, a: Answers, f': Facts, a': Answers)
    requires l.ws.status.phase == Running && l.serviceSet.Some?
    requires Effective(l, a) && Reinstalls(f)
    requires a'.statusWrites && a'.class_.Got? && a'.cluster.Got? && a'.feasible
    requires f'.selector != map[] && !f'.summary.found && a'.gate.child && a'.gate.nodes.Some? && a'.gate.pods.Some?
    ensures var l' := LivePass(l, f, a);
            var l'' := LivePass(l', f', a');
            && l'.ws.status.phase == InstallingPrerequisites && l''.ws.status.phase == Failed
            && l''.ws.status.failure == Some(FailureContext(InstallingPrerequisites, GpuOfferingUnavailable))
            && l''.serviceSet == l.serviceSet
  {
  }

  lemma InstallingPass(l: Local, f: Facts, a: Answers)
    requires l.ws.status.phase == Running && Effective(l, a) && Reinstalls(f)
    ensures var l' := LivePass(l, f, a);
            && l'.ws == l.ws.(finalizer := true, status := l.ws.status.(phase := InstallingPrerequisites))
            && l'.serviceSet == l.serviceSet
  {
  }

  lemma HonestFacts(ws: Workspace, all: seq<Workspace>, f: Facts, a: Answers)
    requires Honest(ws, all, f, a) && a.class_.Got?
    ensures f.selector == WantedSelector(ws) && f.summary == SummaryOf(f.selector, a.gate)
    ensures f.judgement == JudgementOf(a.class_.item, a.prereqs) && f.blocked == Blocked(all, ws, f.selector)
    ensures f.installed == InstallOf(a.class_.item, a.prereqs).1 && f.demand == GpuDemand(f.merged)
    ensures f.merged == MergeResources(a.class_.item.defaults, ws.resources)
    ensures GateFacts(ws, a.class_.item, all, f, a.gate)
  {
    ClassCannotPinGpu(a.class_.item.defaults, ws.resources);
  }

  lemma GateFails(l: Local, f: Facts, a: Answers)
    requires l.ws.status.phase == Pending && Effective(l, a) && a.cluster.Got? && a.feasible
    requires f.selector != map[] && !f.summary.found && a.gate.child && a.gate.nodes.Some? && a.gate.pods.Some?
    ensures LivePass(l, f, a).ws.status.failure == Some(FailureContext(Pending, GpuOfferingUnavailable))
    ensures LivePass(l, f, a).serviceSet == l.serviceSet
  {
  }

  /** Failed is left if and only if the ClusterDeployment is missing or a
      prerequisite is being installed again. */
  lemma FailedLeftExactly(l: Local, f: Facts, a: Answers)
    requires l.ws.status.phase == Failed && l.ws.status.failure.Some?
    ensures LivePass(l, f, a).ws.status.phase != Failed <==>
              Effective(l, a) && (a.cluster.NotFound? || (a.cluster.Got? && Reinstalls(f)))
  {
  }

  /** After a pass that wrote the ServiceSet, the gate will be asked again exactly
      when the status write was lost: the ServiceSet exists all the same. */
  lemma LostWriteRegates(l: Local, f: Facts, a: Answers)
    requires (l.ws.finalizer || a.finalizerWrites) && Live(WithFinalizer(l), f, a).wrote
    ensures Gated(LivePass(l, f, a).ws.status.phase) <==> !a.statusWrites
    ensures LivePass(l, f, a).serviceSet.Some?
  {
    WriteShape(WithFinalizer(l), f, a);
    StartWrites(WithFinalizer(l), l.ws.status, f, a.start);
  }

  // ---- re-gating, over whole runs -------------------------------------------

  /** The three ways back to the gate: the status write that follows a ServiceSet
      write is lost; the ClusterDeployment of a Deploying or Failed workspace is
      missing; a prerequisite is being installed again. */
  ghost predicate OpensBy(l: Local, v: Visit) {
    var phase := l.ws.status.phase;
    LiveVisit(l) &&
      (|| (v.wrote && !v.a.statusWrites)
       || (Effective(l, v.a) && (phase == Deploying || phase == Failed) && v.a.cluster.NotFound?)
       || (Effective(l, v.a) && !Gated(phase) && Reinstalls(v.facts)
           && (phase == Running || v.a.cluster.Got?) && (phase == Deploying ==> v.a.feasible)))
  }

  ghost predicate Opens(w: World, s: Step, u: string) {
    u in w.all && s.ReconcileStep? && s.uid == u && OpensBy(w.all[u], s.visit)
  }

  lemma VisitOpens(l: Local, v: Visit, now: int)
    requires Faithful(l, v, now) && l.ws.deletedAt.None? && Healthy(l)
    requires !Gated(l.ws.status.phase) || v.wrote
    ensures Gated(v.after.ws.status.phase) <==> OpensBy(l, v)
  {
    if v.wrote {
      WriteShape(WithFinalizer(l), v.facts, v.a);
      LostWriteRegates(l, v.facts, v.a);
    } else if LiveVisit(l) {
      if l.ws.status.phase == Failed {
        FailedLeftExactly(l, v.facts, v.a);
        PassReaches(WithFinalizer(l), v.facts, v.a);
      } else {
        PassRegatesExactly(l, v.facts, v.a);
      }
    }
  }

  /** Present and not marked for deletion. */
  ghost predicate Unmarked(w: World, u: string) {
    u in w.all && w.all[u].ws.deletedAt.None?
  }

  ghost predicate IsGated(w: World, u: string) {
    u in w.all && Gated(w.all[u].ws.status.phase)
  }

  /** Each of the three does open the gate, and nothing else does. */
  lemma StepOpens(ws: seq<World>, steps: seq<Step>, h: nat, u: string)
    requires Run(ws, steps) && h < |steps| && Unmarked(ws[h], u) && (IsGated(ws[h], u) ==> Wrote(steps, h, u))
    ensures IsGated(ws[h + 1], u) <==> Opens(ws[h], steps[h], u)
  {
    var s := steps[h];
    assert Enabled(ws[h], s) && ws[h + 1] == Next(ws[h], s);
    if s.ReconcileStep? {
      if s.uid == u {
        RunKeepsInv(ws, steps, h);
        assert Healthy(ws[h].all[u]);
        assert FaithfulStep(ws[h], s);
        VisitOpens(ws[h].all[u], s.visit, ws[h].now);
      }
    } else {
      assert Evolves(ws[h].all[u], s.all[u]);
    }
  }

  lemma StepKeepsMark(ws: seq<World>, steps: seq<Step>, i: nat, u: string)
    requires Run(ws, steps) && i < |steps| && u in ws[i].all
    ensures u in ws[i + 1].all && (Unmarked(ws[i + 1], u) ==> Unmarked(ws[i], u))
  {
    if Marked(ws[i], u) {
      StepAddsNothing(ws, steps, i, u);
    } else {
      assert Enabled(ws[i], steps[i]) && ws[i + 1] == Next(ws[i], steps[i]);
    }
  }

  ghost predicate GatedSince(ws: seq<World>, h: nat, j: nat, u: string)
    requires j < |ws|
  {
    forall m :: h < m <= j ==> IsGated(ws[m], u)
  }

  lemma GatedNext(ws: seq<World>, h: nat, j: nat, u: string)
    requires h <= j && j + 1 < |ws| && IsGated(ws[j + 1], u) && (h < j ==> GatedSince(ws, h, j, u))
    ensures GatedSince(ws, h, j + 1, u)
  {
  }

  /** The last opening before `j`. */
  lemma {:induction false} LastOpening(ws: seq<World>, steps: seq<Step>, k: nat, j: nat, u: string) returns (h: nat)
    requires Run(ws, steps) && k < j < |ws| && Wrote(steps, k, u) && u in ws[k].all && Unmarked(ws[j], u)
    requires IsGated(ws[j], u)
    ensures k <= h < j && Opens(ws[h], steps[h], u) && GatedSince(ws, h, j, u)
    decreases j
  {
    var b := j - 1;
    StillThere(ws, steps, k, b, u);
    StepKeepsMark(ws, steps, b, u);
    if b > k && IsGated(ws[b], u) {
      h := LastOpening(ws, steps, k, b, u);
    } else {
      StepOpens(ws, steps, b, u);
      h := b;
    }
    GatedNext(ws, h, b, u);
  }

  lemma {:induction false} StillThere(ws: seq<World>, steps: seq<Step>, k: nat, j: nat, u: string)
    requires Run(ws, steps) && k <= j < |ws| && u in ws[k].all
    ensures u in ws[j].all
    decreases j
  {
    if k < j {
      StillThere(ws, steps, k, j - 1, u);
      StepKeepsMark(ws, steps, j - 1, u);
      assert ws[j - 1 + 1] == ws[j];
    }
  }

  lemma {:induction false} UnmarkedBefore(ws: seq<World>, steps: seq<Step>, k: nat, j: nat, u: string)
    requires Run(ws, steps) && k <= j < |ws| && u in ws[k].all && Unmarked(ws[j], u)
    ensures Unmarked(ws[k], u)
    decreases j - k
  {
    if k < j {
      StepKeepsMark(ws, steps, k, u);
      UnmarkedBefore(ws, steps, k + 1, j, u);
    }
  }

  ghost predicate NeverGated(ws: seq<World>, k: nat, j: nat, u: string)
    requires j < |ws|
  {
    forall m :: k < m <= j ==> !IsGated(ws[m], u)
  }

  ghost predicate NeverOpens(ws: seq<World>, steps: seq<Step>, k: nat, j: nat, u: string)
    requires j <= |steps| && j <= |ws|
  {
    forall h :: k <= h < j ==> !Opens(ws[h], steps[h], u)
  }

  /** "A deployed workspace must never be re-gated", exactly and over whole runs:
      from the write of its ServiceSet on, for as long as it is not being deleted, a
      workspace is never exposed to the gate if and only if none of the three ways
      back is ever taken. */
  lemma RegatedExactly(ws: seq<World>, steps: seq<Step>, k: nat, j: nat, u: string)
    requires Run(ws, steps) && k < j < |ws| && Wrote(steps, k, u) && Unmarked(ws[j], u)
    ensures NeverGated(ws, k, j, u) <==> NeverOpens(ws, steps, k, j, u)
  {
    assert Enabled(ws[k], steps[k]);
    if NeverGated(ws, k, j, u) {
      forall h: nat | k <= h < j ensures !Opens(ws[h], steps[h], u) {
        OpeningShows(ws, steps, k, h, j, u);
      }
    } else {
      var m :| k < m <= j && IsGated(ws[m], u);
      UnmarkedBefore(ws, steps, m, j, u);
      var h := LastOpening(ws, steps, k, m, u);
    }
  }

  /** An opening is seen at once. */
  lemma OpeningShows(ws: seq<World>, steps: seq<Step>, k: nat, h: nat, j: nat, u: string)
    requires Run(ws, steps) && k <= h < j < |ws| && Wrote(steps, k, u) && u in ws[k].all && Unmarked(ws[j], u)
    requires h > k ==> !IsGated(ws[h], u)
    ensures Opens(ws[h], steps[h], u) <==> IsGated(ws[h + 1], u)
  {
    StillThere(ws, steps, k, h, u);
    UnmarkedBefore(ws, steps, h, j, u);
    StepOpens(ws, steps, h, u);
  }

  // ---- failure forensics ----------------------------------------------------

  /** In every reachable state: Failed has a failure context from another phase,
      Deploying and Running have none. */
  lemma FailuresAreRecorded(ws: seq<World>, steps: seq<Step>, i: nat, u: string)
    requires Run(ws, steps) && i < |ws| && u in ws[i].all
    ensures var st := ws[i].all[u].ws.status;
            && (st.phase == Failed ==> st.failure.Some? && st.failure.value.phaseWhenFailed != Failed)
            && (Deployed(st.phase) ==> st.failure.None?)
  {
    RunKeepsInv(ws, steps, i);
    assert Healthy(ws[i].all[u]);
  }

  /** A failure that a pass newly records names the phase the workspace was in. */
  ghost predicate Blames(st: Status, st': Status) {
    st.phase != Failed && st'.phase == Failed ==>
      st'.failure.Some? && st'.failure.value.phaseWhenFailed == if st.phase == NoPhase then Pending else st.phase
  }

  lemma OrderBlames(l: Local, gate: Stage, prereqs: Stage, readiness: Pass, start: Pass, a: Answers)
    requires gate.End? ==> Blames(l.ws.status, gate.status)
    requires prereqs.End? ==> Blames(l.ws.status, prereqs.status)
    requires Blames(l.ws.status, readiness.status) && Blames(l.ws.status, start.status)
    ensures Blames(l.ws.status, StageOrder(l, gate, prereqs, readiness, start, a).status)
  {
  }

  lemma GateBlames(st: Status, f: Facts, g: GateAnswers)
    ensures var s := Gate(st, f, g); s.End? ==> Blames(st, s.status)
  {
  }

  lemma PrereqsBlame(st: Status, f: Facts)
    ensures var s := PrereqStage(st, f); s.End? ==> Blames(st, s.status)
  {
  }

  lemma StartBlames(l: Local, f: Facts, s: StartAnswers)
    ensures Blames(l.ws.status, Start(l, l.ws.status, f, s).status)
  {
  }

  lemma FailureNamesItsPhase(l: Local, f: Facts, a: Answers)
    ensures Blames(l.ws.status, Live(l, f, a).status)
  {
    var st := l.ws.status;
    GateBlames(st, f, a.gate);
    PrereqsBlame(st, f);
    StartBlames(l, f, a.start);
    OrderBlames(l, Gate(st, f, a.gate), PrereqStage(st, f),
      CheckReadiness(l, st, a.serviceSetReads, a.refetches), Start(l, st, f, a.start), a);
  }

  lemma PassKeepsFailure(l: Local, f: Facts, a: Answers)
    requires l.ws.status.phase == Failed && l.ws.status.failure.Some?
    requires LivePass(l, f, a).ws.status.phase == Failed
    ensures LivePass(l, f, a).ws.status.failure == l.ws.status.failure
  {
  }

  lemma VisitKeepsFailure(l: Local, v: Visit, now: int)
    requires Faithful(l, v, now) && l.ws.status.phase == Failed && l.ws.status.failure.Some?
    requires v.after.ws.status.phase == Failed
    ensures v.after.ws.status.failure == l.ws.status.failure
  {
    if LiveVisit(l) {
      PassKeepsFailure(l, v.facts, v.a);
    } else if !Idle(l) && l.ws.finalizer {
      TeardownInOrder(l, v.d, now);
    }
  }

  ghost predicate IsFailed(w: World, u: string) {
    u in w.all && w.all[u].ws.status.phase == Failed
  }

  lemma StepKeepsFailure(ws: seq<World>, steps: seq<Step>, i: nat, u: string)
    requires Run(ws, steps) && i < |steps| && IsFailed(ws[i], u) && IsFailed(ws[i + 1], u)
    ensures ws[i + 1].all[u].ws.status.failure == ws[i].all[u].ws.status.failure
  {
    RunKeepsInv(ws, steps, i);
    assert Healthy(ws[i].all[u]);
    var s := steps[i];
    assert Enabled(ws[i], s) && ws[i + 1] == Next(ws[i], s);
    if s.ReconcileStep? {
      assert FaithfulStep(ws[i], s);
      if s.uid == u {
        VisitKeepsFailure(ws[i].all[u], s.visit, ws[i].now);
      }
    } else {
      assert Evolves(ws[i].all[u], s.all[u]);
    }
  }

  ghost predicate FailedThroughout(ws: seq<World>, i: nat, j: nat, u: string)
    requires i <= j < |ws|
  {
    forall h :: i <= h <= j ==> IsFailed(ws[h], u)
  }

  /** While a workspace stays Failed, its failure context never changes. */
  lemma {:induction false} FailureIsFrozen(ws: seq<World>, steps: seq<Step>, i: nat, j: nat, u: string)
    requires Run(ws, steps) && i <= j < |ws| && FailedThroughout(ws, i, j, u)
    ensures IsFailed(ws[i], u) && IsFailed(ws[j], u)
    ensures ws[j].all[u].ws.status.failure == ws[i].all[u].ws.status.failure
    decreases j - i
  {
    if i < j {
      var k := j - 1;
      FailureIsFrozen(ws, steps, i, k, u);
      assert IsFailed(ws[k + 1], u);
      StepKeepsFailure(ws, steps, k, u);
    }
  }

  // ---- deletion -------------------------------------------------------------

  /** In every run, a workspace whose finalizer the operator removed has no
      ServiceSet; its routes are gone unless their cleanup was skipped or
      abandoned; its namespace is gone or terminating unless the cluster was gone
      or the cleanup abandoned. */
  lemma FinalizedIsClean(ws: seq<World>, steps: seq<Step>, i: nat, u: string)
    requires Run(ws, steps) && i < |ws| && u in ws[i].torn
    ensures u in ws[i].all && Clean(ws[i].all[u], ws[i].torn[u])
  {
    RunKeepsInv(ws, steps, i);
  }

  /** Whatever the operator holds for a workspace is guarded by its finalizer. */
  lemma OwnedIsGuarded(ws: seq<World>, steps: seq<Step>, i: nat, u: string)
    requires Run(ws, steps) && i < |ws| && u in ws[i].all
    requires ws[i].all[u].serviceSet.Some? || (ws[i].all[u].routes && ws[i].all[u].ws.deletedAt.None?)
    ensures ws[i].all[u].ws.finalizer && u !in ws[i].torn
  {
    RunKeepsInv(ws, steps, i);
    assert Healthy(ws[i].all[u]);
  }

  ghost predicate Marked(w: World, u: string) {
    u in w.all && w.all[u].ws.deletedAt.Some?
  }

  /** No more than before, but for a namespace a still draining release may bring
      back. */
  ghost predicate NoNew(l: Local, l': Local) {
    && (l'.serviceSet.Some? ==> l.serviceSet.Some?) && (l'.routes ==> l.routes)
    && (l'.namespace.Some? ==> l.namespace.Some? || l.serviceSet.Some?)
    && l'.ws.deletedAt == l.ws.deletedAt
  }

  lemma VisitAddsNothing(l: Local, v: Visit, now: int)
    requires Faithful(l, v, now) && l.ws.deletedAt.Some?
    ensures NoMore(v.after, l) && v.after.ws.deletedAt == l.ws.deletedAt
  {
    if !Idle(l) {
      TeardownInOrder(l, v.d, now);
    }
  }

  /** After the deletion mark, no step creates a route or a ServiceSet, and no
      reconcile step creates a namespace: only the environment may bring one back,
      and only while a ServiceSet is left. */
  lemma StepAddsNothing(ws: seq<World>, steps: seq<Step>, i: nat, u: string)
    requires Run(ws, steps) && i < |steps| && Marked(ws[i], u)
    ensures Marked(ws[i + 1], u) && NoNew(ws[i].all[u], ws[i + 1].all[u])
    ensures steps[i].ReconcileStep? ==> NoMore(ws[i + 1].all[u], ws[i].all[u])
  {
    var s := steps[i];
    assert Enabled(ws[i], s) && ws[i + 1] == Next(ws[i], s);
    if s.ReconcileStep? {
      assert FaithfulStep(ws[i], s);
      if s.uid == u {
        VisitAddsNothing(ws[i].all[u], s.visit, ws[i].now);
      }
    } else {
      assert Evolves(ws[i].all[u], s.all[u]);
    }
  }

  lemma NoNewTwice(a: Local, b: Local, c: Local)
    requires NoNew(a, b) && NoNew(b, c)
    ensures NoNew(a, c)
  {
  }

  /** After the deletion mark, however many steps later: no route and no ServiceSet
      that was not there, and a namespace only if there was one or a ServiceSet to
      bring it back. */
  lemma {:induction false} NothingCreatedAfterMark(ws: seq<World>, steps: seq<Step>, i: nat, j: nat, u: string)
    requires Run(ws, steps) && i <= j < |ws| && Marked(ws[i], u)
    ensures Marked(ws[j], u) && NoNew(ws[i].all[u], ws[j].all[u])
    decreases j - i
  {
    if i < j {
      var k := j - 1;
      NothingCreatedAfterMark(ws, steps, i, k, u);
      StepAddsNothing(ws, steps, k, u);
      NoNewTwice(ws[i].all[u], ws[k].all[u], ws[k + 1].all[u]);
    }
  }

  /** The finalizer goes only in a pass that went through the whole teardown, in
      order. */
  lemma FinalizerGoesLast(ws: seq<World>, steps: seq<Step>, i: nat, u: string)
    requires Run(ws, steps) && i < |steps| && u in ws[i].all
    ensures u in ws[i + 1].all
    ensures ws[i].all[u].ws.finalizer && !ws[i + 1].all[u].ws.finalizer ==>
              && steps[i].ReconcileStep? && steps[i].uid == u && ws[i].all[u].ws.deletedAt.Some?
                  && !ws[i].all[u].ws.suspended
              && u in ws[i + 1].torn && ws[i + 1].torn[u] == steps[i].visit.ops && |steps[i].visit.ops| == 4
              && Truthful(Teardown(steps[i].visit.after, steps[i].visit.ops), steps[i].visit.d,
                  PastGrace(ws[i].all[u], ws[i].now))
  {
    var s := steps[i];
    assert Enabled(ws[i], s) && ws[i + 1] == Next(ws[i], s);
    if s.Environment? {
      assert Evolves(ws[i].all[u], s.all[u]);
    } else {
      assert FaithfulStep(ws[i], s);
      FinalizerGoes(ws[i].all[s.uid], s.visit, ws[i].now);
    }
  }

  lemma FinalizerGoes(l: Local, v: Visit, now: int)
    requires Faithful(l, v, now)
    ensures l.ws.finalizer && !v.after.ws.finalizer ==>
              && l.ws.deletedAt.Some? && !l.ws.suspended && |v.ops| == 4
              && Truthful(Teardown(v.after, v.ops), v.d, PastGrace(l, now))
  {
    if !Idle(l) && l.ws.deletedAt.Some? {
      TeardownInOrder(l, v.d, now);
    }
  }

  // ---- how deletion ends ----------------------------------------------------

  /** A deletion pass is due: marked, with the finalizer in place. */
  predicate Due(l: Local) {
    l.ws.deletedAt.Some? && l.ws.finalizer
  }

  /** More than ten minutes since the deletion mark. */
  predicate PastGrace(l: Local, now: int) {
    l.ws.deletedAt.Some? && now - l.ws.deletedAt.value > 600
  }

  /** The cluster is not there, or is being deleted itself. */
  predicate NoCluster(d: DeleteAnswers) {
    d.cluster == NotFound || d.cluster == Got(true)
  }

  /** With the management cluster up, a pass finishes exactly when the workspace is
      not suspended, the routes are dealt with, and either the cluster is gone, or
      the ServiceSet is not draining and the namespace yields; the grace period
      excuses routes and namespace, never the ServiceSet. */
  lemma FinishesExactly(l: Local, f: Facts, a: Answers, d: DeleteAnswers, now: int)
    requires Due(l) && ManagementUp(d)
    ensures !Reconciled(l, f, a, d, now).local.ws.finalizer <==>
              && !l.ws.suspended
              && (!d.cleanup.CleanupFailed? || PastGrace(l, now))
              && (NoCluster(d) || (!Draining(l) && (NamespaceYields(l, d) || PastGrace(l, now))))
  {
  }

  /** A ServiceSet without a cluster goes at once if every call it takes answers. */
  predicate ForcedAway(l: Local, d: DeleteAnswers) {
    l.serviceSet.Some? ==>
      && (l.serviceSet.value.terminating || d.serviceSetDeletes)
      && (l.serviceSet.value.finalizers ==> d.finalizersClear)
  }

  /** A ServiceSet with a live cluster goes in this pass only if nothing holds it. */
  predicate DrainedAway(l: Local, d: DeleteAnswers) {
    l.serviceSet.Some? ==> !l.serviceSet.value.finalizers && d.serviceSetDeletes && d.serviceSetRereads
  }

  /** When a pass finishes, for every combination of answers: the routes are dealt
      with, the cluster and the ServiceSet can be read, the ServiceSet goes, so does
      the namespace or it is given up, and the finalizer can be removed. */
  lemma FinishesByAnswers(l: Local, f: Facts, a: Answers, d: DeleteAnswers, now: int)
    requires Due(l)
    ensures !Reconciled(l, f, a, d, now).local.ws.finalizer <==>
              && !l.ws.suspended
              && (!d.cleanup.CleanupFailed? || PastGrace(l, now))
              && !d.cluster.Unavailable? && d.serviceSetReads && d.finalizerWrites
              && (if NoCluster(d) then ForcedAway(l, d)
                  else DrainedAway(l, d) && (NamespaceYields(l, d) || PastGrace(l, now)))
  {
    if !l.ws.suspended {
      var m, expired := MarkDeleting(l, d.statusWrites), PastGrace(l, now);
      StagesFinish(m, d, expired);
      var ns := if NoCluster(d) then (m.namespace, Some(NamespaceSkipped)) else NamespaceStage(m.namespace, d, expired);
      OrderFinishes(m, RoutesStage(m.routes, d.cleanup, expired), ServiceSetStage(m.serviceSet, d), ns, d);
    }
  }

  lemma StagesFinish(l: Local, d: DeleteAnswers, expired: bool)
    ensures RoutesStage(l.routes, d.cleanup, expired).1.Some? <==> !d.cleanup.CleanupFailed? || expired
    ensures ServiceSetStage(l.serviceSet, d).1.Some? <==>
              d.serviceSetReads && if NoCluster(d) then ForcedAway(l, d) else DrainedAway(l, d)
    ensures NamespaceStage(l.namespace, d, expired).1.Some? <==> NamespaceYields(l, d) || expired
  {
  }

  lemma OrderFinishes(l: Local, routes: (bool, Option<Op>), ss: (Option<ServiceSet>, Option<Op>),
                      ns: (Option<Namespace>, Option<Op>), d: DeleteAnswers)
    requires l.ws.finalizer
    ensures !InOrder(l, routes, ss, ns, d).local.ws.finalizer <==>
              routes.1.Some? && !d.cluster.Unavailable? && ss.1.Some? && ns.1.Some? && d.finalizerWrites
  {
  }

  /** Past the grace period, with the management cluster up and suspend off, whatever
      the remote clusters do: the finalizer stays if and only if the cluster is live
      and its ServiceSet is draining. With the cluster gone, no ServiceSet is left. */
  lemma PastGraceOnlyDrainingHolds(l: Local, f: Facts, a: Answers, d: DeleteAnswers, now: int)
    requires Due(l) && !l.ws.suspended && PastGrace(l, now) && ManagementUp(d)
    ensures var l' := Reconciled(l, f, a, d, now).local;
            (l'.ws.finalizer <==> !NoCluster(d) && Draining(l)) && (NoCluster(d) ==> l'.serviceSet.None?)
  {
  }

  /** With the cluster gone and route cleanup answering, not even the grace period
      is waited for. */
  lemma GoneClusterNeedsNoGrace(l: Local, f: Facts, a: Answers, d: DeleteAnswers, now: int)
    requires Due(l) && !l.ws.suspended && ManagementUp(d) && NoCluster(d) && !d.cleanup.CleanupFailed?
    ensures var l' := Reconciled(l, f, a, d, now).local; !l'.ws.finalizer && l'.serviceSet.None?
  {
  }

  /** A draining ServiceSet on a live cluster, however old the deletion: the grace
      period never forces it. */
  lemma DrainingIsNeverForced(l: Local, f: Facts, a: Answers, d: DeleteAnswers, now: int)
    requires Due(l) && !NoCluster(d) && Draining(l)
    ensures var l' := Reconciled(l, f, a, d, now).local; l'.ws.finalizer && l'.serviceSet.Some?
  {
  }

  /** A pass that is due says so on the status if it can, and one that gets as far as
      a live cluster's ServiceSet leaves it gone or marked for deletion. */
  lemma DeletionIsRequested(l: Local, f: Facts, a: Answers, d: DeleteAnswers, now: int)
    requires Due(l) && !l.ws.suspended
    ensures var l' := Reconciled(l, f, a, d, now).local;
            && l'.ws.status == (if d.statusWrites then l.ws.status.(phase := Deleting) else l.ws.status)
            && ((!d.cleanup.CleanupFailed? || PastGrace(l, now)) && d.cluster.Got? &&
                d.serviceSetReads && d.serviceSetDeletes && l'.serviceSet.Some? ==>
                  l'.serviceSet.value.terminating)
  {
  }
}
