/** Concrete workspaces that show the limits of the lifecycle's promises. */
module LifecycleExamples {
  import opened Text
  import opened SelectorKey
  import opened Nodes
  import opened Resources
  import opened Workspaces
  import opened Lifecycle
  import opened Deletion
  import opened LifecycleRuns
  import opened LifecycleSafety
  import Availability
  import Prerequisites

  const NOTHING := Spec(None, None, None, None, None, None, None, None)
  const CLASS := Class("t", None, NOTHING, [Prerequisites.Prereq("p", "", "")], map[], map[])
  const SELECTOR: Selector := map["gpu" := "x"]
  const EXAMPLE := Local(
    Workspace("u", "w", 0, "c", "w", Some(NOTHING.(gpuNodeSelector := Some(SELECTOR))), map[], false, None, true,
        Status(Running, None, None)),
    Some(ServiceSet(Release("t", "ws-w", 900, map[]), Some("u"), [], false, false)), None, false)

  /** Everything answers; the cluster has no node and nobody provides `p`. */
  const ANSWERS := Answers(true, Got(CLASS), Got(()), true, GateAnswers(true, Some([]), Some([]), true),
    PrereqAnswers(Got(Prerequisites.Services([], [])), map[], {}, Prerequisites.Refusals({}, {})),
    StartAnswers(true, Some([]), true, true, map[], true, Written, true, true), true, true, false, true)

  lemma ExampleFacts(ws: Workspace, f: Facts)
    requires ws.resources == EXAMPLE.ws.resources
    requires f.selector == WantedSelector(ws) && f.summary == SummaryOf(f.selector, ANSWERS.gate)
    requires f.judgement == JudgementOf(CLASS, ANSWERS.prereqs) && f.installed == InstallOf(CLASS, ANSWERS.prereqs).1
    ensures f.selector != map[] && !f.summary.found && Reinstalls(f)
  {
    Prerequisites.OneMissing(Prerequisites.Services([], []), map[], Prerequisites.Prereq("p", "", ""));
    Prerequisites.WillingProvides(map[], Got(Prerequisites.Services([], [])), {}, CLASS.prerequisites);
    assert f.selector["gpu"] == "x";
  }

  /** It does happen: a concrete running workspace, two passes later. */
  lemma DeployedIsRegated(f: Facts, f': Facts)
    requires Honest(EXAMPLE.ws, [], f, ANSWERS) && Honest(LivePass(EXAMPLE, f, ANSWERS).ws, [], f', ANSWERS)
    ensures var l := LivePass(LivePass(EXAMPLE, f, ANSWERS), f', ANSWERS);
            EXAMPLE.ws.status.phase == Running && l.ws.status.phase == Failed && l.serviceSet.Some?
  {
    HonestFacts(EXAMPLE.ws, [], f, ANSWERS);
    ExampleFacts(EXAMPLE.ws, f);
    InstallingPass(EXAMPLE, f, ANSWERS);
    var ws' := LivePass(EXAMPLE, f, ANSWERS).ws;
    HonestFacts(ws', [], f', ANSWERS);
    ExampleFacts(ws', f');
    RunningCanFailTheGate(EXAMPLE, f, ANSWERS, f', ANSWERS);
  }

  /** Nor is Failed a shelter: a running workspace whose class disappears fails;
      when its ClusterDeployment is missing next it is Pending; then the gate is
      asked and fails it, with its ServiceSet still in place. */
  lemma FailedIsRegated(f: Facts, f': Facts, f'': Facts)
    requires var l := LivePass(EXAMPLE, f, ANSWERS.(class_ := NotFound));
             var l' := LivePass(l, f', ANSWERS.(cluster := NotFound));
             Honest(l'.ws, [], f'', ANSWERS)
    ensures var l := LivePass(EXAMPLE, f, ANSWERS.(class_ := NotFound));
            var l' := LivePass(l, f', ANSWERS.(cluster := NotFound));
            var l'' := LivePass(l', f'', ANSWERS);
            && l.ws.status.phase == Failed && l'.ws.status.phase == Pending && l'.ws.status.failure.Some?
            && l''.ws.status.failure == Some(FailureContext(Pending, GpuOfferingUnavailable)) && l''.serviceSet.Some?
  {
    var l := LivePass(EXAMPLE, f, ANSWERS.(class_ := NotFound));
    var l' := LivePass(l, f', ANSWERS.(cluster := NotFound));
    assert l'.ws.resources == EXAMPLE.ws.resources && l'.ws.status.phase == Pending && l'.serviceSet.Some?;
    HonestFacts(l'.ws, [], f'', ANSWERS);
    ExampleFacts(l'.ws, f'');
    GateFails(l', f'', ANSWERS);
  }

  // ---- an edited waiter is passed over --------------------------------------

  const OTHER: Selector := map["gpu" := "y"]

  function Asking(uid: string, created: int, sel: Selector, count: Option<int>): Local {
    Local(Workspace(uid, uid, created, "c", uid, Some(NOTHING.(gpuNodeSelector := Some(sel), gpuCount := count)), map[],
                    false, None, false, Status(NoPhase, None, None)), None, None, false)
  }

  /** Older, asks for two GPUs of kind `x`. */
  const WAITER := Asking("a", 0, SELECTOR, Some(2))

  /** Younger, asks for kind `y`. */
  const NEWCOMER := Asking("b", 1, OTHER, None)

  function OneNode(kind: string): seq<Node> {
    [Node("n", false, [], map["gpu" := kind], map[NVIDIA := 1])]
  }

  /** Everything answers; the cluster has one node, with one GPU of that kind. */
  function OneGpu(kind: string): Answers {
    Answers(true, Got(Class("t", None, NOTHING, [], map[], map[])), Got(()), true, GateAnswers(true,
        Some(OneNode(kind)), Some([]), true),
      PrereqAnswers(Got(Prerequisites.Services([], [])), map[], {}, Prerequisites.Refusals({}, {})),
      StartAnswers(true, Some([]), true, true, map[], true, Written, true, true), true, true, false, true)
  }

  lemma OneNodeFree(kind: string)
    ensures var sa := Availability.SelectorSummary(OneNode(kind), [], map["gpu" := kind]); sa.found && sa.free == 1
  {
    var sel: Selector := map["gpu" := kind];
    var n := OneNode(kind)[0];
    var pick := (x: Node) => Matches(x, sel);
    assert NVIDIA[0] != AMD[0];
    assert "gpu" in sel && Matches(n, sel) && GpuUnits(n) == 1;
    RawNode(n, sel);
    assert Availability.Provides(OneNode(kind)[0], sel);
    Availability.SummaryMeaning(OneNode(kind), [], sel);
    Availability.MatchNodeUnfolds(n, map[]);
    assert OneNode(kind)[..0] == [];
    assert Availability.Total(OneNode(kind), pick) == 1;
  }

  /** The waiter is short of one GPU and is stamped with what it asks for. */
  lemma WaiterWaits(list: seq<Workspace>, f: Facts)
    requires Honest(WAITER.ws, list, f, OneGpu("x"))
    ensures LivePass(WAITER, f, OneGpu("x")) ==
              WAITER.(ws := WAITER.ws.(finalizer := true, status := Status(Waiting, None, Some(f.merged))))
    ensures GpuSelectorOf(f.merged) == SELECTOR
  {
    HonestFacts(WAITER.ws, list, f, OneGpu("x"));
    OneNodeFree("x");
    ShortGate(WAITER.ws.status, f, OneGpu("x").gate);
    HeldByGate(WAITER, f, OneGpu("x"), EnterWaiting(WAITER.ws.status, f.merged));
  }

  lemma ShortGate(st: Status, f: Facts, g: GateAnswers)
    requires f.selector == SELECTOR && f.demand == 2 && f.summary.found && f.summary.free == 1
    requires g.child && g.nodes.Some? && g.pods.Some?
    ensures Gate(st, f, g) == End(EnterWaiting(st, f.merged), true)
  {
    assert f.selector["gpu"] == "x";
  }

  lemma HeldByGate(l: Local, f: Facts, a: Answers, st: Status)
    requires Effective(l, a) && a.cluster.Got? && a.feasible && Gated(l.ws.status.phase)
    requires Gate(l.ws.status, f, a.gate) == End(st, true)
    ensures LivePass(l, f, a) == l.(ws := l.ws.(finalizer := true, status := st))
  {
  }

  lemma OpenGate(st: Status, f: Facts, g: GateAnswers)
    requires f.demand == 0 && f.summary.found && !f.blocked && g.child && g.nodes.Some? && g.pods.Some? && g.listed
    ensures Gate(st, f, g) == Continue
  {
  }

  lemma NewcomerDeploys(list: seq<Workspace>, f: Facts)
    requires Honest(NEWCOMER.ws, list, f, OneGpu("y")) && !Blocked(list, NEWCOMER.ws, OTHER)
    ensures Writes(NEWCOMER, f, OneGpu("y"))
  {
    HonestFacts(NEWCOMER.ws, list, f, OneGpu("y"));
    OneNodeFree("y");
    assert f.selector == OTHER && f.demand == 0;
    OpenGate(NEWCOMER.ws.status, f, OneGpu("y").gate);
    assert f.judgement.None?;
    ReadyToStart(WithFinalizer(NEWCOMER), f, OneGpu("y"));
  }

  const NO_DELETION := DeleteAnswers(true, NoProvider, Got(false), true, true, true, true, true, true, true, true)

  /** The visit that meets these answers. */
  ghost function VisitOf(l: Local, list: seq<Workspace>, kind: string): Visit {
    var a := OneGpu(kind);
    var f := FactsOf(l.ws, a.class_.item, list, a);
    var t := Reconciled(l, f, a, NO_DELETION, 0);
    Visit(list, f, a, NO_DELETION, t.local, t.ops, Writes(l, f, a))
  }

  lemma ExtendRun(ws: seq<World>, steps: seq<Step>, s: Step)
    requires Run(ws, steps) && Enabled(ws[|steps|], s) && FaithfulStep(ws[|steps|], s)
    ensures Run(ws + [Next(ws[|steps|], s)], steps + [s])
  {
    var ws', steps' := ws + [Next(ws[|steps|], s)], steps + [s];
    forall i | 0 <= i < |steps'|
      ensures Enabled(ws'[i], steps'[i]) && ws'[i + 1] == Next(ws'[i], steps'[i]) && FaithfulStep(ws'[i], steps'[i])
    {
      if i < |steps| {
        assert ws'[i] == ws[i] && ws'[i + 1] == ws[i + 1] && steps'[i] == steps[i];
        assert FaithfulStep(ws[i], steps[i]);
      }
    }
  }

  /** The waiter after its request was edited to what the newcomer asks for. */
  function Edited(r: Spec): Local {
    WAITER.(ws := WAITER.ws.(finalizer := true, status := Status(Waiting, None, Some(r)),
        resources := NEWCOMER.ws.resources))
  }

  lemma KeysDiffer()
    ensures Key(SELECTOR) != Key(OTHER) && OTHER != map[]
  {
    SingleKeyInjective("gpu", "x", "gpu", "y");
    assert OTHER["gpu"] == "y";
  }

  /** Edited, the waiter asks for what the newcomer asks for, and keeps its stamp. */
  lemma EditedAsks(r: Spec)
    ensures var (other, me) := (Edited(r).ws, NEWCOMER.ws);
            && Older(other, me) && WantedSelector(other) == WantedSelector(me) == OTHER
            && EffectiveSelector(other) == GpuSelectorOf(r)
  {
  }

  lemma EditedDoesNotBlock(r: Spec)
    requires GpuSelectorOf(r) == SELECTOR
    ensures !Blocked([Edited(r).ws, NEWCOMER.ws], NEWCOMER.ws, OTHER)
  {
    KeysDiffer();
    EditedAsks(r);
    var other, me := Edited(r).ws, NEWCOMER.ws;
    assert !Competes(other, me.cluster, OTHER);
    OnlyTwo(other, me);
  }

  lemma OnlyTwo(other: Workspace, me: Workspace)
    requires !Competes(other, me.cluster, OTHER)
    ensures !Blocked([other, me], me, OTHER)
  {
  }

  /** The waiter as its first pass leaves it. */
  function Waited(r: Spec): Local {
    WAITER.(ws := WAITER.ws.(finalizer := true, status := Status(Waiting, None, Some(r))))
  }

  lemma WaitingVisit() returns (v: Visit)
    ensures Faithful(WAITER, v, 0) && v.list == [WAITER.ws] && v.ops == []
    ensures v.after == Waited(v.facts.merged) && GpuSelectorOf(v.facts.merged) == SELECTOR
  {
    v := VisitOf(WAITER, [WAITER.ws], "x");
    WaiterWaits([WAITER.ws], v.facts);
  }

  lemma DeployingVisit(r: Spec) returns (v: Visit)
    requires GpuSelectorOf(r) == SELECTOR
    ensures Faithful(NEWCOMER, v, 0) && v.list == [Edited(r).ws, NEWCOMER.ws] && v.wrote
  {
    v := VisitOf(NEWCOMER, [Edited(r).ws, NEWCOMER.ws], "y");
    EditedDoesNotBlock(r);
    NewcomerDeploys(v.list, v.facts);
  }

  function Alone(l: Local): World {
    World(map["a" := l], map[], 0)
  }

  function Both(r: Spec): World {
    World(map["a" := Edited(r), "b" := NEWCOMER], map[], 0)
  }

  lemma WaiterEnabled(v: Visit)
    requires v.list == [WAITER.ws] && v.ops == []
    ensures Enabled(Alone(WAITER), ReconcileStep("a", v))
        && Next(Alone(WAITER), ReconcileStep("a", v)) == Alone(v.after)
  {
    assert v.list[0] == WAITER.ws;
    assert map["a" := WAITER]["a" := v.after] == map["a" := v.after];
  }

  lemma EditEnabled(r: Spec)
    ensures Enabled(Alone(Waited(r)), Environment(Both(r).all, 0))
        && Next(Alone(Waited(r)), Environment(Both(r).all, 0)) == Both(r)
  {
    assert Evolves(Waited(r), Edited(r)) && Newborn("b", NEWCOMER);
  }

  lemma DeployEnabled(r: Spec, v: Visit)
    requires v.list == [Edited(r).ws, NEWCOMER.ws]
    ensures Enabled(Both(r), ReconcileStep("b", v))
  {
    assert v.list[0] == Edited(r).ws && v.list[1] == NEWCOMER.ws;
  }

  /** One more step of a run whose last world is `w`. */
  lemma RunOn(ws: seq<World>, steps: seq<Step>, w: World, s: Step, w': World)
      returns (ws': seq<World>, steps': seq<Step>)
    requires Run(ws, steps) && ws[|steps|] == w && Enabled(w, s) && FaithfulStep(w, s) && Next(w, s) == w'
    ensures Run(ws', steps') && steps' == steps + [s] && ws'[|steps'|] == w' && ws'[|steps|] == w
  {
    ExtendRun(ws, steps, s);
    ws', steps' := ws + [w'], steps + [s];
  }

  /** The waiter is created, waits, and is edited while the newcomer is created. */
  lemma EditedRun() returns (ws: seq<World>, steps: seq<Step>, r: Spec)
    ensures Run(ws, steps) && |steps| == 3 && GpuSelectorOf(r) == SELECTOR && ws[3] == Both(r)
  {
    var w0 := World(map[], map[], 0);
    assert Run([w0], []);
    ws, steps := RunOn([w0], [], w0, Environment(Alone(WAITER).all, 0), Alone(WAITER));
    var v := WaitingVisit();
    r := v.facts.merged;
    WaiterEnabled(v);
    ws, steps := RunOn(ws, steps, Alone(WAITER), ReconcileStep("a", v), Alone(Waited(r)));
    EditEnabled(r);
    ws, steps := RunOn(ws, steps, Alone(Waited(r)), Environment(Both(r).all, 0), Both(r));
  }

  /** It does happen: a run that deploys a workspace while an older one on the same
      cluster waits and asks for the very same selector, because the older one was
      stamped before its request was edited. */
  lemma EditedWaiterIsPassed() returns (ws: seq<World>, steps: seq<Step>)
    ensures Run(ws, steps) && |steps| == 4 && Wrote(steps, 3, "b") && "a" in ws[3].all && "b" in ws[3].all
    ensures var (other, me) := (ws[3].all["a"], ws[3].all["b"].ws);
            && !Gone(other) && other.ws.status.phase == Waiting && other.ws.cluster == me.cluster && Older(other.ws, me)
            && WantedSelector(other.ws) == WantedSelector(me) != map[]
  {
    var r;
    ws, steps, r := EditedRun();
    EditedAsks(r);
    KeysDiffer();
    var v := DeployingVisit(r);
    DeployEnabled(r, v);
    var s := ReconcileStep("b", v);
    ws, steps := RunOn(ws, steps, Both(r), s, Next(Both(r), s));
  }
}
