/** A concrete run that shows what a sweep beside the reconciler can leave. */
module PortPoolExamples {
  import opened Text
  import opened Labels
  import opened PortPool
  import opened PortPoolRuns

  const GATEWAY := Gateway("gateway", "istio")
  const ENDPOINT := Endpoint("ssh", false, "w-ssh", 22)
  const NAMESPACE := MirrorNamespace("w")
  const ROUTE := RouteKey(NAMESPACE, "ssh")

  /** One TCP listener, and the namespace of workspace `w`. */
  const REGION := Region(
    map[], map[NAMESPACE := Namespace(map[LABEL_WORKSPACE := "w"], false)], [Listener("tcp-1", "TCP", 30001)])

  const ALLOCATED := REGION.(routes := map[ROUTE := NewRoute("w", GATEWAY, "tcp-1", ENDPOINT)])

  const WILLING := Answers(false, true, false, false, false, Written, false)
  const ENSURE := EnsureStep("w", map[], [ENDPOINT], MirrorAnswers(false, Written), [WILLING])

  lemma OneListener()
    ensures Pool(REGION.listeners) == [PoolListener("tcp-1", 30001)]
  {
    var l := PoolListener("tcp-1", 30001);
    assert REGION.listeners[..0] == [] && TcpOnly(REGION.listeners) == [l];
    assert [l][..0] == [];
  }

  lemma TakesIt()
    ensures OneEndpoint(REGION, GATEWAY, "w", ENDPOINT, WILLING, false) == (ALLOCATED.routes, Done(Allocated(30001)))
  {
    OneListener();
    assert Held(REGION, GATEWAY) == {};
    assert FirstFree(Pool(REGION.listeners), {}) == Some(PoolListener("tcp-1", 30001));
  }

  lemma EndpointAllocates()
    ensures Endpoints(REGION, GATEWAY, "w", [ENDPOINT], [WILLING]).routes == ALLOCATED.routes
  {
    TakesIt();
    assert [ENDPOINT][..0] == [] && [WILLING][..0] == [];
    assert REGION.(routes := REGION.routes) == REGION;
  }

  lemma EnsureAllocates()
    ensures Ensure(REGION, GATEWAY, "w", map[], [ENDPOINT], ENSURE.m, [WILLING]) == ALLOCATED
  {
    EndpointAllocates();
    var desired := map[LABEL_WORKSPACE := "w"] + map[];
    assert Differing(REGION.namespaces[NAMESPACE].labels, desired) == map[];
    assert REGION.(namespaces := REGION.namespaces) == REGION;
  }

  const SWEPT := World(REGION, {}, {}, {NAMESPACE})
  const REFILLED := World(ALLOCATED, {ROUTE}, {}, {})
  const RACED := World(ALLOCATED.(namespaces := Terminate(REGION.namespaces, NAMESPACE)), {ROUTE}, {}, {})

  lemma SweepsRoutes()
    ensures Next(World(REGION, {}, {}, {}), SweepRoutes(NAMESPACE, {}), GATEWAY) == SWEPT
  {
    assert After(World(REGION, {}, {}, {}), SweepRoutes(NAMESPACE, {}), GATEWAY) == REGION;
  }

  lemma Refills()
    ensures Next(SWEPT, ENSURE, GATEWAY) == REFILLED
  {
    EnsureAllocates();
    assert ALLOCATED.routes.Keys == {ROUTE};
  }

  lemma Terminates()
    ensures Next(REFILLED, SweepNamespace(NAMESPACE), GATEWAY) == RACED && NAMESPACE in Dying(RACED.region)
  {
    assert ALLOCATED.routes.Keys == {ROUTE};
  }

  /** One more step of a run whose last world is `w`. */
  lemma RunOn(ws: seq<World>, steps: seq<Step>, gw: Gateway, w: World, s: Step, w': World)
      returns (ws': seq<World>, steps': seq<Step>)
    requires Run(ws, steps, gw) && ws[|steps|] == w && Enabled(w, s) && Next(w, s, gw) == w'
    ensures Run(ws', steps', gw) && steps' == steps + [s] && ws'[|steps'|] == w'
  {
    ws', steps' := ws + [w'], steps + [s];
    forall i | 0 <= i < |steps'| ensures Enabled(ws'[i], steps'[i]) && ws'[i + 1] == Next(ws'[i], steps'[i], gw) {
      if i < |steps| {
        assert ws'[i] == ws[i] && ws'[i + 1] == ws[i + 1] && steps'[i] == steps[i];
      }
    }
  }

  /** The sweeper removes the routes of a namespace, a pass over the workspace
      allocates a port in it, the sweeper deletes the namespace: a live port in a
      terminating namespace. */
  lemma SweepRaceHappens() returns (ws: seq<World>, steps: seq<Step>)
    ensures Run(ws, steps, GATEWAY) && |steps| == 3
    ensures steps[0] == SweepRoutes(NAMESPACE, {}) && steps[2] == SweepNamespace(NAMESPACE)
    ensures ROUTE in ws[3].owned && ROUTE.namespace in Dying(ws[3].region)
  {
    var w := World(REGION, {}, {}, {});
    assert Run([w], [], GATEWAY);
    SweepsRoutes();
    ws, steps := RunOn([w], [], GATEWAY, w, SweepRoutes(NAMESPACE, {}), SWEPT);
    Refills();
    ws, steps := RunOn(ws, steps, GATEWAY, SWEPT, ENSURE, REFILLED);
    Terminates();
    ws, steps := RunOn(ws, steps, GATEWAY, REFILLED, SweepNamespace(NAMESPACE), RACED);
  }
}
