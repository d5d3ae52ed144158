/** Every run of ensure, cleanup, sweep and environment steps over one regional
    cluster: ports are never shared, never move, and are never leaked. */
module PortPoolRuns {
  import opened Text
  import opened Labels
  import opened PortPool
  import PortPoolMeaning

  /** The cluster plus three history variables: the routes the operator created that
      still exist; the namespaces it put into termination, after removing their
      routes, that still exist; and the namespaces whose routes the sweeper has
      removed with no ensure step of theirs since. */
  datatype World = World(region: Region, owned: set<RouteKey>, condemned: set<string>, swept: set<string>)

  /** `SweepStep` is a whole sweep at once. The sweeper runs beside the reconciler,
      so its two calls on a namespace are also steps of their own: deleting the
      routes in it, of which some may be left, and deleting the namespace. */
  datatype Step =
    | EnsureStep(workspace: string, mesh: map<string, string>, eps: seq<Endpoint>, m: MirrorAnswers,
        answers: seq<Answers>)
    | CleanupStep(workspace: string, a: CleanupAnswers)
    | SweepStep(active: set<string>, replies: SweepAnswers)
    | SweepRoutes(ns: string, left: set<RouteKey>)
    | SweepNamespace(ns: string)
    | Environment(region: Region)

  function WorkspaceLabel(r: Region, ns: string): string {
    if ns in r.namespaces && LABEL_WORKSPACE in r.namespaces[ns].labels
        then r.namespaces[ns].labels[LABEL_WORKSPACE] else ""
  }

  /** An owned route: attached to one listener, in its own workspace's namespace. */
  ghost predicate OperatorRoute(r: Region, k: RouteKey, gw: Gateway) {
    && k in r.routes
    && Section(r, k, gw) != ""
    && r.routes[k].workspace.Some? && r.routes[k].workspace.value != ""
    && k.namespace == MirrorNamespace(r.routes[k].workspace.value)
  }

  /** Its namespace is live and labelled with its workspace. */
  ghost predicate MirrorIntact(r: Region, k: RouteKey) {
    && k in r.routes && r.routes[k].workspace.Some?
    && k.namespace in r.namespaces && !r.namespaces[k.namespace].terminating
    && WorkspaceLabel(r, k.namespace) == r.routes[k].workspace.value
  }

  ghost predicate Listeners(r: Region) {
    forall l :: l in r.listeners ==> l.name != ""
  }

  /** Operator routes are attached to distinct listeners, outside every namespace
      the operator is terminating. */
  ghost predicate Inv(w: World, gw: Gateway) {
    && Listeners(w.region)
    && (forall k :: k in w.owned ==>
        OperatorRoute(w.region, k, gw) && k.namespace !in w.condemned && k.namespace !in w.swept)
    && (forall k, k' :: k in w.owned && k' in w.owned && k != k' ==>
        Section(w.region, k, gw) != Section(w.region, k', gw))
    && (forall ns :: ns in w.condemned ==> ns in w.region.namespaces && w.region.namespaces[ns].terminating)
  }

  /** Others may do anything to the Gateway, to any namespace, to their own routes
      and to a route's status and rules, and may delete operator routes; they do
      not re-attach an operator route or move it to another workspace. */
  ghost predicate EnvironmentOk(w: World, r: Region) {
    && Listeners(r)
    && forall k :: k in w.owned && k in r.routes ==>
         && k in w.region.routes
         && r.routes[k].parents == w.region.routes[k].parents && r.routes[k].workspace == w.region.routes[k].workspace
  }

  ghost predicate Enabled(w: World, s: Step) {
    match s
    case EnsureStep(ws, _, eps, _, answers) => ws != "" && |answers| == |eps|
    case CleanupStep(_, _) => true
    case SweepStep(_, _) => true
    case SweepRoutes(_, _) => true
    case SweepNamespace(_) => true
    case Environment(r) => EnvironmentOk(w, r)
  }

  function After(w: World, s: Step, gw: Gateway): Region
    requires s.EnsureStep? ==> |s.answers| == |s.eps|
  {
    match s
    case EnsureStep(ws, mesh, eps, m, answers) => Ensure(w.region, gw, ws, mesh, eps, m, answers)
    case CleanupStep(ws, a) => Cleanup(w.region, ws, a)
    case SweepStep(active, a) => Sweep(w.region, active, a)
    case SweepRoutes(ns, left) =>
      w.region.(routes := map k | k in w.region.routes && (k.namespace == ns ==> k in left) :: w.region.routes[k])
    case SweepNamespace(ns) => w.region.(namespaces := Terminate(w.region.namespaces, ns))
    case Environment(r) => r
  }

  /** Namespaces of `r` that are terminating. */
  function Dying(r: Region): set<string> {
    set ns | ns in r.namespaces && r.namespaces[ns].terminating
  }

  /** Namespaces a step terminates after removing their routes. */
  ghost function Condemns(w: World, s: Step, r: Region): set<string> {
    if s.CleanupStep? || s.SweepStep? then Dying(r) - Dying(w.region)
    else if s.SweepNamespace? then (Dying(r) - Dying(w.region)) * w.swept
    else {}
  }

  ghost function SweptAfter(w: World, s: Step): set<string> {
    if s.EnsureStep? then w.swept - {MirrorNamespace(s.workspace)}
    else if s.SweepRoutes? && s.left == {} then w.swept + {s.ns}
    else w.swept
  }

  /** History: an ensure step owns what it adds, and its namespace is no longer
      swept; cleanup and sweep condemn what they newly terminate. */
  ghost function Next(w: World, s: Step, gw: Gateway): World
    requires Enabled(w, s)
  {
    var r := After(w, s, gw);
    World(r,
      (w.owned * r.routes.Keys) + (if s.EnsureStep? then r.routes.Keys - w.region.routes.Keys else {}),
      (w.condemned * Dying(r)) + Condemns(w, s, r),
      SweptAfter(w, s))
  }

  // ---- one endpoint ---------------------------------------------------------

  /** Exclusive, operator-attached routes of `owned`, in terms of the table only. */
  ghost predicate Table(r: Region, owned: set<RouteKey>, gw: Gateway) {
    && Listeners(r)
    && (forall k :: k in owned ==> OperatorRoute(r, k, gw))
    && (forall k, k' :: k in owned && k' in owned && k != k' ==> Section(r, k, gw) != Section(r, k', gw))
  }

  /** A table grown from `r` by a step of workspace `ws`: old routes keep their
      attachment, new ones belong to `ws`. */
  ghost predicate Grown(r: Region, routes: map<RouteKey, Route>, owned: set<RouteKey>, gw: Gateway, ws: string) {
    && r.routes.Keys <= routes.Keys
    && Table(r.(routes := routes), owned + (routes.Keys - r.routes.Keys), gw)
    && (forall k :: k in r.routes ==>
        routes[k].parents == r.routes[k].parents && routes[k].workspace == r.routes[k].workspace)
    && (forall k :: k in routes && k !in r.routes ==>
        k.namespace == MirrorNamespace(ws) && routes[k].workspace == Some(ws))
  }

  /** What one endpoint can do to the table: nothing, new rules, or one new route
      on a listener nobody holds. */
  ghost predicate OneChange(r: Region, routes: map<RouteKey, Route>, gw: Gateway, ws: string, k: RouteKey) {
    && r.routes.Keys <= routes.Keys <= r.routes.Keys + {k}
    && k.namespace == MirrorNamespace(ws)
    && (forall o :: o in r.routes ==>
        routes[o].parents == r.routes[o].parents && routes[o].workspace == r.routes[o].workspace)
    && (k in routes && k !in r.routes ==>
          var section := SectionOf(routes[k].parents, k.namespace, gw);
          routes[k].workspace == Some(ws) && section !in Held(r, gw) && section != "")
  }

  lemma EndpointIsOneChange(r: Region, gw: Gateway, ws: string, ep: Endpoint, a: Answers, primary: bool)
    requires Listeners(r)
    ensures OneChange(r, OneEndpoint(r, gw, ws, ep, a, primary).0, gw, ws, RouteKey(MirrorNamespace(ws), ep.name))
  {
    var routes := OneEndpoint(r, gw, ws, ep, a, primary).0;
    var k := RouteKey(MirrorNamespace(ws), ep.name);
    if k !in r.routes && k in routes {
      AllocatesLowestFree(r, gw, MirrorNamespace(ws), ws, ep, a);
      var x :| IsTcp(r.listeners, x) && x.section == SectionOf(routes[k].parents, k.namespace, gw);
    }
  }

  lemma OneChangeGrows(r: Region, routes: map<RouteKey, Route>, owned: set<RouteKey>, gw: Gateway, ws: string,
                       k: RouteKey)
    requires Table(r, owned, gw) && ws != "" && OneChange(r, routes, gw, ws, k)
    ensures Grown(r, routes, owned, gw, ws)
  {
  }

  lemma GrownTwice(r: Region, mid: map<RouteKey, Route>, routes: map<RouteKey, Route>, owned: set<RouteKey>,
                   gw: Gateway, ws: string)
    requires Grown(r, mid, owned, gw, ws)
    requires Grown(r.(routes := mid), routes, owned + (mid.Keys - r.routes.Keys), gw, ws)
    ensures Grown(r, routes, owned, gw, ws)
  {
  }

  lemma {:induction false} EndpointsKeepTable(r: Region, owned: set<RouteKey>, gw: Gateway, ws: string,
                                              eps: seq<Endpoint>, answers: seq<Answers>)
    requires Table(r, owned, gw) && |answers| == |eps| && ws != ""
    ensures Grown(r, Endpoints(r, gw, ws, eps, answers).routes, owned, gw, ws)
    decreases |eps|
  {
    if eps == [] {
      assert owned + (r.routes.Keys - r.routes.Keys) == owned;
    } else {
      var e := |eps| - 1;
      EndpointsKeepTable(r, owned, gw, ws, eps[..e], answers[..e]);
      var before := Endpoints(r, gw, ws, eps[..e], answers[..e]);
      if !before.failed {
        var mid := r.(routes := before.routes);
        var grown := owned + (before.routes.Keys - r.routes.Keys);
        var routes := OneEndpoint(mid, gw, ws, eps[e], answers[e], before.primary).0;
        EndpointIsOneChange(mid, gw, ws, eps[e], answers[e], before.primary);
        OneChangeGrows(mid, routes, grown, gw, ws, RouteKey(MirrorNamespace(ws), eps[e].name));
        GrownTwice(r, before.routes, routes, owned, gw, ws);
      }
    }
  }

  // ---- steps keep the invariant ---------------------------------------------

  lemma MirrorInjective(a: string, b: string)
    requires MirrorNamespace(a) == MirrorNamespace(b)
    ensures a == b
  {
    assert a == MirrorNamespace(a)[3..] && b == MirrorNamespace(b)[3..];
  }

  /** What a successful `ensureMirrorNamespace` leaves: other namespaces as they
      were, and its own not one that was terminating. */
  lemma MirrorFrame(r: Region, ws: string, mesh: map<string, string>, m: MirrorAnswers)
    requires EnsureMirror(r, ws, mesh, m).Some?
    ensures var nss := EnsureMirror(r, ws, mesh, m).value;
            var ns := MirrorNamespace(ws);
            && (forall x :: x in nss && nss[x].terminating <==> x in r.namespaces && r.namespaces[x].terminating)
            && (forall x :: x != ns && x in r.namespaces ==> x in nss && nss[x] == r.namespaces[x])
            && (ns in r.namespaces ==> !r.namespaces[ns].terminating)
  {
  }

  lemma EnsureKeepsInv(w: World, s: Step, gw: Gateway)
    requires Inv(w, gw) && s.EnsureStep? && Enabled(w, s)
    ensures Inv(Next(w, s, gw), gw)
  {
    var r, w' := w.region, Next(w, s, gw);
    var nss := EnsureMirror(r, s.workspace, s.mesh, s.m);
    if nss.None? {
      assert w'.owned == w.owned;
    } else {
      MirrorFrame(r, s.workspace, s.mesh, s.m);
      var mid := r.(namespaces := nss.value);
      assert Table(mid, w.owned, gw);
      EndpointsKeepTable(mid, w.owned, gw, s.workspace, s.eps, s.answers);
      assert w'.owned == w.owned + (w'.region.routes.Keys - r.routes.Keys);
    }
  }

  lemma RemovalKeepsInv(w: World, s: Step, gw: Gateway)
    requires Inv(w, gw) && (s.CleanupStep? || s.SweepStep? || s.SweepRoutes? || s.SweepNamespace?)
    requires var r := After(w, s, gw);
             && r.listeners == w.region.listeners && r.routes.Keys <= w.region.routes.Keys
             && (forall k :: k in r.routes ==> r.routes[k] == w.region.routes[k])
             && (forall ns :: ns in w.region.namespaces ==> ns in r.namespaces)
             && (forall ns :: ns in w.region.namespaces && w.region.namespaces[ns].terminating ==>
                 r.namespaces[ns].terminating)
             && (forall k :: k in w.owned && k in r.routes ==>
                 k.namespace !in Condemns(w, s, r) && k.namespace !in SweptAfter(w, s))
    ensures Inv(Next(w, s, gw), gw)
  {
    var r, w' := After(w, s, gw), Next(w, s, gw);
    forall k | k in w'.owned
      ensures OperatorRoute(r, k, gw) && k.namespace !in w'.condemned && k.namespace !in w'.swept
          && Section(r, k, gw) == Section(w.region, k, gw) {
      assert k in w.owned;
    }
  }

  lemma CleanupKeepsInv(w: World, s: Step, gw: Gateway)
    requires Inv(w, gw) && s.CleanupStep?
    ensures Inv(Next(w, s, gw), gw)
  {
    var r := After(w, s, gw);
    forall k | k in w.owned && k in r.routes ensures k.namespace !in Condemns(w, s, r) {
      assert OperatorRoute(w.region, k, gw);
      if k.namespace == MirrorNamespace(s.workspace) {
        MirrorInjective(s.workspace, w.region.routes[k].workspace.value);
      }
    }
    RemovalKeepsInv(w, s, gw);
  }

  lemma SweepKeepsInv(w: World, s: Step, gw: Gateway)
    requires Inv(w, gw) && s.SweepStep?
    ensures Inv(Next(w, s, gw), gw)
  {
    RemovalKeepsInv(w, s, gw);
  }

  lemma SweepPartKeepsInv(w: World, s: Step, gw: Gateway)
    requires Inv(w, gw) && (s.SweepRoutes? || s.SweepNamespace?)
    ensures Inv(Next(w, s, gw), gw)
  {
    RemovalKeepsInv(w, s, gw);
  }

  lemma EnvironmentKeepsInv(w: World, s: Step, gw: Gateway)
    requires Inv(w, gw) && s.Environment? && Enabled(w, s)
    ensures Inv(Next(w, s, gw), gw)
  {
  }

  lemma StepKeepsInv(w: World, s: Step, gw: Gateway)
    requires Inv(w, gw) && Enabled(w, s)
    ensures Inv(Next(w, s, gw), gw)
  {
    match s
    case EnsureStep(_, _, _, _, _) => EnsureKeepsInv(w, s, gw);
    case CleanupStep(_, _) => CleanupKeepsInv(w, s, gw);
    case SweepStep(_, _) => SweepKeepsInv(w, s, gw);
    case SweepRoutes(_, _) => SweepPartKeepsInv(w, s, gw);
    case SweepNamespace(_) => SweepPartKeepsInv(w, s, gw);
    case Environment(_) => EnvironmentKeepsInv(w, s, gw);
  }

  // ---- runs -----------------------------------------------------------------

  ghost predicate Initial(w: World) {
    Listeners(w.region) && w.owned == {} && w.condemned == {} && w.swept == {}
  }

  /** `ws[i + 1]` is reached from `ws[i]` by step `i`. */
  ghost predicate Run(ws: seq<World>, steps: seq<Step>, gw: Gateway) {
    && |ws| == |steps| + 1 && Initial(ws[0])
    && forall i :: 0 <= i < |steps| ==> Enabled(ws[i], steps[i]) && ws[i + 1] == Next(ws[i], steps[i], gw)
  }

  lemma {:induction false} RunKeepsInv(ws: seq<World>, steps: seq<Step>, gw: Gateway, i: nat)
    requires Run(ws, steps, gw) && i < |ws|
    ensures Inv(ws[i], gw)
  {
    if i > 0 {
      RunKeepsInv(ws, steps, gw, i - 1);
      StepKeepsInv(ws[i - 1], steps[i - 1], gw);
    }
  }

  /** In every run, the sweeper's calls interleaved anyhow: no two operator routes
      hold the same listener. */
  lemma PortsAreExclusive(ws: seq<World>, steps: seq<Step>, gw: Gateway, i: nat, k: RouteKey, k': RouteKey)
    requires Run(ws, steps, gw) && i < |ws|
    requires k in ws[i].owned && k' in ws[i].owned && k != k'
    ensures k in ws[i].region.routes && k' in ws[i].region.routes
    ensures Section(ws[i].region, k, gw) != Section(ws[i].region, k', gw)
  {
    RunKeepsInv(ws, steps, gw, i);
  }

  /** In every run, a namespace the operator put into termination after removing its
      routes holds no operator route. */
  lemma CondemnedHoldsNothing(ws: seq<World>, steps: seq<Step>, gw: Gateway, i: nat, ns: string)
    requires Run(ws, steps, gw) && i < |ws| && ns in ws[i].condemned
    ensures forall k :: k in ws[i].owned ==> k.namespace != ns
    ensures ns in ws[i].region.namespaces && ws[i].region.namespaces[ns].terminating
  {
    RunKeepsInv(ws, steps, gw, i);
  }

  /** A step that leaves an operator route in place leaves its listener. */
  lemma StepKeepsSection(w: World, s: Step, gw: Gateway, k: RouteKey)
    requires Inv(w, gw) && Enabled(w, s) && k in w.owned && k in Next(w, s, gw).region.routes
    ensures k in w.region.routes && k in Next(w, s, gw).owned
    ensures Section(Next(w, s, gw).region, k, gw) == Section(w.region, k, gw)
    ensures Next(w, s, gw).region.routes[k].workspace == w.region.routes[k].workspace
  {
    assert OperatorRoute(w.region, k, gw);
    if s.EnsureStep? {
      var nss := EnsureMirror(w.region, s.workspace, s.mesh, s.m);
      if nss.Some? {
        var mid := w.region.(namespaces := nss.value);
        assert Table(mid, w.owned, gw);
        EndpointsKeepTable(mid, w.owned, gw, s.workspace, s.eps, s.answers);
      }
    }
  }

  /** The same, at step `i` of a run. */
  lemma RunKeepsSection(ws: seq<World>, steps: seq<Step>, gw: Gateway, i: nat, k: RouteKey)
    requires Run(ws, steps, gw) && i < |steps| && k in ws[i].owned && k in ws[i + 1].region.routes
    ensures k in ws[i].region.routes && k in ws[i + 1].owned
    ensures Section(ws[i + 1].region, k, gw) == Section(ws[i].region, k, gw)
  {
    RunKeepsInv(ws, steps, gw, i);
    StepKeepsSection(ws[i], steps[i], gw, k);
  }

  ghost predicate Exists(ws: seq<World>, i: nat, j: nat, k: RouteKey)
    requires i <= j < |ws|
  {
    forall h :: i <= h <= j ==> k in ws[h].region.routes
  }

  /** A live route's listener never changes: from the moment it is owned, for as
      long as it exists, through any number of steps. */
  lemma {:induction false} SectionIsSticky(ws: seq<World>, steps: seq<Step>, gw: Gateway, i: nat, j: nat, k: RouteKey)
    requires Run(ws, steps, gw) && i <= j < |ws| && k in ws[i].owned && Exists(ws, i, j, k)
    ensures k in ws[j].owned && Section(ws[j].region, k, gw) == Section(ws[i].region, k, gw)
    decreases j - i
  {
    if i < j {
      var b := j - 1;
      SectionIsSticky(ws, steps, gw, i, b, k);
      assert k in ws[b + 1].region.routes;
      RunKeepsSection(ws, steps, gw, b, k);
    }
  }

  // ---- the port a workspace is told -----------------------------------------

  /** If the endpoint already has its route, the entry names the port of the listener
      that route holds. */
  ghost predicate NamesHeld(r: Region, gw: Gateway, ws: string, ep: Endpoint, e: Access) {
    var k := RouteKey(MirrorNamespace(ws), ep.name);
    k in r.routes && e.Attached? ==> IsTcp(r.listeners, PoolListener(Section(r, k, gw), e.port))
  }

  ghost predicate AllNameHeld(r: Region, gw: Gateway, ws: string, eps: seq<Endpoint>, entries: seq<Access>) {
    |entries| <= |eps| && forall j :: 0 <= j < |entries| ==> NamesHeld(r, gw, ws, eps[j], entries[j])
  }

  lemma OneNamesHeld(r: Region, routes: map<RouteKey, Route>, gw: Gateway, ws: string, ep: Endpoint, a: Answers,
                     primary: bool)
    requires forall k :: k in r.routes ==> k in routes && routes[k].parents == r.routes[k].parents
    ensures var o := OneEndpoint(r.(routes := routes), gw, ws, ep, a, primary).1;
            o.Done? ==> NamesHeld(r, gw, ws, ep, o.access)
  {
    var k, mid := RouteKey(MirrorNamespace(ws), ep.name), r.(routes := routes);
    var o := OneEndpoint(mid, gw, ws, ep, a, primary).1;
    if k in r.routes && o.Done? && o.access.Attached? {
      PortPoolMeaning.PoolMeans(mid.listeners);
      PortPoolMeaning.SectionMeans(routes[k].parents, k.namespace, gw);
      PortPoolMeaning.AttachedEndpoint(mid, gw, k.namespace, ws, ep, a, Section(mid, k, gw));
    }
  }

  lemma EntriesExtend(r: Region, gw: Gateway, ws: string, eps: seq<Endpoint>, entries: seq<Access>, x: Access)
    requires eps != [] && AllNameHeld(r, gw, ws, eps[..|eps| - 1], entries)
    ensures AllNameHeld(r, gw, ws, eps, entries)
    ensures |entries| == |eps| - 1 && NamesHeld(r, gw, ws, eps[|entries|], x) ==>
              AllNameHeld(r, gw, ws, eps, entries + [x])
  {
    assert forall j :: 0 <= j < |entries| ==> eps[..|eps| - 1][j] == eps[j];
  }

  /** What the endpoints before the next one leave to it. */
  lemma EndpointsKeepParents(r: Region, gw: Gateway, ws: string, eps: seq<Endpoint>, answers: seq<Answers>)
    requires Listeners(r) && ws != "" && |answers| == |eps|
    ensures var p := Endpoints(r, gw, ws, eps, answers);
            && (forall k :: k in r.routes ==> k in p.routes && p.routes[k].parents == r.routes[k].parents)
            && (!p.failed ==> |p.entries| == |eps|)
  {
    EndpointsKeepTable(r, {}, gw, ws, eps, answers);
    HostsAre(r, gw, ws, eps, answers);
  }

  lemma {:induction false} EntriesNameHeld(r: Region, gw: Gateway, ws: string, eps: seq<Endpoint>,
                                           answers: seq<Answers>)
    requires Listeners(r) && ws != "" && |answers| == |eps|
    ensures AllNameHeld(r, gw, ws, eps, Endpoints(r, gw, ws, eps, answers).entries)
    decreases |eps|
  {
    if eps != [] {
      var e := |eps| - 1;
      var before := Endpoints(r, gw, ws, eps[..e], answers[..e]);
      EntriesNameHeld(r, gw, ws, eps[..e], answers[..e]);
      EndpointsKeepParents(r, gw, ws, eps[..e], answers[..e]);
      OneNamesHeld(r, before.routes, gw, ws, eps[e], answers[e], before.primary);
      var o := OneEndpoint(r.(routes := before.routes), gw, ws, eps[e], answers[e], before.primary).1;
      EntriesExtend(r, gw, ws, eps, before.entries, if o.Done? then o.access else NoPool);
    }
  }

  /** No two TCP listeners share a port. */
  ghost predicate DistinctPorts(ls: seq<Listener>) {
    forall x, y :: IsTcp(ls, x) && IsTcp(ls, y) && x.section != y.section ==> x.port != y.port
  }

  /** In every run, a workspace that asks again for an endpoint it has is told the
      port of the listener its route holds, and no other operator route holds a
      listener on that port. */
  lemma AnsweredPortIsOwn(ws: seq<World>, steps: seq<Step>, gw: Gateway, i: nat, j: nat)
    requires Run(ws, steps, gw) && i < |steps| && steps[i].EnsureStep? && |steps[i].answers| == |steps[i].eps|
    requires var s := steps[i];
             var entries := EnsureEntries(ws[i].region, gw, s.workspace, s.mesh, s.eps, s.m, s.answers).0;
             && j < |entries| <= |s.eps| && entries[j].Attached?
             && RouteKey(MirrorNamespace(s.workspace), s.eps[j].name) in ws[i].owned
    ensures var s, r := steps[i], ws[i].region;
            var k := RouteKey(MirrorNamespace(s.workspace), s.eps[j].name);
            var port := EnsureEntries(r, gw, s.workspace, s.mesh, s.eps, s.m, s.answers).0[j].port;
            && k in r.routes && IsTcp(r.listeners, PoolListener(Section(r, k, gw), port))
            && (DistinctPorts(r.listeners) ==>
                  forall k' :: k' in ws[i].owned && k' != k ==>
                    k' in r.routes && !IsTcp(r.listeners, PoolListener(Section(r, k', gw), port)))
  {
    var s, w := steps[i], ws[i];
    RunKeepsInv(ws, steps, gw, i);
    var nss := EnsureMirror(w.region, s.workspace, s.mesh, s.m).value;
    var mid, k := w.region.(namespaces := nss), RouteKey(MirrorNamespace(s.workspace), s.eps[j].name);
    assert OperatorRoute(w.region, k, gw);
    EntriesNameHeld(mid, gw, s.workspace, s.eps, s.answers);
    var entry := Endpoints(mid, gw, s.workspace, s.eps, s.answers).entries[j];
    assert NamesHeld(mid, gw, s.workspace, s.eps[j], entry);
    var port := entry.port;
    assert Section(mid, k, gw) == Section(w.region, k, gw);
    forall k' | DistinctPorts(w.region.listeners) && k' in w.owned && k' != k
      ensures k' in w.region.routes && !IsTcp(w.region.listeners, PoolListener(Section(w.region, k', gw), port))
    {
      PortsAreExclusive(ws, steps, gw, i, k, k');
    }
  }

  // ---- the sweep ------------------------------------------------------------

  /** The sweep, exactly: a route goes if and only if its namespace was an orphan
      and its deletion went through. In particular no route of a snapshot-active
      name is touched. */
  lemma SweepIsExact(r: Region, active: set<string>, a: SweepAnswers, k: RouteKey)
    requires k in r.routes
    ensures var r' := Sweep(r, active, a);
            && (k !in r'.routes <==>
                  PortPoolMeaning.Abandoned(r, k.namespace, active) && (k.namespace in a.routesFail ==> k in a.gone))
            && (k in r'.routes ==> r'.routes[k] == r.routes[k])
            && (WorkspaceLabel(r, k.namespace) in active ==> k in r'.routes && r'.routes[k] == r.routes[k])
  {
  }

  /** In every run, an error-free sweep removes exactly the operator routes in
      orphaned namespaces. Where a route's namespace is live and labelled with its
      workspace, that is: the route remains if and only if its workspace is in the
      snapshot. */
  lemma SweepReclaims(ws: seq<World>, steps: seq<Step>, gw: Gateway, i: nat, k: RouteKey)
    requires Run(ws, steps, gw) && i < |steps|
    requires steps[i].SweepStep? && steps[i].replies.routesFail == {}
    requires k in ws[i].owned
    ensures k in ws[i].region.routes && ws[i].region.routes[k].workspace.Some?
    ensures k in ws[i + 1].owned <==> !PortPoolMeaning.Abandoned(ws[i].region, k.namespace, steps[i].active)
    ensures MirrorIntact(ws[i].region, k) ==> (k in ws[i + 1].owned <==>
        ws[i].region.routes[k].workspace.value in steps[i].active)
    ensures k in ws[i + 1].owned ==> ws[i + 1].region.routes[k] == ws[i].region.routes[k]
  {
    RunKeepsInv(ws, steps, gw, i);
    var w, s := ws[i], steps[i];
    assert OperatorRoute(w.region, k, gw);
    SweepIsExact(w.region, s.active, s.replies, k);
    assert ws[i + 1].region == Sweep(w.region, s.active, s.replies);
  }

  /** Nobody else terminates or relabels a mirror namespace that holds an operator
      route, or creates one under the operator's hands, and the mesh labels leave
      the workspace label alone; the sweeper terminates no namespace that holds
      operator routes again. */
  ghost predicate Gentle(w: World, s: Step) {
    && (s.SweepNamespace? ==> s.ns in w.swept)
    && (s.EnsureStep? ==> LABEL_WORKSPACE !in s.mesh && !s.m.write.AlreadyExists?)
    && (s.Environment? ==> forall k :: k in w.owned && k in s.region.routes && MirrorIntact(w.region, k) ==>
        MirrorIntact(s.region, k))
  }

  ghost predicate AllIntact(w: World) {
    forall k :: k in w.owned ==> MirrorIntact(w.region, k)
  }

  lemma MirrorLabelled(r: Region, ws: string, mesh: map<string, string>, m: MirrorAnswers)
    requires EnsureMirror(r, ws, mesh, m).Some? && LABEL_WORKSPACE !in mesh && !m.write.AlreadyExists?
    ensures var nss := EnsureMirror(r, ws, mesh, m).value;
            var ns := MirrorNamespace(ws);
            ns in nss && !nss[ns].terminating && WorkspaceLabel(r.(namespaces := nss), ns) == ws
  {
    var ns := MirrorNamespace(ws);
    if ns in r.namespaces {
      var desired := map[LABEL_WORKSPACE := ws] + mesh;
      HealedReads(r.namespaces[ns].labels, desired, LABEL_WORKSPACE);
      if LABEL_WORKSPACE !in Differing(r.namespaces[ns].labels, desired) {
        assert Lookup(r.namespaces[ns].labels, LABEL_WORKSPACE) == desired[LABEL_WORKSPACE];
      }
    }
  }

  lemma EnsureKeepsIntact(w: World, s: Step, gw: Gateway)
    requires Inv(w, gw) && AllIntact(w) && Enabled(w, s) && Gentle(w, s) && s.EnsureStep?
    ensures AllIntact(Next(w, s, gw))
  {
    var r, w' := w.region, Next(w, s, gw);
    var nss := EnsureMirror(r, s.workspace, s.mesh, s.m);
    if nss.Some? {
      MirrorFrame(r, s.workspace, s.mesh, s.m);
      MirrorLabelled(r, s.workspace, s.mesh, s.m);
      var mid := r.(namespaces := nss.value);
      assert Table(mid, w.owned, gw);
      EndpointsKeepTable(mid, w.owned, gw, s.workspace, s.eps, s.answers);
      forall k | k in w'.owned ensures MirrorIntact(w'.region, k) {
        if k in w.owned && k.namespace == MirrorNamespace(s.workspace) {
          assert OperatorRoute(r, k, gw);
          MirrorInjective(s.workspace, r.routes[k].workspace.value);
        }
      }
    }
  }

  lemma StepKeepsIntact(w: World, s: Step, gw: Gateway)
    requires Inv(w, gw) && AllIntact(w) && Enabled(w, s) && Gentle(w, s)
    ensures AllIntact(Next(w, s, gw))
  {
    match s
    case EnsureStep(_, _, _, _, _) => EnsureKeepsIntact(w, s, gw);
    case CleanupStep(ws, _) =>
      forall k | k in Next(w, s, gw).owned ensures MirrorIntact(Next(w, s, gw).region, k) {
        assert MirrorIntact(w.region, k) && OperatorRoute(w.region, k, gw);
        if k.namespace == MirrorNamespace(ws) {
          MirrorInjective(ws, w.region.routes[k].workspace.value);
        }
      }
    case SweepStep(_, _) =>
    case SweepRoutes(_, _) =>
    case SweepNamespace(_) =>
    case Environment(_) =>
  }

  /** With gentle neighbours every operator route keeps a live, labelled namespace,
      so every error-free sweep reclaims exactly the routes of inactive workspaces. */
  lemma {:induction false} GentleRunsAreIntact(ws: seq<World>, steps: seq<Step>, gw: Gateway, i: nat)
    requires Run(ws, steps, gw) && i < |ws| && forall h :: 0 <= h < i ==> Gentle(ws[h], steps[h])
    ensures AllIntact(ws[i])
  {
    if i > 0 {
      var b := i - 1;
      GentleRunsAreIntact(ws, steps, gw, b);
      RunKeepsInv(ws, steps, gw, b);
      StepKeepsIntact(ws[b], steps[b], gw);
      assert ws[b + 1] == ws[i];
    }
  }

  /** Some operator route of the workspace is left. */
  ghost predicate HoldsPort(w: World, workspace: string) {
    exists k :: OwnedBy(w, k, workspace)
  }

  ghost predicate OwnedBy(w: World, k: RouteKey, workspace: string) {
    k in w.owned && k in w.region.routes && w.region.routes[k].workspace == Some(workspace)
  }

  /** A run with gentle neighbours up to step `i`. */
  ghost predicate GentleRun(ws: seq<World>, steps: seq<Step>, gw: Gateway, i: nat) {
    Run(ws, steps, gw) && i < |ws| && forall h :: 0 <= h < i ==> Gentle(ws[h], steps[h])
  }

  /** After an error-free sweep no port is left to a workspace outside the snapshot,
      and every route of a workspace in it is untouched. */
  lemma SweepFreesInactive(ws: seq<World>, steps: seq<Step>, gw: Gateway, i: nat, workspace: string)
    requires GentleRun(ws, steps, gw, i) && i < |steps| && steps[i].SweepStep? && steps[i].replies.routesFail == {}
    ensures workspace !in steps[i].active ==> !HoldsPort(ws[i + 1], workspace)
    ensures workspace in steps[i].active ==> forall k :: OwnedBy(ws[i], k, workspace) ==>
              OwnedBy(ws[i + 1], k, workspace) && ws[i + 1].region.routes[k] == ws[i].region.routes[k]
  {
    GentleRunsAreIntact(ws, steps, gw, i);
    forall k | k in ws[i].owned
      ensures k in ws[i].region.routes && ws[i].region.routes[k].workspace.Some?
      ensures k in ws[i + 1].owned <==> ws[i].region.routes[k].workspace.value in steps[i].active
      ensures k in ws[i + 1].owned ==>
          k in ws[i + 1].region.routes && ws[i + 1].region.routes[k] == ws[i].region.routes[k]
    {
      SweepReclaims(ws, steps, gw, i, k);
      assert MirrorIntact(ws[i].region, k);
    }
  }

  // ---- a sweep interleaved with the reconciler -------------------------------

  /** Step `h` is an ensure step of that namespace that creates route `k`. */
  ghost predicate Recreates(ws: seq<World>, steps: seq<Step>, h: nat, k: RouteKey) {
    && h + 1 < |ws| && h < |steps| && steps[h].EnsureStep? && MirrorNamespace(steps[h].workspace) == k.namespace
    && k !in ws[h].owned && k in ws[h + 1].owned
  }

  lemma OwnedStep(ws: seq<World>, steps: seq<Step>, gw: Gateway, h: nat, k: RouteKey)
    requires Run(ws, steps, gw) && h < |steps| && k in ws[h + 1].owned
    ensures k in ws[h].owned || Recreates(ws, steps, h, k)
  {
    RunKeepsInv(ws, steps, gw, h);
    RunKeepsInv(ws, steps, gw, h + 1);
    if k !in ws[h].owned {
      EnsureAddsOwn(ws[h], steps[h], gw, k);
      assert OperatorRoute(ws[h + 1].region, k, gw);
    }
  }

  /** If a namespace holds an operator route some time after its routes were swept,
      an ensure step of that namespace came in between. */
  lemma {:induction false} OnlyEnsureRefills(ws: seq<World>, steps: seq<Step>, gw: Gateway, a: nat, b: nat,
                                             k: RouteKey) returns (h: nat)
    requires Run(ws, steps, gw) && a < b < |ws| && steps[a] == SweepRoutes(k.namespace, {}) && k in ws[b].owned
    ensures a < h < b && Recreates(ws, steps, h, k)
    decreases b
  {
    h := b - 1;
    OwnedStep(ws, steps, gw, h, k);
    if a < h && !Recreates(ws, steps, h, k) {
      h := OnlyEnsureRefills(ws, steps, gw, a, b - 1, k);
    }
  }

  // ---- cleanup --------------------------------------------------------------

  lemma CleanupFreesAll(w: World, workspace: string, gw: Gateway)
    requires Inv(w, gw)
    ensures !HoldsPort(Next(w, CleanupStep(workspace, CleanupOk), gw), workspace)
  {
    forall k | k in w.owned ensures OperatorRoute(w.region, k, gw) {}
  }

  /** The routes an ensure step adds are those of its own workspace. */
  lemma EnsureAddsOwn(w: World, s: Step, gw: Gateway, k: RouteKey)
    requires Inv(w, gw) && s.EnsureStep? && Enabled(w, s) && k in Next(w, s, gw).owned && k !in w.owned
    ensures k in Next(w, s, gw).region.routes && Next(w, s, gw).region.routes[k].workspace == Some(s.workspace)
  {
    var nss := EnsureMirror(w.region, s.workspace, s.mesh, s.m);
    if nss.Some? {
      var mid := w.region.(namespaces := nss.value);
      assert Table(mid, w.owned, gw);
      EndpointsKeepTable(mid, w.owned, gw, s.workspace, s.eps, s.answers);
    }
  }

  /** Only an ensure step of a workspace gives it a port. */
  lemma StaysFree(w: World, s: Step, gw: Gateway, workspace: string)
    requires Inv(w, gw) && Enabled(w, s) && !HoldsPort(w, workspace) && (s.EnsureStep? ==> s.workspace != workspace)
    ensures !HoldsPort(Next(w, s, gw), workspace)
  {
    var w' := Next(w, s, gw);
    forall k | k in w'.owned ensures !OwnedBy(w', k, workspace) {
      if k in w.owned {
        StepKeepsSection(w, s, gw, k);
        assert !OwnedBy(w, k, workspace);
      } else if s.EnsureStep? {
        EnsureAddsOwn(w, s, gw, k);
      }
    }
  }

  /** The listeners the operator holds. */
  ghost function HeldByOperator(w: World, gw: Gateway): set<string>
    requires forall k :: k in w.owned ==> k in w.region.routes
  {
    set k | k in w.owned :: Section(w.region, k, gw)
  }

  /** Cleanup returns a workspace's ports and nobody else's. */
  lemma CleanupReturnsPorts(w: World, ws: string, gw: Gateway)
    requires Inv(w, gw)
    ensures var w' := Next(w, CleanupStep(ws, CleanupOk), gw);
            && (forall k :: k in w.owned ==> k in w.region.routes) && (forall k :: k in w'.owned ==>
                k in w'.region.routes)
            && HeldByOperator(w', gw) == HeldByOperator(w, gw)
                 - (set k | k in w.owned && w.region.routes[k].workspace == Some(ws) :: Section(w.region, k, gw))
  {
    var w' := Next(w, CleanupStep(ws, CleanupOk), gw);
    forall k | k in w.owned ensures OperatorRoute(w.region, k, gw) && (k in w'.owned <==>
        w.region.routes[k].workspace != Some(ws)) {
      assert OperatorRoute(w.region, k, gw);
      if k.namespace == MirrorNamespace(ws) {
        MirrorInjective(ws, w.region.routes[k].workspace.value);
      }
    }
    var gone := set k | k in w.owned && w.region.routes[k].workspace == Some(ws) :: Section(w.region, k, gw);
    forall x ensures x in HeldByOperator(w', gw) <==> x in HeldByOperator(w, gw) && x !in gone {
      if x in HeldByOperator(w', gw) {
        var k :| k in w'.owned && Section(w'.region, k, gw) == x;
        assert Section(w.region, k, gw) == x;
      }
      if x in HeldByOperator(w, gw) && x !in gone {
        var k :| k in w.owned && Section(w.region, k, gw) == x;
        assert k in w'.owned && Section(w'.region, k, gw) == x;
      }
    }
  }
}
