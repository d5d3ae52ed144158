/** What each answer of the routing provider says about the routes, listeners and
    namespaces themselves. */
module PortPoolMeaning {
  import opened Text
  import opened Labels
  import opened PortPool

  // ---- listeners and who holds them -----------------------------------------

  /** The Gateway has a TCP listener of that name. */
  ghost predicate HasListener(ls: seq<Listener>, section: string) {
    exists p :: IsTcp(ls, PoolListener(section, p))
  }

  ghost predicate HasPool(ls: seq<Listener>) {
    exists i :: 0 <= i < |ls| && ls[i].protocol == "TCP"
  }

  lemma PoolMeans(ls: seq<Listener>)
    ensures Pool(ls) == [] <==> !HasPool(ls)
  {
    PoolIsTcpListeners(ls);
    if i :| 0 <= i < |ls| && ls[i].protocol == "TCP" {
      assert IsTcp(ls, PoolListener(ls[i].name, ls[i].port));
    } else if Pool(ls) != [] {
      assert IsTcp(ls, Pool(ls)[0]);
    }
  }

  /** Parent `i` attaches a route of namespace `ns` to a listener of the Gateway. */
  ghost predicate AttachesAt(parents: seq<ParentRef>, ns: string, gw: Gateway, i: int) {
    && 0 <= i < |parents| && parents[i].name == gw.name && parents[i].section.Some?
    && gw.namespace == if parents[i].namespace.None? then ns else parents[i].namespace.value
  }

  ghost predicate FirstAttaches(parents: seq<ParentRef>, ns: string, gw: Gateway, i: int) {
    AttachesAt(parents, ns, gw, i) && forall j :: 0 <= j < i ==> !AttachesAt(parents, ns, gw, j)
  }

  /** The first parent that attaches the route names that listener. */
  ghost predicate Holds(parents: seq<ParentRef>, ns: string, gw: Gateway, section: string) {
    exists i :: FirstAttaches(parents, ns, gw, i) && parents[i].section == Some(section)
  }

  ghost predicate Loose(parents: seq<ParentRef>, ns: string, gw: Gateway) {
    forall i :: 0 <= i < |parents| ==> !AttachesAt(parents, ns, gw, i)
  }

  lemma {:induction false} SectionMeans(parents: seq<ParentRef>, ns: string, gw: Gateway)
    ensures if Loose(parents, ns, gw) then SectionOf(parents, ns, gw) == ""
            else Holds(parents, ns, gw, SectionOf(parents, ns, gw))
  {
    if parents != [] {
      var rest := parents[1..];
      SectionMeans(rest, ns, gw);
      assert forall i :: 0 <= i < |rest| ==> AttachesAt(rest, ns, gw, i) == AttachesAt(parents, ns, gw, i + 1);
      if AttachesAt(parents, ns, gw, 0) {
        assert FirstAttaches(parents, ns, gw, 0);
      } else if i :| FirstAttaches(rest, ns, gw, i) {
        FirstOfRest(parents, ns, gw, i);
      } else {
        LooseRest(parents, ns, gw);
      }
    }
  }

  lemma FirstOfRest(parents: seq<ParentRef>, ns: string, gw: Gateway, i: nat)
    requires parents != [] && !AttachesAt(parents, ns, gw, 0) && FirstAttaches(parents[1..], ns, gw, i)
    ensures FirstAttaches(parents, ns, gw, i + 1)
  {
    forall j | 0 <= j < i + 1 ensures !AttachesAt(parents, ns, gw, j) {
      assert j > 0 ==> !AttachesAt(parents[1..], ns, gw, j - 1);
    }
  }

  lemma LooseRest(parents: seq<ParentRef>, ns: string, gw: Gateway)
    requires parents != [] && !AttachesAt(parents, ns, gw, 0) && Loose(parents[1..], ns, gw)
    ensures Loose(parents, ns, gw)
  {
    forall j | 0 <= j < |parents| ensures !AttachesAt(parents, ns, gw, j) {
      assert j > 0 ==> !AttachesAt(parents[1..], ns, gw, j - 1);
    }
  }

  /** A route holds one listener. */
  lemma HoldsOne(parents: seq<ParentRef>, ns: string, gw: Gateway, section: string)
    requires Holds(parents, ns, gw, section)
    ensures SectionOf(parents, ns, gw) == section
  {
    SectionMeans(parents, ns, gw);
    assert forall i, j :: FirstAttaches(parents, ns, gw, i) && FirstAttaches(parents, ns, gw, j) ==> i == j;
  }

  /** Some route holds it, whoever's; an unnamed listener never counts as held. */
  ghost predicate Taken(r: Region, gw: Gateway, section: string) {
    section != "" && exists k :: k in r.routes && Holds(r.routes[k].parents, k.namespace, gw, section)
  }

  lemma HeldMeans(r: Region, gw: Gateway, section: string)
    ensures section in Held(r, gw) <==> Taken(r, gw, section)
  {
    if section in Held(r, gw) {
      var k :| k in r.routes && Section(r, k, gw) == section;
      SectionMeans(r.routes[k].parents, k.namespace, gw);
    }
    if Taken(r, gw, section) {
      var k :| k in r.routes && Holds(r.routes[k].parents, k.namespace, gw, section);
      HoldsOne(r.routes[k].parents, k.namespace, gw, section);
      assert Section(r, k, gw) == section;
    }
  }

  /** Where the Gateway's TCP listeners are. */
  ghost function TcpSlots(ls: seq<Listener>): set<int> {
    set i | 0 <= i < |ls| && ls[i].protocol == "TCP"
  }

  /** The size of the pool is the number of TCP listeners. */
  lemma PoolSize(ls: seq<Listener>)
    ensures |Pool(ls)| == |TcpSlots(ls)|
  {
    SortKeepsSize(TcpOnly(ls));
    FilterSize(ls);
  }

  lemma {:induction false} FilterSize(ls: seq<Listener>)
    ensures |TcpOnly(ls)| == |TcpSlots(ls)|
  {
    if ls != [] {
      FilterSize(ls[..|ls| - 1]);
      SlotsNext(ls);
    }
  }

  lemma SlotsNext(ls: seq<Listener>)
    requires ls != []
    ensures var e := |ls| - 1;
            |TcpSlots(ls)| == |TcpSlots(ls[..e])| + if ls[e].protocol == "TCP" then 1 else 0
  {
    var e := |ls| - 1;
    var before := TcpSlots(ls[..e]);
    assert e !in before;
    assert TcpSlots(ls) == if ls[e].protocol == "TCP" then before + {e} else before;
  }

  lemma {:induction false} SortKeepsSize(s: seq<PoolListener>)
    ensures |SortByPort(s)| == |s|
  {
    if s != [] {
      SortKeepsSize(s[..|s| - 1]);
      InsertKeepsSize(s[|s| - 1], SortByPort(s[..|s| - 1]));
    }
  }

  lemma {:induction false} InsertKeepsSize(x: PoolListener, s: seq<PoolListener>)
    ensures |InsertByPort(x, s)| == |s| + 1
  {
    if s != [] && s[0].port <= x.port {
      InsertKeepsSize(x, s[1..]);
    }
  }

  // ---- a new endpoint -------------------------------------------------------

  /** The lowest-port TCP listener that no route holds. */
  ghost predicate LowestFree(r: Region, gw: Gateway, x: PoolListener) {
    && IsTcp(r.listeners, x) && !Taken(r, gw, x.section)
    && forall y :: IsTcp(r.listeners, y) && !Taken(r, gw, y.section) ==> x.port <= y.port
  }

  /** What the loop over the pool picks. */
  lemma PickMeans(r: Region, gw: Gateway)
    ensures var pick := FirstFree(Pool(r.listeners), Held(r, gw));
            if pick.Some? then LowestFree(r, gw, pick.value)
            else forall x :: IsTcp(r.listeners, x) ==> Taken(r, gw, x.section)
  {
    PoolIsTcpListeners(r.listeners);
    FirstFreeIsLowest(Pool(r.listeners), Held(r, gw));
    forall x | IsTcp(r.listeners, x) ensures x.section in Held(r, gw) <==> Taken(r, gw, x.section) {
      HeldMeans(r, gw, x.section);
    }
  }

  /** The route a new endpoint gets: labelled, attached to that listener alone, and
      leading to the endpoint's service. */
  ghost predicate LeadsTo(route: Route, workspace: string, gw: Gateway, section: string, ep: Endpoint) {
    && route.workspace == Some(workspace) && route.status == []
    && route.parents == [ParentRef(gw.name, Some(gw.namespace), Some(section))]
    && route.rules == [[Backend(ep.service, Some(ep.port))]]
  }

  /** The endpoint has no route yet and the API server can be asked. With every
      listener held it reports exhaustion; otherwise it takes the lowest free one,
      creates its route there, and touches no other; if another create came first it
      reports the port all the same; a refused create is an error. */
  lemma NewEndpoint(r: Region, gw: Gateway, ns: string, workspace: string, ep: Endpoint, a: Answers)
    requires RouteKey(ns, ep.name) !in r.routes && HasPool(r.listeners)
    requires !a.noMatch && !a.getError && !a.listError
    ensures var (routes, o) := EnsureTcp(r, gw, ns, workspace, ep, a);
            var k := RouteKey(ns, ep.name);
            if forall x :: IsTcp(r.listeners, x) ==> Taken(r, gw, x.section) then
              routes == r.routes && o == Done(Exhausted(|TcpSlots(r.listeners)|))
            else
              exists x :: LowestFree(r, gw, x) &&
                match a.created
                case Refused => routes == r.routes && o == ApiError
                case AlreadyExists => routes == r.routes && o == Done(Allocated(x.port))
                case Written =>
                  && o == Done(Allocated(x.port)) && k in routes && LeadsTo(routes[k], workspace, gw, x.section, ep)
                  && routes - {k} == r.routes
  {
    PoolMeans(r.listeners);
    PoolSize(r.listeners);
    PickMeans(r, gw);
    var pick := FirstFree(Pool(r.listeners), Held(r, gw));
    var routes := EnsureTcp(r, gw, ns, workspace, ep, a).0;
    assert routes - {RouteKey(ns, ep.name)} == r.routes;
    if pick.Some? {
      assert LowestFree(r, gw, pick.value);
      assert !Taken(r, gw, pick.value.section) && IsTcp(r.listeners, pick.value);
    }
  }

  // ---- an endpoint that has its route ---------------------------------------

  /** Report `i` is by our Gateway. */
  ghost predicate ReportsAt(status: seq<ParentStatus>, gw: Gateway, i: int) {
    && 0 <= i < |status| && status[i].name == gw.name
    && (status[i].namespace == None || status[i].namespace == Some(gw.namespace))
  }

  ghost predicate FirstReports(status: seq<ParentStatus>, gw: Gateway, i: int) {
    ReportsAt(status, gw, i) && forall j :: 0 <= j < i ==> !ReportsAt(status, gw, j)
  }

  /** The first report by our Gateway says accepted and resolved. */
  ghost predicate Serving(status: seq<ParentStatus>, gw: Gateway) {
    exists i :: FirstReports(status, gw, i) && status[i].accepted && status[i].resolved
  }

  lemma {:induction false} ProgrammedMeans(status: seq<ParentStatus>, gw: Gateway)
    ensures Programmed(status, gw) <==> Serving(status, gw)
  {
    if status != [] {
      var rest := status[1..];
      ProgrammedMeans(rest, gw);
      if ReportsAt(status, gw, 0) {
        assert FirstReports(status, gw, 0);
        assert forall i :: FirstReports(status, gw, i) ==> i == 0;
      } else {
        ServingRest(status, gw);
      }
    }
  }

  lemma ServingRest(status: seq<ParentStatus>, gw: Gateway)
    requires status != [] && !ReportsAt(status, gw, 0)
    ensures Serving(status, gw) <==> Serving(status[1..], gw)
  {
    var rest := status[1..];
    assert forall i :: 0 <= i < |rest| ==> ReportsAt(rest, gw, i) == ReportsAt(status, gw, i + 1);
    if i :| FirstReports(status, gw, i) && status[i].accepted && status[i].resolved {
      assert FirstReports(rest, gw, i - 1);
    }
    if i :| FirstReports(rest, gw, i) && rest[i].accepted && rest[i].resolved {
      forall j | 0 <= j < i + 1 ensures !ReportsAt(status, gw, j) {
        assert j > 0 ==> !ReportsAt(rest, gw, j - 1);
      }
      assert FirstReports(status, gw, i + 1);
    }
  }

  /** The lowest port among the listeners of that name. */
  ghost predicate PortIs(ls: seq<Listener>, section: string, port: int) {
    && IsTcp(ls, PoolListener(section, port))
    && forall p :: IsTcp(ls, PoolListener(section, p)) ==> port <= p
  }

  lemma {:induction false} PortOfIs(pool: seq<PoolListener>, section: string)
    requires ByPort(pool)
    ensures PortOf(pool, section).None? <==> forall p :: PoolListener(section, p) !in pool
    ensures PortOf(pool, section).Some? ==>
      var port := PortOf(pool, section).value;
      PoolListener(section, port) in pool && forall p :: PoolListener(section, p) in pool ==> port <= p
  {
    if pool != [] {
      assert pool == [pool[0]] + pool[1..];
      PortOfIs(pool[1..], section);
      if pool[0].section == section {
        assert pool[0] == PoolListener(section, pool[0].port);
        forall p | PoolListener(section, p) in pool ensures pool[0].port <= p {
          var i :| 0 <= i < |pool| && pool[i] == PoolListener(section, p);
        }
      }
    }
  }

  lemma PortMeans(ls: seq<Listener>, section: string)
    ensures var port := PortOf(Pool(ls), section);
            if port.Some? then PortIs(ls, section, port.value) else !HasListener(ls, section)
  {
    PoolIsTcpListeners(ls);
    PortOfIs(Pool(ls), section);
    assert forall p :: PoolListener(section, p) in Pool(ls) <==> IsTcp(ls, PoolListener(section, p));
  }

  /** The endpoint has a route attached to a listener. If the Gateway still has that
      listener, the answer is the listener's own port and whether the Gateway's first
      report accepts and resolves the route, and the route's rules are the endpoint's
      one backend; nothing else about any route changes. If not, the pool shrank. An
      error only if the rules had to be written and could not. */
  lemma AttachedEndpoint(r: Region, gw: Gateway, ns: string, workspace: string, ep: Endpoint, a: Answers,
                         section: string)
    requires RouteKey(ns, ep.name) in r.routes && HasPool(r.listeners) && !a.noMatch && !a.getError
    requires section != "" && Holds(r.routes[RouteKey(ns, ep.name)].parents, ns, gw, section)
    ensures var (routes, o) := EnsureTcp(r, gw, ns, workspace, ep, a);
            var k, rules := RouteKey(ns, ep.name), [[Backend(ep.service, Some(ep.port))]];
            if !HasListener(r.listeners, section) then
              routes == r.routes && o == Done(Shrunk(section))
            else if a.updateError && r.routes[k].rules != rules then
              routes == r.routes && o == ApiError
            else
              && routes == r.routes[k := r.routes[k].(rules := rules)]
              && o.Done? && o.access.Attached? && PortIs(r.listeners, section, o.access.port)
              && (o.access.ready <==> Serving(r.routes[k].status, gw))
  {
    var k := RouteKey(ns, ep.name);
    PoolMeans(r.listeners);
    HoldsOne(r.routes[k].parents, ns, gw, section);
    PortMeans(r.listeners, section);
    ProgrammedMeans(r.routes[k].status, gw);
    assert r.routes[k := r.routes[k]] == r.routes;
    var port := PortOf(Pool(r.listeners), section);
    assert HasListener(r.listeners, section) <==> port.Some? by {
      if port.Some? {
        assert IsTcp(r.listeners, PoolListener(section, port.value));
      }
    }
  }

  /** A route attached to no listener, or to an unnamed one, is left alone. */
  lemma DetachedEndpoint(r: Region, gw: Gateway, ns: string, workspace: string, ep: Endpoint, a: Answers)
    requires RouteKey(ns, ep.name) in r.routes && HasPool(r.listeners) && !a.noMatch && !a.getError
    requires var parents := r.routes[RouteKey(ns, ep.name)].parents;
             Loose(parents, ns, gw) || Holds(parents, ns, gw, "")
    ensures EnsureTcp(r, gw, ns, workspace, ep, a) == (r.routes, Done(Detached))
  {
    var parents := r.routes[RouteKey(ns, ep.name)].parents;
    PoolMeans(r.listeners);
    SectionMeans(parents, ns, gw);
    if !Loose(parents, ns, gw) {
      HoldsOne(parents, ns, gw, "");
    }
  }

  /** What keeps the endpoint from being looked at: no pool, no TCPRoute kind on the
      cluster, or a failing read. */
  lemma UnreadEndpoint(r: Region, gw: Gateway, ns: string, workspace: string, ep: Endpoint, a: Answers)
    ensures var step := EnsureTcp(r, gw, ns, workspace, ep, a);
            && (!HasPool(r.listeners) ==> step == (r.routes, Done(NoPool)))
            && (HasPool(r.listeners) && a.noMatch ==> step == (r.routes, Done(NotInstalled)))
            && (HasPool(r.listeners) && !a.noMatch && a.getError ==> step == (r.routes, ApiError))
            && (HasPool(r.listeners) && !a.noMatch && a.listError && RouteKey(ns, ep.name) !in r.routes ==>
                  step == (r.routes, ApiError))
  {
    PoolMeans(r.listeners);
  }

  // ---- the mirror namespace -------------------------------------------------

  /** The label the namespace must read under `k`: the mesh's, or the workspace's
      name under the operator's own label; None for a label nobody asks for. */
  function Wanted(workspace: string, mesh: map<string, string>, k: string): Option<string> {
    if k in mesh then Some(mesh[k])
    else if k == "workspaces.exalsius.ai/workspace" then Some(workspace)
    else None
  }

  /** Every label reads as wanted. */
  ghost predicate LabelsRead(labels: map<string, string>, workspace: string, mesh: map<string, string>) {
    forall k :: Wanted(workspace, mesh, k).Some? ==>
      Wanted(workspace, mesh, k).value == if k in labels then labels[k] else ""
  }

  lemma DifferingMeans(labels: map<string, string>, workspace: string, mesh: map<string, string>)
    ensures Differing(labels, map[LABEL_WORKSPACE := workspace] + mesh) == map[] <==>
              LabelsRead(labels, workspace, mesh)
  {
    var desired := map[LABEL_WORKSPACE := workspace] + mesh;
    forall k ensures Wanted(workspace, mesh, k) == if k in desired then Some(desired[k]) else None {}
    if LabelsRead(labels, workspace, mesh) {
      forall k | k in desired ensures k !in Differing(labels, desired) {
        assert Wanted(workspace, mesh, k).Some?;
      }
    } else {
      var k :| Wanted(workspace, mesh, k).Some? &&
        Wanted(workspace, mesh, k).value != if k in labels then labels[k] else "";
      assert k in Differing(labels, desired);
    }
  }

  lemma HealedMeans(labels: map<string, string>, workspace: string, mesh: map<string, string>)
    ensures var healed := Healed(labels, map[LABEL_WORKSPACE := workspace] + mesh);
            && LabelsRead(healed, workspace, mesh)
            && forall k :: Wanted(workspace, mesh, k).None? ==> Lookup(healed, k) == Lookup(labels, k)
  {
    var desired := map[LABEL_WORKSPACE := workspace] + mesh;
    forall k | Wanted(workspace, mesh, k).Some?
      ensures Wanted(workspace, mesh, k).value == Lookup(Healed(labels, desired), k)
    {
      HealedReads(labels, desired, k);
    }
  }

  /** `ensureMirrorNamespace` on `ws-<workspace>`: it fails exactly when the
      namespace cannot be read, is terminating, or has to be written and cannot be. */
  lemma MirrorFailsExactly(r: Region, workspace: string, mesh: map<string, string>, m: MirrorAnswers)
    ensures var ns := "ws-" + workspace;
            EnsureMirror(r, workspace, mesh, m).None? <==>
              || m.getError
              || (ns !in r.namespaces && m.write.Refused?)
              || (ns in r.namespaces && r.namespaces[ns].terminating)
              || (ns in r.namespaces && m.write.Refused? && !LabelsRead(r.namespaces[ns].labels, workspace, mesh))
  {
    var ns := "ws-" + workspace;
    if ns in r.namespaces {
      DifferingMeans(r.namespaces[ns].labels, workspace, mesh);
    }
  }

  /** Where it succeeds, the namespace is there, live, with every wanted label, and
      nothing else has moved; or someone else created it in that very moment. */
  lemma MirrorMeans(r: Region, workspace: string, mesh: map<string, string>, m: MirrorAnswers)
    requires EnsureMirror(r, workspace, mesh, m).Some?
    ensures var nss, ns := EnsureMirror(r, workspace, mesh, m).value, "ws-" + workspace;
            && nss - {ns} == r.namespaces - {ns}
            && if ns !in r.namespaces && m.write.AlreadyExists? then ns !in nss
               else
                 && ns in nss && !nss[ns].terminating && LabelsRead(nss[ns].labels, workspace, mesh)
                 && forall k :: Wanted(workspace, mesh, k).None? ==>
                      Lookup(nss[ns].labels, k) == if ns in r.namespaces then Lookup(r.namespaces[ns].labels, k) else ""
  {
    var ns := "ws-" + workspace;
    var desired := map[LABEL_WORKSPACE := workspace] + mesh;
    if ns in r.namespaces {
      DifferingMeans(r.namespaces[ns].labels, workspace, mesh);
      HealedMeans(r.namespaces[ns].labels, workspace, mesh);
    } else {
      HealedMeans(map[], workspace, mesh);
    }
  }

  // ---- all endpoints --------------------------------------------------------

  /** Endpoint `i` is reached and its call fails. */
  ghost predicate FailsAt(r: Region, gw: Gateway, workspace: string, eps: seq<Endpoint>, answers: seq<Answers>, i: nat)
    requires |answers| == |eps|
  {
    && i < |eps|
    && var before := Endpoints(r, gw, workspace, eps[..i], answers[..i]);
       && !before.failed
       && OneEndpoint(r.(routes := before.routes), gw, workspace, eps[i], answers[i], before.primary).1.ApiError?
  }

  lemma {:induction false} FailsExactly(r: Region, gw: Gateway, workspace: string, eps: seq<Endpoint>,
                                        answers: seq<Answers>)
    requires |answers| == |eps|
    ensures Endpoints(r, gw, workspace, eps, answers).failed <==>
              exists i: nat :: i < |eps| && FailsAt(r, gw, workspace, eps, answers, i)
    decreases |eps|
  {
    if eps != [] {
      var e := |eps| - 1;
      FailsExactly(r, gw, workspace, eps[..e], answers[..e]);
      FailsNext(r, gw, workspace, eps, answers);
      if i: nat :| i < e && FailsAt(r, gw, workspace, eps[..e], answers[..e], i) {
        assert FailsAt(r, gw, workspace, eps, answers, i);
      }
      if i: nat :| i < |eps| && FailsAt(r, gw, workspace, eps, answers, i) {
        assert i < e ==> FailsAt(r, gw, workspace, eps[..e], answers[..e], i);
      }
    }
  }

  lemma FailsNext(r: Region, gw: Gateway, workspace: string, eps: seq<Endpoint>, answers: seq<Answers>)
    requires 0 < |eps| == |answers|
    ensures var e := |eps| - 1;
            && (Endpoints(r, gw, workspace, eps, answers).failed <==>
                  || Endpoints(r, gw, workspace, eps[..e], answers[..e]).failed
                  || FailsAt(r, gw, workspace, eps, answers, e))
            && forall i: nat :: i < e ==>
                 FailsAt(r, gw, workspace, eps[..e], answers[..e], i) == FailsAt(r, gw, workspace, eps, answers, i)
  {
    var e := |eps| - 1;
    forall i: nat | i < e
      ensures FailsAt(r, gw, workspace, eps[..e], answers[..e], i) == FailsAt(r, gw, workspace, eps, answers, i)
    {
      assert eps[..e][..i] == eps[..i] && answers[..e][..i] == answers[..i];
    }
  }

  /** What `EnsureRoutes` returns: an entry for every endpoint, or none at all and an
      error, exactly when the namespace could not be had or the call for some
      endpoint failed. */
  lemma EntriesMean(r: Region, gw: Gateway, workspace: string, mesh: map<string, string>, eps: seq<Endpoint>,
                    m: MirrorAnswers, answers: seq<Answers>)
    requires |answers| == |eps|
    ensures var (entries, failed) := EnsureEntries(r, gw, workspace, mesh, eps, m, answers);
            var nss := EnsureMirror(r, workspace, mesh, m);
            && (failed ==> entries == [])
            && (!failed ==> |entries| == |eps| && HostsOk(workspace, eps, answers, entries))
            && (failed <==>
                  || nss.None?
                  || exists i: nat ::
                       i < |eps| && FailsAt(r.(namespaces := nss.value), gw, workspace, eps, answers, i))
  {
    var nss := EnsureMirror(r, workspace, mesh, m);
    if nss.Some? {
      HostsAre(r.(namespaces := nss.value), gw, workspace, eps, answers);
      FailsExactly(r.(namespaces := nss.value), gw, workspace, eps, answers);
    }
  }

  // ---- cleanup and sweep ----------------------------------------------------

  /** A cleanup deletes this route. */
  ghost predicate Deletes(r: Region, k: RouteKey, workspace: string, a: CleanupAnswers)
    requires k in r.routes
  {
    && k.namespace == "ws-" + workspace && r.routes[k].workspace == Some(workspace)
    && (a.NamespaceError? || a.CleanupOk? || (a.RoutesError? && k in a.gone))
  }

  /** `CleanupRoutes`, exactly: the workspace's own routes go, as far as the delete
      got; its namespace is terminated if everything went through and it was there;
      every other route, namespace and label stays. */
  lemma CleanupMeans(r: Region, workspace: string, a: CleanupAnswers)
    ensures var r', ns := Cleanup(r, workspace, a), "ws-" + workspace;
            && r'.listeners == r.listeners
            && (forall k :: k in r'.routes <==> k in r.routes && !Deletes(r, k, workspace, a))
            && (forall k :: k in r'.routes ==> r'.routes[k] == r.routes[k])
            && r'.namespaces.Keys == r.namespaces.Keys
            && (forall n :: n in r.namespaces ==>
                  && r'.namespaces[n].labels == r.namespaces[n].labels
                  && r'.namespaces[n].terminating == (r.namespaces[n].terminating || (n == ns && a.CleanupOk?)))
  {
  }

  /** Live, labelled with a workspace that is not active. */
  ghost predicate Abandoned(r: Region, ns: string, active: set<string>) {
    && ns in r.namespaces && !r.namespaces[ns].terminating
    && "workspaces.exalsius.ai/workspace" in r.namespaces[ns].labels
    && r.namespaces[ns].labels["workspaces.exalsius.ai/workspace"] !in active + {""}
  }

  /** `SweepOrphans` on one cluster, exactly: in abandoned namespaces the routes go,
      as far as the delete got, and where it went through the namespace goes too,
      unless that delete fails; everything else stays. */
  lemma SweepMeans(r: Region, active: set<string>, a: SweepAnswers)
    ensures var r' := Sweep(r, active, a);
            && r'.listeners == r.listeners
            && (forall k :: k in r'.routes <==>
                  k in r.routes
                  && !(Abandoned(r, k.namespace, active) && (k.namespace in a.routesFail ==> k in a.gone)))
            && (forall k :: k in r'.routes ==> r'.routes[k] == r.routes[k])
            && r'.namespaces.Keys == r.namespaces.Keys
            && (forall n :: n in r.namespaces ==>
                  && r'.namespaces[n].labels == r.namespaces[n].labels
                  && (r'.namespaces[n].terminating <==>
                        || r.namespaces[n].terminating
                        || (Abandoned(r, n, active) && n !in a.routesFail && n !in a.nsFail)))
  {
  }
}
