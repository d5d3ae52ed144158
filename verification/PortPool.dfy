/** The Port Pool: TCP listeners of the tenant Gateway, taken by attaching
    TCPRoutes. The routes are the allocation table. */
module PortPool {
  import opened Text
  import opened Labels

  const LABEL_WORKSPACE := "workspaces.exalsius.ai/workspace"
  const MAX_LABEL := 63

  datatype Listener = Listener(name: string, protocol: string, port: int)
  datatype PoolListener = PoolListener(section: string, port: int)

  datatype ParentRef = ParentRef(name: string, namespace: Option<string>, section: Option<string>)
  datatype Backend = Backend(service: string, port: Option<int>)

  /** What one Gateway reports about a route: Accepted and ResolvedRefs. */
  datatype ParentStatus = ParentStatus(name: string, namespace: Option<string>, accepted: bool, resolved: bool)

  datatype Route = Route(workspace: Option<string>, parents: seq<ParentRef>, rules: seq<seq<Backend>>,
      status: seq<ParentStatus>)
  datatype RouteKey = RouteKey(namespace: string, name: string)
  datatype Namespace = Namespace(labels: map<string, string>, terminating: bool)

  /** What the provider reads and writes on one regional cluster. */
  datatype Region = Region(
    routes: map<RouteKey, Route>, namespaces: map<string, Namespace>, listeners: seq<Listener>)

  /** Where the tenant Gateway is. */
  datatype Gateway = Gateway(name: string, namespace: string)

  function MirrorNamespace(workspace: string): string {
    "ws-" + workspace
  }

  // ---- the pool -------------------------------------------------------------

  function TcpOnly(ls: seq<Listener>): seq<PoolListener> {
    if ls == [] then []
    else
      var l, rest := ls[|ls| - 1], TcpOnly(ls[..|ls| - 1]);
      if l.protocol == "TCP" then rest + [PoolListener(l.name, l.port)] else rest
  }

  function InsertByPort(x: PoolListener, s: seq<PoolListener>): seq<PoolListener> {
    if s == [] || x.port < s[0].port then [x] + s else [s[0]] + InsertByPort(x, s[1..])
  }

  function SortByPort(s: seq<PoolListener>): seq<PoolListener> {
    if s == [] then [] else InsertByPort(s[|s| - 1], SortByPort(s[..|s| - 1]))
  }

  function Pool(ls: seq<Listener>): seq<PoolListener> {
    SortByPort(TcpOnly(ls))
  }

  ghost predicate ByPort(s: seq<PoolListener>) {
    forall i, j :: 0 <= i < j < |s| ==> s[i].port <= s[j].port
  }

  lemma {:induction false} InsertByPortSorted(x: PoolListener, s: seq<PoolListener>)
    requires ByPort(s)
    ensures ByPort(InsertByPort(x, s))
    ensures forall y :: y in InsertByPort(x, s) <==> y == x || y in s
  {
    if s != [] && s[0].port <= x.port {
      InsertByPortSorted(x, s[1..]);
      var t := InsertByPort(x, s[1..]);
      forall j | 0 <= j < |t| ensures s[0].port <= t[j].port {
        assert t[j] in t;
        if t[j] != x {
          var i :| 0 <= i < |s[1..]| && s[1..][i] == t[j];
          assert s[i + 1] == t[j];
        }
      }
    }
  }

  lemma {:induction false} SortByPortSorted(s: seq<PoolListener>)
    ensures ByPort(SortByPort(s))
    ensures forall y :: y in SortByPort(s) <==> y in s
  {
    if s != [] {
      var e := |s| - 1;
      SortByPortSorted(s[..e]);
      InsertByPortSorted(s[e], SortByPort(s[..e]));
      assert s == s[..e] + [s[e]];
    }
  }

  /** A section-port pair of a TCP listener of the Gateway. */
  predicate IsTcp(ls: seq<Listener>, x: PoolListener) {
    Listener(x.section, "TCP", x.port) in ls
  }

  lemma {:induction false} TcpOnlyMembers(ls: seq<Listener>)
    ensures forall x :: x in TcpOnly(ls) <==> IsTcp(ls, x)
  {
    if ls != [] {
      var e := |ls| - 1;
      TcpOnlyMembers(ls[..e]);
      assert ls == ls[..e] + [ls[e]];
    }
  }

  lemma PoolIsTcpListeners(ls: seq<Listener>)
    ensures ByPort(Pool(ls)) && forall x :: x in Pool(ls) <==> IsTcp(ls, x)
  {
    TcpOnlyMembers(ls);
    SortByPortSorted(TcpOnly(ls));
  }

  /** `tcpListeners`: filter, then sort by port. */
  method TcpListeners(ls: seq<Listener>) returns (pool: seq<PoolListener>)
    ensures pool == Pool(ls)
  {
    var found: seq<PoolListener> := [];
    for i := 0 to |ls|
      invariant found == TcpOnly(ls[..i])
    {
      assert ls[..i + 1][..i] == ls[..i];
      if ls[i].protocol != "TCP" {
        continue;
      }
      found := found + [PoolListener(ls[i].name, ls[i].port)];
    }
    assert ls[..|ls|] == ls;
    pool := [];
    for i := 0 to |found|
      invariant pool == SortByPort(found[..i])
    {
      assert found[..i + 1][..i] == found[..i];
      pool := InsertByPort(found[i], pool);
    }
    assert found[..|found|] == found;
  }

  // ---- who holds what -------------------------------------------------------

  function SectionOf(parents: seq<ParentRef>, routeNs: string, gw: Gateway): string {
    if parents == [] then ""
    else
      var ref := parents[0];
      var ns := if ref.namespace.Some? then ref.namespace.value else routeNs;
      if ref.name == gw.name && ref.section.Some? && ns == gw.namespace then ref.section.value
      else SectionOf(parents[1..], routeNs, gw)
  }

  /** `allocatedSection`: the listener a route holds, or "". */
  function Section(r: Region, k: RouteKey, gw: Gateway): string
    requires k in r.routes
  {
    SectionOf(r.routes[k].parents, k.namespace, gw)
  }

  function Held(r: Region, gw: Gateway): set<string> {
    set k | k in r.routes && Section(r, k, gw) != "" :: Section(r, k, gw)
  }

  /** First listener of a pool that nobody holds. */
  function FirstFree(pool: seq<PoolListener>, held: set<string>): Option<PoolListener> {
    if pool == [] then None
    else if pool[0].section !in held then Some(pool[0])
    else FirstFree(pool[1..], held)
  }

  lemma {:induction false} FirstFreeIsLowest(pool: seq<PoolListener>, held: set<string>)
    requires ByPort(pool)
    ensures FirstFree(pool, held).None? <==> forall x :: x in pool ==> x.section in held
    ensures FirstFree(pool, held).Some? ==>
      var c := FirstFree(pool, held).value;
      c in pool && c.section !in held && forall x :: x in pool && x.section !in held ==> c.port <= x.port
  {
    if pool != [] {
      assert pool == [pool[0]] + pool[1..];
      FirstFreeIsLowest(pool[1..], held);
      forall x | x in pool ensures pool[0].port <= x.port {
        var i :| 0 <= i < |pool| && pool[i] == x;
      }
    }
  }

  function PortOf(pool: seq<PoolListener>, section: string): Option<int> {
    if pool == [] then None
    else if pool[0].section == section then Some(pool[0].port)
    else PortOf(pool[1..], section)
  }

  // ---- one SSH/TCP endpoint -------------------------------------------------

  datatype Endpoint = Endpoint(name: string, http: bool, service: string, port: int)

  /** How the regional API answers while one endpoint is handled. */
  datatype Answers = Answers(
    mirrorError: bool, programmed: bool, noMatch: bool, getError: bool, listError: bool, created: Creation,
        updateError: bool)

  datatype Access =
    | NameTooLong | LabelTooLong | Http(host: string, ready: bool) | NoPool | NotInstalled | Exhausted(size: nat)
    | Allocated(port: int) | Detached | Shrunk(section: string) | Attached(port: int, ready: bool)

  datatype Outcome = Done(access: Access) | ApiError

  function NewRoute(workspace: string, gw: Gateway, section: string, ep: Endpoint): Route {
    Route(Some(workspace), [ParentRef(gw.name, Some(gw.namespace), Some(section))],
      [[Backend(ep.service, Some(ep.port))]], [])
  }

  predicate Ours(s: ParentStatus, gw: Gateway) {
    s.name == gw.name && (s.namespace.None? || s.namespace.value == gw.namespace)
  }

  /** `parentsProgrammed`: the first report of our Gateway decides. */
  function Programmed(status: seq<ParentStatus>, gw: Gateway): bool {
    if status == [] then false
    else if Ours(status[0], gw) then status[0].accepted && status[0].resolved
    else Programmed(status[1..], gw)
  }

  method ParentsProgrammed(status: seq<ParentStatus>, gw: Gateway) returns (ready: bool)
    ensures ready == Programmed(status, gw)
  {
    for i := 0 to |status|
      invariant Programmed(status, gw) == Programmed(status[i..], gw)
    {
      if !Ours(status[i], gw) {
        continue;
      }
      return status[i].accepted && status[i].resolved;
    }
    return false;
  }

  /** `ensureTCPRoute`: the new routes table and the endpoint's access entry. */
  function EnsureTcp(r: Region, gw: Gateway, ns: string, workspace: string, ep: Endpoint, a: Answers): (map<RouteKey,
                     Route>, Outcome) {
    var pool, k := Pool(r.listeners), RouteKey(ns, ep.name);
    var wanted := [[Backend(ep.service, Some(ep.port))]];
    if pool == [] then (r.routes, Done(NoPool))
    else if a.noMatch then (r.routes, Done(NotInstalled))
    else if a.getError then (r.routes, ApiError)
    else if k !in r.routes then
      if a.listError then (r.routes, ApiError)
      else
        var chosen := FirstFree(pool, Held(r, gw));
        if chosen.None? then (r.routes, Done(Exhausted(|pool|)))
        else if a.created == Refused then (r.routes, ApiError)
        else if a.created == AlreadyExists then (r.routes, Done(Allocated(chosen.value.port)))
        else (r.routes[k := NewRoute(workspace, gw, chosen.value.section, ep)], Done(Allocated(chosen.value.port)))
    else
      var section := Section(r, k, gw);
      if section == "" then (r.routes, Done(Detached))
      else if PortOf(pool, section).None? then (r.routes, Done(Shrunk(section)))
      else
        var attached := Done(Attached(PortOf(pool, section).value, Programmed(r.routes[k].status, gw)));
        if r.routes[k].rules == wanted then (r.routes, attached)
        else if a.updateError then (r.routes, ApiError)
        else (r.routes[k := r.routes[k].(rules := wanted)], attached)
  }

  /** A new endpoint gets the lowest port nobody holds. */
  lemma AllocatesLowestFree(r: Region, gw: Gateway, ns: string, workspace: string, ep: Endpoint, a: Answers)
    requires var k := RouteKey(ns, ep.name); k !in r.routes && k in EnsureTcp(r, gw, ns, workspace, ep, a).0
    ensures var routes := EnsureTcp(r, gw, ns, workspace, ep, a).0;
            var section := SectionOf(routes[RouteKey(ns, ep.name)].parents, ns, gw);
            && section !in Held(r, gw)
            && exists x :: IsTcp(r.listeners, x) && x.section == section
                 && EnsureTcp(r, gw, ns, workspace, ep, a).1 == Done(Allocated(x.port))
                 && forall y :: IsTcp(r.listeners, y) && y.section !in Held(r, gw) ==> x.port <= y.port
  {
    PoolIsTcpListeners(r.listeners);
    FirstFreeIsLowest(Pool(r.listeners), Held(r, gw));
    var c := FirstFree(Pool(r.listeners), Held(r, gw)).value;
    assert IsTcp(r.listeners, c);
  }

  /** Exhaustion is reported exactly when the pool exists and every listener of
      it is held. */
  lemma ExhaustedExactly(r: Region, gw: Gateway, ns: string, workspace: string, ep: Endpoint, a: Answers)
    requires RouteKey(ns, ep.name) !in r.routes && !a.noMatch && !a.getError && !a.listError
    ensures EnsureTcp(r, gw, ns, workspace, ep, a).1 == Done(Exhausted(|Pool(r.listeners)|))
       <==> (exists x :: IsTcp(r.listeners, x)) && (forall x :: IsTcp(r.listeners, x) ==> x.section in Held(r, gw))
  {
    var pool := Pool(r.listeners);
    PoolIsTcpListeners(r.listeners);
    FirstFreeIsLowest(pool, Held(r, gw));
    if pool != [] {
      assert IsTcp(r.listeners, pool[0]);
    }
  }

  // ---- all endpoints of a workspace -----------------------------------------

  /** Loop state: the cluster, the entries so far, whether the bare hostname is
      taken, and whether a call failed. */
  datatype Progress = Progress(routes: map<RouteKey, Route>, entries: seq<Access>, primary: bool, failed: bool)

  /** The first HTTP endpoint gets the bare workspace name. */
  function HostLabel(workspace: string, ep: Endpoint, primary: bool): string {
    if primary then workspace + "-" + ep.name else workspace
  }

  predicate Assigns(ep: Endpoint) {
    ep.http && |ep.service| <= MAX_LABEL
  }

  function OneEndpoint(r: Region, gw: Gateway, workspace: string, ep: Endpoint, a: Answers, primary: bool)
      : (map<RouteKey, Route>, Outcome)
  {
    var host := HostLabel(workspace, ep, primary);
    if |ep.service| > MAX_LABEL then (r.routes, Done(NameTooLong))
    else if ep.http && |host| > MAX_LABEL then (r.routes, Done(LabelTooLong))
    else if a.mirrorError then (r.routes, ApiError)
    else if ep.http then (r.routes, Done(Http(host, a.programmed)))
    else EnsureTcp(r, gw, MirrorNamespace(workspace), workspace, ep, a)
  }

  function Endpoints(r: Region, gw: Gateway, workspace: string, eps: seq<Endpoint>,
                     answers: seq<Answers>): (p: Progress)
    requires |answers| == |eps|
  {
    if eps == [] then Progress(r.routes, [], false, false)
    else
      var e := |eps| - 1;
      var before := Endpoints(r, gw, workspace, eps[..e], answers[..e]);
      if before.failed then before
      else
        var mid, primary := r.(routes := before.routes), before.primary || Assigns(eps[e]);
        var (routes, outcome) := OneEndpoint(mid, gw, workspace, eps[e], answers[e], before.primary);
        if outcome.ApiError? then Progress(routes, before.entries, primary, true)
        else Progress(routes, before.entries + [outcome.access], primary, false)
  }

  /** Some endpoint is HTTP and its service name fits a label. */
  predicate AnyAssigns(eps: seq<Endpoint>) {
    exists h :: 0 <= h < |eps| && eps[h].http && |eps[h].service| <= 63
  }

  /** Entry `i`: a service name or a hostname that does not fit a label is reported;
      any other HTTP endpoint gets its hostname, the bare workspace name exactly if
      no endpoint before it could take that. */
  ghost predicate HostOk(workspace: string, eps: seq<Endpoint>, answers: seq<Answers>, e: Access, i: nat) {
    && i < |eps| == |answers|
    && var ep := eps[i];
       var host := if AnyAssigns(eps[..i]) then workspace + "-" + ep.name else workspace;
       && (e.NameTooLong? <==> |ep.service| > 63)
       && (e.LabelTooLong? <==> |ep.service| <= 63 && ep.http && |host| > 63)
       && (e.Http? <==> |ep.service| <= 63 && ep.http && |host| <= 63)
       && (e.Http? ==> e.host == host && e.ready == answers[i].programmed)
  }

  lemma HostNext(workspace: string, eps: seq<Endpoint>, answers: seq<Answers>, i: nat, e: Access)
    requires 0 < |eps| == |answers| && i < |eps| - 1
    requires HostOk(workspace, eps[..|eps| - 1], answers[..|eps| - 1], e, i)
    ensures HostOk(workspace, eps, answers, e, i)
  {
    assert eps[..|eps| - 1][..i] == eps[..i];
  }

  lemma AssignsNext(eps: seq<Endpoint>)
    requires eps != []
    ensures AnyAssigns(eps) <==> AnyAssigns(eps[..|eps| - 1]) || Assigns(eps[|eps| - 1])
  {
    var e := |eps| - 1;
    assert forall h :: 0 <= h < e ==> eps[..e][h] == eps[h];
  }

  ghost predicate HostsOk(workspace: string, eps: seq<Endpoint>, answers: seq<Answers>, entries: seq<Access>) {
    |entries| <= |eps| && forall i :: 0 <= i < |entries| ==> HostOk(workspace, eps, answers, entries[i], i)
  }

  lemma HostsOnce(workspace: string, eps: seq<Endpoint>, answers: seq<Answers>, entries: seq<Access>)
    requires 0 < |eps| == |answers| && HostsOk(workspace, eps[..|eps| - 1], answers[..|eps| - 1], entries)
    ensures HostsOk(workspace, eps, answers, entries)
  {
    forall i | 0 <= i < |entries| ensures HostOk(workspace, eps, answers, entries[i], i) {
      HostNext(workspace, eps, answers, i, entries[i]);
    }
  }

  lemma OneHost(r: Region, gw: Gateway, workspace: string, eps: seq<Endpoint>, answers: seq<Answers>, primary: bool)
    requires 0 < |eps| == |answers| && primary == AnyAssigns(eps[..|eps| - 1])
    ensures var e := |eps| - 1;
            var o := OneEndpoint(r, gw, workspace, eps[e], answers[e], primary).1;
            o.Done? ==> HostOk(workspace, eps, answers, o.access, e)
  {
  }

  /** The endpoint loop judges every name and hands out the bare hostname once, to
      the first HTTP endpoint. */
  lemma {:induction false} HostsAre(r: Region, gw: Gateway, workspace: string, eps: seq<Endpoint>,
                                    answers: seq<Answers>)
    requires |answers| == |eps|
    ensures var p := Endpoints(r, gw, workspace, eps, answers);
            && HostsOk(workspace, eps, answers, p.entries)
            && (!p.failed ==> |p.entries| == |eps| && p.primary == AnyAssigns(eps))
    decreases |eps|
  {
    if eps != [] {
      var e := |eps| - 1;
      HostsAre(r, gw, workspace, eps[..e], answers[..e]);
      var before := Endpoints(r, gw, workspace, eps[..e], answers[..e]);
      HostsOnce(workspace, eps, answers, before.entries);
      AssignsNext(eps);
      if !before.failed {
        OneHost(r.(routes := before.routes), gw, workspace, eps, answers, before.primary);
      }
    }
  }

  /** Endpoints with distinct names get distinct hostnames. */
  lemma HostsAreDistinct(r: Region, gw: Gateway, workspace: string, eps: seq<Endpoint>, answers: seq<Answers>, i: nat,
                         j: nat)
    requires |answers| == |eps| && i < j < |Endpoints(r, gw, workspace, eps, answers).entries| <= |eps|
    requires eps[i].name != eps[j].name
    ensures var entries := Endpoints(r, gw, workspace, eps, answers).entries;
            entries[i].Http? && entries[j].Http? ==> entries[i].host != entries[j].host
  {
    HostsAre(r, gw, workspace, eps, answers);
    var entries := Endpoints(r, gw, workspace, eps, answers).entries;
    assert HostOk(workspace, eps, answers, entries[i], i) && HostOk(workspace, eps, answers, entries[j], j);
    if entries[i].Http? && entries[j].Http? {
      assert eps[..j][i] == eps[i];
      LabelsDiffer(workspace, eps[i], eps[j], AnyAssigns(eps[..i]));
    }
  }

  lemma LabelsDiffer(workspace: string, a: Endpoint, b: Endpoint, primary: bool)
    requires a.name != b.name
    ensures HostLabel(workspace, a, primary) != HostLabel(workspace, b, true)
  {
    var n := |workspace| + 1;
    assert (workspace + "-" + a.name)[n..] == a.name && (workspace + "-" + b.name)[n..] == b.name;
  }

  datatype MirrorAnswers = MirrorAnswers(getError: bool, write: Creation)

  /** `ensureMirrorNamespace`: refuses a terminating namespace, heals labels. */
  function EnsureMirror(r: Region, workspace: string, mesh: map<string, string>,
                        a: MirrorAnswers): Option<map<string, Namespace>> {
    var ns, desired := MirrorNamespace(workspace), map[LABEL_WORKSPACE := workspace] + mesh;
    if a.getError then None
    else if ns !in r.namespaces then
      match a.write
      case Refused => None
      case AlreadyExists => Some(r.namespaces)
      case Written => Some(r.namespaces[ns := Namespace(desired, false)])
    else if r.namespaces[ns].terminating then None
    else
      var labels := r.namespaces[ns].labels;
      if Differing(labels, desired) == map[] then Some(r.namespaces)
      else if a.write.Refused? then None
      else Some(r.namespaces[ns := r.namespaces[ns].(labels := Healed(labels, desired))])
  }

  /** `EnsureRoutes` after the Gateway was resolved. */
  function Ensure(r: Region, gw: Gateway, workspace: string, mesh: map<string, string>,
                  eps: seq<Endpoint>, m: MirrorAnswers, answers: seq<Answers>): Region
    requires |answers| == |eps|
  {
    var nss := EnsureMirror(r, workspace, mesh, m);
    if nss.None? then r
    else
      var r' := r.(namespaces := nss.value);
      r'.(routes := Endpoints(r', gw, workspace, eps, answers).routes)
  }

  /** What `EnsureRoutes` returns: no entries at all once a call failed. */
  function EnsureEntries(r: Region, gw: Gateway, workspace: string, mesh: map<string, string>,
                         eps: seq<Endpoint>, m: MirrorAnswers, answers: seq<Answers>): (seq<Access>, bool)
    requires |answers| == |eps|
  {
    var nss := EnsureMirror(r, workspace, mesh, m);
    if nss.None? then ([], true)
    else
      var p := Endpoints(r.(namespaces := nss.value), gw, workspace, eps, answers);
      if p.failed then ([], true) else (p.entries, false)
  }

  // ---- teardown -------------------------------------------------------------

  /** A bulk delete that fails may have removed some of the routes. */
  datatype CleanupAnswers = NothingToClean | Unreachable | RoutesError(gone: set<RouteKey>) | NamespaceError | CleanupOk

  function Terminate(nss: map<string, Namespace>, ns: string): map<string, Namespace> {
    if ns in nss then nss[ns := nss[ns].(terminating := true)] else nss
  }

  /** `CleanupRoutes`: routes first, namespace second. */
  function Cleanup(r: Region, workspace: string, a: CleanupAnswers): Region {
    var ns := MirrorNamespace(workspace);
    if a.NothingToClean? || a.Unreachable? then r
    else
      var kept := map k | k in r.routes && !(Targets(r.routes, k, workspace) && (a.RoutesError? ==>
          k in a.gone)) :: r.routes[k];
      Region(kept, if a.CleanupOk? then Terminate(r.namespaces, ns) else r.namespaces, r.listeners)
  }

  /** The routes a cleanup of `workspace` deletes. */
  predicate Targets(routes: map<RouteKey, Route>, k: RouteKey, workspace: string)
    requires k in routes
  {
    k.namespace == MirrorNamespace(workspace) && routes[k].workspace == Some(workspace)
  }

  /** A namespace the sweep acts on: labelled, live, its workspace not active. */
  predicate Orphan(r: Region, ns: string, active: set<string>) {
    && ns in r.namespaces && !r.namespaces[ns].terminating
    && LABEL_WORKSPACE in r.namespaces[ns].labels
    && r.namespaces[ns].labels[LABEL_WORKSPACE] != ""
    && r.namespaces[ns].labels[LABEL_WORKSPACE] !in active
  }

  /** How one cluster answers a sweep: where deleting the routes failed, which
      routes such a failed delete removed all the same, and where deleting the
      namespace failed. */
  datatype SweepAnswers = SweepAnswers(routesFail: set<string>, gone: set<RouteKey>, nsFail: set<string>)

  predicate Swept(r: Region, k: RouteKey, active: set<string>, a: SweepAnswers) {
    Orphan(r, k.namespace, active) && (k.namespace in a.routesFail ==> k in a.gone)
  }

  /** `SweepOrphans` on one cluster, pointwise. */
  function Sweep(r: Region, active: set<string>, a: SweepAnswers): Region {
    Region(
      map k | k in r.routes && !Swept(r, k, active, a) :: r.routes[k],
      map ns | ns in r.namespaces ::
        if Orphan(r, ns, active) && ns !in a.routesFail && ns !in a.nsFail then r.namespaces[ns].(terminating := true)
        else r.namespaces[ns],
      r.listeners)
  }

  // ---- the operator's code over a stored cluster ----------------------------

  class RegionalCluster {
    var routes: map<RouteKey, Route>
    var namespaces: map<string, Namespace>
    var listeners: seq<Listener>

    ghost function View(): Region
      reads this
    {
      Region(routes, namespaces, listeners)
    }

    /** `allocatedSections`. */
    method AllocatedSections(gw: Gateway) returns (taken: set<string>)
      ensures taken == Held(View(), gw)
    {
      taken := {};
      var rest := routes.Keys;
      while rest != {}
        invariant rest <= routes.Keys
        invariant taken == set k | k in routes && k !in rest && Section(View(), k, gw) != "" :: Section(View(), k, gw)
        decreases |rest|
      {
        var k :| k in rest;
        var s := SectionOf(routes[k].parents, k.namespace, gw);
        assert s == Section(View(), k, gw);
        if s != "" {
          taken := taken + {s};
        }
        rest := rest - {k};
      }
    }

    method EnsureTcpRoute(gw: Gateway, ns: string, workspace: string, ep: Endpoint, a: Answers) returns (o: Outcome)
      modifies this`routes
      ensures (routes, o) == old(EnsureTcp(View(), gw, ns, workspace, ep, a))
    {
      var pool := TcpListeners(listeners);
      if |pool| == 0 {
        return Done(NoPool);
      }
      if a.noMatch {
        return Done(NotInstalled);
      }
      if a.getError {
        return ApiError;
      }
      var k := RouteKey(ns, ep.name);
      if k !in routes {
        if a.listError {
          return ApiError;
        }
        var taken := AllocatedSections(gw);
        var i := 0;
        while i < |pool| && pool[i].section in taken
          invariant 0 <= i <= |pool|
          invariant FirstFree(pool, taken) == FirstFree(pool[i..], taken)
        {
          assert pool[i..][1..] == pool[i + 1..];
          i := i + 1;
        }
        if i == |pool| {
          return Done(Exhausted(|pool|));
        }
        assert FirstFree(pool[i..], taken) == Some(pool[i]);
        match a.created {
          case Refused => return ApiError;
          case AlreadyExists =>
          case Written => routes := routes[k := NewRoute(workspace, gw, pool[i].section, ep)];
        }
        return Done(Allocated(pool[i].port));
      }
      var section := SectionOf(routes[k].parents, ns, gw);
      if section == "" {
        return Done(Detached);
      }
      var port := PortOf(pool, section);
      if port.None? {
        return Done(Shrunk(section));
      }
      var wanted := [[Backend(ep.service, Some(ep.port))]];
      if routes[k].rules != wanted {
        if a.updateError {
          return ApiError;
        }
        routes := routes[k := routes[k].(rules := wanted)];
      }
      var ready := ParentsProgrammed(routes[k].status, gw);
      o := Done(Attached(port.value, ready));
    }

    /** `ensureMirrorNamespace`. */
    method EnsureMirrorNamespace(workspace: string, mesh: map<string, string>, m: MirrorAnswers) returns (ok: bool)
      modifies this`namespaces
      ensures var nss := old(EnsureMirror(View(), workspace, mesh, m));
              ok == nss.Some? && namespaces == if ok then nss.value else old(namespaces)
    {
      var ns, desired := MirrorNamespace(workspace), map[LABEL_WORKSPACE := workspace] + mesh;
      if m.getError {
        return false;
      }
      if ns !in namespaces {
        if m.write.Refused? {
          return false;
        }
        if m.write.Written? {
          namespaces := namespaces[ns := Namespace(desired, false)];
        }
        return true;
      }
      if namespaces[ns].terminating {
        return false;
      }
      var healed, changed := ApplyMissingLabels(namespaces[ns].labels, desired);
      if changed {
        if m.write.Refused? {
          return false;
        }
        namespaces := namespaces[ns := namespaces[ns].(labels := healed)];
      }
      return true;
    }

    /** One turn of the endpoint loop. */
    method EnsureEndpoint(gw: Gateway, workspace: string, ep: Endpoint, a: Answers, primary: bool)
        returns (o: Outcome, primary': bool)
      modifies this`routes
      ensures (routes, o) == old(OneEndpoint(View(), gw, workspace, ep, a, primary))
      ensures primary' == (primary || Assigns(ep))
    {
      primary' := primary;
      if |ep.service| > MAX_LABEL {
        return Done(NameTooLong), primary';
      }
      if !ep.http {
        if a.mirrorError {
          return ApiError, primary';
        }
        o := EnsureTcpRoute(gw, MirrorNamespace(workspace), workspace, ep, a);
        return;
      }
      var host := workspace;
      if primary {
        host := workspace + "-" + ep.name;
      }
      primary' := true;
      if |host| > MAX_LABEL {
        return Done(LabelTooLong), primary';
      }
      if a.mirrorError {
        return ApiError, primary';
      }
      o := Done(Http(host, a.programmed));
    }

    method EnsureRoutes(gw: Gateway, workspace: string, mesh: map<string, string>,
                        eps: seq<Endpoint>, m: MirrorAnswers, answers: seq<Answers>)
        returns (entries: seq<Access>, failed: bool)
      requires |answers| == |eps|
      modifies this
      ensures View() == old(Ensure(View(), gw, workspace, mesh, eps, m, answers))
      ensures (entries, failed) == old(EnsureEntries(View(), gw, workspace, mesh, eps, m, answers))
    {
      entries, failed := [], false;
      var mirrored := EnsureMirrorNamespace(workspace, mesh, m);
      if !mirrored {
        return [], true;
      }
      ghost var r := View();
      var primary := false;
      for i := 0 to |eps|
        invariant namespaces == r.namespaces && listeners == r.listeners && !failed
        invariant Progress(routes, entries, primary, false) == Endpoints(r, gw, workspace, eps[..i], answers[..i])
      {
        assert eps[..i + 1][..i] == eps[..i] && answers[..i + 1][..i] == answers[..i];
        assert View() == r.(routes := routes);
        var o;
        o, primary := EnsureEndpoint(gw, workspace, eps[i], answers[i], primary);
        if o.ApiError? {
          Halted(r, gw, workspace, eps, answers, i + 1);
          return [], true;
        }
        entries := entries + [o.access];
      }
      assert eps[..|eps|] == eps && answers[..|eps|] == answers;
    }

    method CleanupRoutes(workspace: string, a: CleanupAnswers) returns (ok: bool)
      modifies this
      ensures View() == old(Cleanup(View(), workspace, a))
      ensures ok <==> a.NothingToClean? || a.CleanupOk?
    {
      if a.NothingToClean? {
        return true;
      }
      if a.Unreachable? {
        return false;
      }
      var ns := MirrorNamespace(workspace);
      if a.RoutesError? {
        routes := map k | k in routes && !(Targets(routes, k, workspace) && k in a.gone) :: routes[k];
        return false;
      }
      routes := map k | k in routes && !Targets(routes, k, workspace) :: routes[k];
      if a.NamespaceError? {
        return false;
      }
      namespaces := Terminate(namespaces, ns);
      ok := true;
    }

    /** One namespace of a sweep: its routes first, then itself. */
    method SweepNamespace(ns: string, active: set<string>, a: SweepAnswers)
      modifies this
      ensures View() == old(SweepTurn(View(), ns, active, a))
    {
      if !Orphan(Region(routes, namespaces, listeners), ns, active) {
        return;
      }
      if ns in a.routesFail {
        routes := map k | k in routes && !(k.namespace == ns && k in a.gone) :: routes[k];
        return;
      }
      routes := map k | k in routes && k.namespace != ns :: routes[k];
      if ns !in a.nsFail {
        namespaces := Terminate(namespaces, ns);
      }
    }

    /** One cluster of `SweepOrphans`; the namespace list comes in any order. */
    method SweepNamespaces(active: set<string>, a: SweepAnswers)
      modifies this
      ensures View() == old(Sweep(View(), active, a))
    {
      ghost var r := View();
      var rest := namespaces.Keys;
      SweepNothing(r, active, a, rest);
      while rest != {}
        invariant rest <= r.namespaces.Keys
        invariant View() == Sweep(r, active, Skipping(a, rest))
        decreases |rest|
      {
        var ns :| ns in rest;
        SweepOne(r, active, a, rest, ns);
        SweepNamespace(ns, active, a);
        rest := rest - {ns};
      }
      SkippingNone(a);
    }
  }

  /** What taking one namespace does: nothing unless it is an orphan; otherwise
      its routes go, as far as the delete gets, and then the namespace. */
  function SweepTurn(r: Region, ns: string, active: set<string>, a: SweepAnswers): Region {
    if !Orphan(r, ns, active) then r
    else if ns in a.routesFail then
      r.(routes := map k | k in r.routes && !(k.namespace == ns && k in a.gone) :: r.routes[k])
    else Region(map k | k in r.routes && k.namespace != ns :: r.routes[k],
                if ns in a.nsFail then r.namespaces else Terminate(r.namespaces, ns), r.listeners)
  }

  /** The answers of a sweep that has not reached `rest` yet. */
  ghost function Skipping(a: SweepAnswers, rest: set<string>): SweepAnswers {
    SweepAnswers(a.routesFail + rest, (set k | k in a.gone && k.namespace !in rest), a.nsFail)
  }

  lemma SkippingNone(a: SweepAnswers)
    ensures Skipping(a, {}) == a
  {
    assert Skipping(a, {}).gone == a.gone;
  }

  lemma SweepNothing(r: Region, active: set<string>, a: SweepAnswers, rest: set<string>)
    requires r.namespaces.Keys <= rest
    ensures Sweep(r, active, Skipping(a, rest)) == r
  {
    assert Sweep(r, active, Skipping(a, rest)).routes == r.routes;
    assert Sweep(r, active, Skipping(a, rest)).namespaces == r.namespaces;
  }

  /** One more namespace, seen route by route. */
  lemma SweptNext(r: Region, active: set<string>, a: SweepAnswers, rest: set<string>, ns: string, k: RouteKey)
    requires ns in rest
    ensures Swept(r, k, active, Skipping(a, rest - {ns})) <==>
              || Swept(r, k, active, Skipping(a, rest))
              || (k.namespace == ns && Orphan(r, ns, active) && (ns in a.routesFail ==> k in a.gone))
  {
  }

  /** A partial sweep is a sweep that skips the namespaces still to come. */
  lemma SweepOne(r: Region, active: set<string>, a: SweepAnswers, rest: set<string>, ns: string)
    requires ns in rest
    ensures Sweep(r, active, Skipping(a, rest - {ns})) == SweepTurn(Sweep(r, active, Skipping(a, rest)), ns, active, a)
  {
    var cur, next := Sweep(r, active, Skipping(a, rest)), Sweep(r, active, Skipping(a, rest - {ns}));
    assert Orphan(cur, ns, active) <==> Orphan(r, ns, active);
    var turn := SweepTurn(cur, ns, active, a);
    forall k ensures k in next.routes <==> k in turn.routes {
      SweptNext(r, active, a, rest, ns, k);
    }
    assert next.routes == turn.routes;
    assert next.namespaces == turn.namespaces;
  }

  /** Once a call failed the remaining endpoints are not touched. */
  lemma {:induction false} Halted(r: Region, gw: Gateway, workspace: string, eps: seq<Endpoint>, answers: seq<Answers>,
                                  i: nat)
    requires |answers| == |eps| && i <= |eps|
    requires Endpoints(r, gw, workspace, eps[..i], answers[..i]).failed
    ensures Endpoints(r, gw, workspace, eps, answers) == Endpoints(r, gw, workspace, eps[..i], answers[..i])
    decreases |eps|
  {
    if i == |eps| {
      assert eps[..i] == eps && answers[..i] == answers;
    } else {
      var e := |eps| - 1;
      assert eps[..e][..i] == eps[..i] && answers[..e][..i] == answers[..i];
      Halted(r, gw, workspace, eps[..e], answers[..e], i);
    }
  }

  /** `SweepOrphans` over the fleet: unreachable clusters are skipped, and each
      cluster answers for itself. */
  method SweepOrphans(clusters: seq<RegionalCluster>, reachable: seq<bool>, active: set<string>,
                      answers: seq<SweepAnswers>)
    requires |reachable| == |clusters| == |answers|
    requires forall i, j :: 0 <= i < j < |clusters| ==> clusters[i] != clusters[j]
    modifies clusters
    ensures forall i :: 0 <= i < |clusters| ==>
      clusters[i].View() == if reachable[i] then old(Sweep(clusters[i].View(), active, answers[i]))
          else old(clusters[i].View())
  {
    for i := 0 to |clusters|
      invariant forall j :: 0 <= j < i ==>
        clusters[j].View() == if reachable[j] then old(Sweep(clusters[j].View(), active, answers[j]))
            else old(clusters[j].View())
      invariant forall j :: i <= j < |clusters| ==> clusters[j].View() == old(clusters[j].View())
    {
      if !reachable[i] {
        continue;
      }
      clusters[i].SweepNamespaces(active, answers[i]);
    }
  }
}
