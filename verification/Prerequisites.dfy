/** Prerequisites of a WorkspaceClass: judged against the shared installs and the
    colony's services, installed once per cluster, never moved. */
module Prerequisites {
  import opened Text

  datatype Prereq = Prereq(template: string, versionConstraint: string, namespace: string)

  datatype State = Deployed | Broken | Unsettled
  datatype Service = Service(template: string, namespace: string)
  datatype Report = Report(template: string, namespace: string, state: State)

  /** What a ClusterDeployment or a ServiceSet asks for, and what it reports. */
  datatype Services = Services(spec: seq<Service>, status: seq<Report>)

  /** The prerequisite ServiceSets of one cluster, by template. */
  type Sets = map<string, Services>

  datatype Phase = Pending | Installing | Satisfied | Failed
  datatype Source = Unassigned | Workspace | Colony
  datatype Status = Status(name: string, source: Source, namespace: string, phase: Phase)

  datatype Verdict = AllSatisfied | SomeInstalling | SomeMissing | SomeFailed | Invalid | SomeConflict
  datatype Outcome = Judged(verdict: Verdict, statuses: seq<Status>) | EvaluationError

  // ---- who provides a template, and where -----------------------------------

  /** The namespace of the last report on `t`. */
  function LastReported(rs: seq<Report>, t: string): Option<string> {
    if rs == [] then None
    else if rs[|rs| - 1].template == t then Some(rs[|rs| - 1].namespace)
    else LastReported(rs[..|rs| - 1], t)
  }

  /** The namespace of the first service of template `t`. */
  function FirstListed(ss: seq<Service>, t: string): Option<string> {
    if ss == [] then None
    else
      var f := FirstListed(ss[..|ss| - 1], t);
      if f.Some? then f else if ss[|ss| - 1].template == t then Some(ss[|ss| - 1].namespace) else None
  }

  /** The state in the first report on `t`. */
  function FirstState(rs: seq<Report>, t: string): State {
    if rs == [] then Unsettled else if rs[0].template == t then rs[0].state else FirstState(rs[1..], t)
  }

  predicate ColonyDeployed(c: Services, t: string) {
    exists r :: r in c.status && r.template == t && r.state == Deployed
  }

  predicate ColonyKnown(c: Services, t: string) {
    LastReported(c.status, t).Some? || FirstListed(c.spec, t).Some?
  }

  function OrEmpty(o: Option<string>): string {
    if o.Some? then o.value else ""
  }

  function ColonyNamespace(c: Services, t: string): string {
    if LastReported(c.status, t).Some? then LastReported(c.status, t).value else OrEmpty(FirstListed(c.spec, t))
  }

  /** `prerequisiteNamespaceConflict`: only an explicit request can disagree. */
  predicate Disagree(requested: string, incumbent: string) {
    requested != "" && incumbent != "" && incumbent != requested
  }

  function Effective(p: Prereq): string {
    if p.namespace != "" then p.namespace else "default"
  }

  // ---- the verdict, declaratively -------------------------------------------

  datatype Kind = IsSatisfied | IsInstalling | IsMissing | IsFailed | IsConflict

  /** Where one prerequisite stands: our own install first, then the colony. */
  function KindOf(c: Services, sets: Sets, p: Prereq): Kind {
    var t := p.template;
    if t in sets then
      if Disagree(p.namespace, OrEmpty(FirstListed(sets[t].spec, t))) then IsConflict
      else match FirstState(sets[t].status, t)
        case Deployed => IsSatisfied
        case Broken => IsFailed
        case Unsettled => IsInstalling
    else if !ColonyKnown(c, t) then IsMissing
    else if Disagree(p.namespace, ColonyNamespace(c, t)) then IsConflict
    else if ColonyDeployed(c, t) then IsSatisfied
    else IsInstalling
  }

  function PhaseOf(k: Kind): Phase {
    match k
    case IsSatisfied => Satisfied
    case IsInstalling => Installing
    case IsMissing => Pending
    case IsFailed => Failed
    case IsConflict => Failed
  }

  function StatusOf(c: Services, sets: Sets, p: Prereq): Status {
    var t := p.template;
    Status(t,
      if t !in sets && ColonyKnown(c, t) then Colony else Workspace,
      if t in sets then OrEmpty(FirstListed(sets[t].spec, t))
      else if ColonyKnown(c, t) then ColonyNamespace(c, t) else Effective(p),
      PhaseOf(KindOf(c, sets, p)))
  }

  predicate Settled(ks: seq<Kind>) {
    forall i :: 0 <= i < |ks| ==> ks[i] == IsSatisfied
  }

  function LastUnsatisfied(ks: seq<Kind>): (i: nat)
    requires !Settled(ks)
    ensures i < |ks| && ks[i] != IsSatisfied && forall j :: i < j < |ks| ==> ks[j] == IsSatisfied
  {
    var e := |ks| - 1;
    if ks[e] != IsSatisfied then e else LastUnsatisfied(ks[..e])
  }

  /** The overall verdict: conflicts first, then failures, then the kind of the
      last prerequisite that is not satisfied. */
  ghost function VerdictOf(ks: seq<Kind>): Verdict {
    if IsConflict in ks then SomeConflict
    else if IsFailed in ks then SomeFailed
    else if Settled(ks) then AllSatisfied
    else if ks[LastUnsatisfied(ks)] == IsMissing then SomeMissing
    else SomeInstalling
  }

  function Kinds(c: Services, sets: Sets, ps: seq<Prereq>): (ks: seq<Kind>)
    ensures |ks| == |ps| && forall i :: 0 <= i < |ps| ==> ks[i] == KindOf(c, sets, ps[i])
  {
    if ps == [] then [] else Kinds(c, sets, ps[..|ps| - 1]) + [KindOf(c, sets, ps[|ps| - 1])]
  }

  function Statuses(c: Services, sets: Sets, ps: seq<Prereq>): (sts: seq<Status>)
    ensures |sts| == |ps| && forall i :: 0 <= i < |ps| ==> sts[i] == StatusOf(c, sets, ps[i])
  {
    if ps == [] then [] else Statuses(c, sets, ps[..|ps| - 1]) + [StatusOf(c, sets, ps[|ps| - 1])]
  }

  /** Evaluation stops early at a version constraint or an unreadable ServiceSet. */
  predicate Stops(p: Prereq, unreadable: set<string>) {
    p.versionConstraint != "" || p.template in unreadable
  }

  function FirstStop(ps: seq<Prereq>, unreadable: set<string>): (n: nat)
    ensures n <= |ps| && (n < |ps| ==> Stops(ps[n], unreadable))
    ensures forall i :: 0 <= i < n ==> !Stops(ps[i], unreadable)
  {
    if ps == [] || Stops(ps[0], unreadable) then 0 else 1 + FirstStop(ps[1..], unreadable)
  }

  ghost function Evaluate(cluster: Fetch<Services>, sets: Sets, unreadable: set<string>, ps: seq<Prereq>): (o: Outcome)
    ensures o.Judged? && o.verdict != Invalid ==> |o.statuses| == |ps|
  {
    var n := FirstStop(ps, unreadable);
    if !cluster.Got? then EvaluationError
    else if n == |ps| then Judged(VerdictOf(Kinds(cluster.item, sets, ps)), Statuses(cluster.item, sets, ps))
    else if ps[n].versionConstraint != "" then Judged(Invalid, [Status(ps[n].template, Unassigned, "", Failed)])
    else EvaluationError
  }

  // ---- the loops ------------------------------------------------------------

  ghost predicate Surveyed(c: Services, deployed: set<string>, known: set<string>, namespaces: map<string, string>) {
    && (forall t :: t in deployed <==> ColonyDeployed(c, t))
    && (forall t :: t in known <==> ColonyKnown(c, t))
    && (forall t :: (if t in namespaces then namespaces[t] else "") == ColonyNamespace(c, t))
  }

  /** The status half of the snapshot: the last report of a template wins. */
  method SurveyReports(rs: seq<Report>) returns (deployed: set<string>, namespaces: map<string, string>)
    ensures forall t :: t in deployed <==> exists r :: r in rs && r.template == t && r.state == Deployed
    ensures forall t :: (if t in namespaces then Some(namespaces[t]) else None) == LastReported(rs, t)
  {
    deployed, namespaces := {}, map[];
    for i := 0 to |rs|
      invariant forall t :: t in deployed <==> exists r :: r in rs[..i] && r.template == t && r.state == Deployed
      invariant forall t :: (if t in namespaces then Some(namespaces[t]) else None) == LastReported(rs[..i], t)
    {
      assert rs[..i + 1] == rs[..i] + [rs[i]] && rs[..i + 1][..i] == rs[..i];
      namespaces := namespaces[rs[i].template := rs[i].namespace];
      if rs[i].state == Deployed {
        deployed := deployed + {rs[i].template};
      }
    }
    assert rs[..|rs|] == rs;
  }

  /** The snapshot of the colony's services. A known template is one that got a
      namespace entry. */
  method Survey(c: Services) returns (deployed: set<string>, known: set<string>, namespaces: map<string, string>)
    ensures Surveyed(c, deployed, known, namespaces)
  {
    deployed, namespaces := SurveyReports(c.status);
    for i := 0 to |c.spec|
      invariant forall t :: (if t in namespaces then Some(namespaces[t]) else None)
                         == (if LastReported(c.status, t).Some? then LastReported(c.status, t)
                             else FirstListed(c.spec[..i], t))
    {
      var svc := c.spec[i];
      assert c.spec[..i + 1][..i] == c.spec[..i];
      if svc.template !in namespaces {
        namespaces := namespaces[svc.template := svc.namespace];
      }
    }
    assert c.spec[..|c.spec|] == c.spec;
    known := namespaces.Keys;
  }

  /** How one kind moves the overall verdict. */
  function Absorb(v: Verdict, k: Kind): Verdict {
    match k
    case IsSatisfied => v
    case IsConflict => SomeConflict
    case IsFailed => if v == SomeConflict then v else SomeFailed
    case IsInstalling => if v == SomeFailed || v == SomeConflict then v else SomeInstalling
    case IsMissing => if v == SomeFailed || v == SomeConflict then v else SomeMissing
  }

  lemma VerdictStep(ks: seq<Kind>, k: Kind)
    ensures VerdictOf(ks + [k]) == Absorb(VerdictOf(ks), k)
  {
    var all := ks + [k];
    assert all[..|ks|] == ks && all[|ks|] == k;
    assert Settled(all) <==> Settled(ks) && k == IsSatisfied;
  }

  method ReadState(rs: seq<Report>, t: string) returns (state: State)
    ensures state == FirstState(rs, t)
  {
    for i := 0 to |rs|
      invariant FirstState(rs, t) == FirstState(rs[i..], t)
    {
      if rs[i].template == t {
        return rs[i].state;
      }
    }
    return Unsettled;
  }

  method ReadNamespace(ss: seq<Service>, t: string) returns (ns: string)
    ensures ns == OrEmpty(FirstListed(ss, t))
  {
    for i := 0 to |ss|
      invariant FirstListed(ss[..i], t).None?
    {
      assert ss[..i + 1][..i] == ss[..i];
      if ss[i].template == t {
        FirstStands(ss, i + 1, t);
        return ss[i].namespace;
      }
    }
    assert ss[..|ss|] == ss;
    return "";
  }

  lemma {:induction false} FirstStands(ss: seq<Service>, n: nat, t: string)
    requires n <= |ss| && FirstListed(ss[..n], t).Some?
    ensures FirstListed(ss, t) == FirstListed(ss[..n], t)
    decreases |ss|
  {
    if n == |ss| {
      assert ss[..n] == ss;
    } else {
      var e := |ss| - 1;
      assert ss[..e][..n] == ss[..n];
      FirstStands(ss[..e], n, t);
    }
  }

  /** One turn of the evaluation loop. */
  method Judge(p: Prereq, sets: Sets, deployed: set<string>, known: set<string>, namespaces: map<string, string>,
               overall0: Verdict, ghost c: Services) returns (st: Status, overall: Verdict)
    requires Surveyed(c, deployed, known, namespaces)
    ensures st == StatusOf(c, sets, p) && overall == Absorb(overall0, KindOf(c, sets, p))
  {
    overall := overall0;
    var t := p.template;
    if t in sets {
      var ns := ReadNamespace(sets[t].spec, t);
      st := Status(t, Workspace, ns, Pending);
      if Disagree(p.namespace, ns) {
        return st.(phase := Failed), SomeConflict;
      }
      var state := ReadState(sets[t].status, t);
      match state
      case Deployed => st := st.(phase := Satisfied);
      case Broken =>
        st := st.(phase := Failed);
        if overall != SomeConflict {
          overall := SomeFailed;
        }
      case Unsettled =>
        st := st.(phase := Installing);
        if overall != SomeFailed && overall != SomeConflict {
          overall := SomeInstalling;
        }
    } else if t in deployed || t in known {
      DeployedIsKnown(c, t);
      st := Status(t, Colony, if t in namespaces then namespaces[t] else "", Pending);
      if Disagree(p.namespace, st.namespace) {
        return st.(phase := Failed), SomeConflict;
      }
      if t in deployed {
        st := st.(phase := Satisfied);
      } else {
        st := st.(phase := Installing);
        if overall != SomeFailed && overall != SomeConflict {
          overall := SomeInstalling;
        }
      }
    } else {
      st := Status(t, Workspace, Effective(p), Pending);
      if overall != SomeFailed && overall != SomeConflict {
        overall := SomeMissing;
      }
    }
  }

  lemma DeployedIsKnown(c: Services, t: string)
    ensures ColonyDeployed(c, t) ==> LastReported(c.status, t).Some?
  {
    if ColonyDeployed(c, t) {
      var i :| 0 <= i < |c.status| && c.status[i].template == t;
      ReportedIsReported(c.status, i);
    }
  }

  lemma {:induction false} ReportedIsReported(rs: seq<Report>, i: nat)
    requires i < |rs|
    ensures LastReported(rs, rs[i].template).Some?
  {
    if i < |rs| - 1 {
      ReportedIsReported(rs[..|rs| - 1], i);
    }
  }

  /** The loop has judged the first `i` prerequisites. */
  ghost predicate JudgedUpTo(c: Services, sets: Sets, ps: seq<Prereq>, i: nat, overall: Verdict,
                             statuses: seq<Status>) {
    && i <= |ps|
    && overall == VerdictOf(Kinds(c, sets, ps[..i]))
    && statuses == Statuses(c, sets, ps[..i])
  }

  lemma JudgeNext(c: Services, sets: Sets, ps: seq<Prereq>, i: nat, overall: Verdict, statuses: seq<Status>)
    requires i < |ps| && JudgedUpTo(c, sets, ps, i, overall, statuses)
    ensures JudgedUpTo(c, sets, ps, i + 1, Absorb(overall, KindOf(c, sets, ps[i])), statuses + [StatusOf(c, sets,
        ps[i])])
  {
    VerdictStep(Kinds(c, sets, ps[..i]), KindOf(c, sets, ps[i]));
    OneMore(c, sets, ps, i);
  }

  lemma OneMore(c: Services, sets: Sets, ps: seq<Prereq>, i: nat)
    requires i < |ps|
    ensures Kinds(c, sets, ps[..i + 1]) == Kinds(c, sets, ps[..i]) + [KindOf(c, sets, ps[i])]
    ensures Statuses(c, sets, ps[..i + 1]) == Statuses(c, sets, ps[..i]) + [StatusOf(c, sets, ps[i])]
  {
    assert ps[..i + 1][..i] == ps[..i];
  }

  lemma JudgedAll(c: Services, sets: Sets, ps: seq<Prereq>, overall: Verdict, statuses: seq<Status>)
    requires JudgedUpTo(c, sets, ps, |ps|, overall, statuses)
    ensures overall == VerdictOf(Kinds(c, sets, ps)) && statuses == Statuses(c, sets, ps)
  {
    assert ps[..|ps|] == ps;
  }

  /** `evaluatePrerequisites`. */
  method EvaluatePrerequisites(cluster: Fetch<Services>, sets: Sets, unreadable: set<string>, ps: seq<Prereq>)
      returns (outcome: Outcome)
    ensures outcome == Evaluate(cluster, sets, unreadable, ps)
  {
    if !cluster.Got? {
      return EvaluationError;
    }
    ghost var c := cluster.item;
    var deployed, known, namespaces := Survey(cluster.item);
    var overall, statuses := AllSatisfied, [];
    for i := 0 to |ps|
      invariant i <= FirstStop(ps, unreadable)
      invariant JudgedUpTo(c, sets, ps, i, overall, statuses)
    {
      var p := ps[i];
      if p.versionConstraint != "" {
        return Judged(Invalid, [Status(p.template, Unassigned, "", Failed)]);
      }
      if p.template in unreadable {
        return EvaluationError;
      }
      JudgeNext(c, sets, ps, i, overall, statuses);
      var st: Status;
      st, overall := Judge(p, sets, deployed, known, namespaces, overall, c);
      statuses := statuses + [st];
    }
    JudgedAll(c, sets, ps, overall, statuses);
    return Judged(overall, statuses);
  }

  // ---- the judgement, report by report --------------------------------------

  /** `i` is the first report on `t`. */
  ghost predicate FirstReport(rs: seq<Report>, t: string, i: int) {
    0 <= i < |rs| && rs[i].template == t && forall j :: 0 <= j < i ==> rs[j].template != t
  }

  /** `i` is the last report on `t`. */
  ghost predicate LastReport(rs: seq<Report>, t: string, i: int) {
    0 <= i < |rs| && rs[i].template == t && forall j :: i < j < |rs| ==> rs[j].template != t
  }

  /** `i` is the first service of template `t`. */
  ghost predicate FirstEntry(ss: seq<Service>, t: string, i: int) {
    0 <= i < |ss| && ss[i].template == t && forall j :: 0 <= j < i ==> ss[j].template != t
  }

  ghost predicate Unreported(rs: seq<Report>, t: string) {
    forall i :: 0 <= i < |rs| ==> rs[i].template != t
  }

  ghost predicate Unlisted(ss: seq<Service>, t: string) {
    forall i :: 0 <= i < |ss| ==> ss[i].template != t
  }

  /** The request names a namespace, and what is there sits in another one: our own
      install where its first entry says; the colony's where its last report says,
      or without a report its first entry. */
  ghost predicate Misplaced(c: Services, sets: Sets, p: Prereq) {
    var t := p.template;
    p.namespace != "" &&
    if t in sets then
      exists i :: FirstEntry(sets[t].spec, t, i) && sets[t].spec[i].namespace !in {"", p.namespace}
    else
      || (exists i :: LastReport(c.status, t, i) && c.status[i].namespace !in {"", p.namespace})
      || (Unreported(c.status, t) && exists i :: FirstEntry(c.spec, t, i) && c.spec[i].namespace !in {"", p.namespace})
  }

  /** Our own install, if there is one, first reports Deployed; otherwise some report
      of the colony does. */
  ghost predicate InPlace(c: Services, sets: Sets, p: Prereq) {
    var t := p.template;
    && !Misplaced(c, sets, p)
    && if t in sets then exists i :: FirstReport(sets[t].status, t, i) && sets[t].status[i].state == Deployed
       else exists i :: 0 <= i < |c.status| && c.status[i].template == t && c.status[i].state == Deployed
  }

  /** Our own install first reports that it failed. */
  ghost predicate Broke(c: Services, sets: Sets, p: Prereq) {
    var t := p.template;
    && t in sets && !Misplaced(c, sets, p)
    && exists i :: FirstReport(sets[t].status, t, i) && sets[t].status[i].state == Broken
  }

  /** Nobody provides it: no install of ours, no report and no entry of the colony. */
  ghost predicate Unprovided(c: Services, sets: Sets, p: Prereq) {
    p.template !in sets && Unreported(c.status, p.template) && Unlisted(c.spec, p.template)
  }

  lemma {:induction false} FirstStateMeans(rs: seq<Report>, t: string)
    ensures FirstState(rs, t) == Deployed <==> exists i :: FirstReport(rs, t, i) && rs[i].state == Deployed
    ensures FirstState(rs, t) == Broken <==> exists i :: FirstReport(rs, t, i) && rs[i].state == Broken
  {
    if i :| FirstReport(rs, t, i) {
      FirstStateAt(rs, t, i);
      assert forall j :: FirstReport(rs, t, j) ==> j == i;
    } else {
      assert Unreported(rs, t) by {
        if !Unreported(rs, t) {
          var i := EarliestReport(rs, t);
        }
      }
      UnreportedState(rs, t);
    }
  }

  lemma {:induction false} FirstStateAt(rs: seq<Report>, t: string, i: nat)
    requires FirstReport(rs, t, i)
    ensures FirstState(rs, t) == rs[i].state
  {
    if i > 0 {
      FirstStateAt(rs[1..], t, i - 1);
    }
  }

  lemma {:induction false} UnreportedState(rs: seq<Report>, t: string)
    requires Unreported(rs, t)
    ensures FirstState(rs, t) == Unsettled
  {
    if rs != [] {
      UnreportedState(rs[1..], t);
    }
  }

  lemma {:induction false} EarliestReport(rs: seq<Report>, t: string) returns (i: nat)
    requires !Unreported(rs, t)
    ensures FirstReport(rs, t, i)
  {
    if rs[0].template == t {
      i := 0;
    } else {
      assert !Unreported(rs[1..], t) by {
        var j :| 0 <= j < |rs| && rs[j].template == t;
        assert rs[1..][j - 1] == rs[j];
      }
      i := EarliestReport(rs[1..], t);
      i := i + 1;
    }
  }

  lemma {:induction false} LastReportedMeans(rs: seq<Report>, t: string)
    ensures LastReported(rs, t).None? <==> Unreported(rs, t)
    ensures LastReported(rs, t).Some? ==>
              exists i :: LastReport(rs, t, i) && LastReported(rs, t) == Some(rs[i].namespace)
  {
    if rs != [] {
      var e := |rs| - 1;
      LastReportedMeans(rs[..e], t);
      if rs[e].template == t {
        assert LastReport(rs, t, e);
      } else if i :| LastReport(rs[..e], t, i) {
        assert LastReport(rs, t, i);
      }
    }
  }

  lemma {:induction false} FirstListedMeans(ss: seq<Service>, t: string)
    ensures FirstListed(ss, t).None? <==> Unlisted(ss, t)
    ensures FirstListed(ss, t).Some? ==>
              exists i :: FirstEntry(ss, t, i) && FirstListed(ss, t) == Some(ss[i].namespace)
  {
    if ss != [] {
      var e := |ss| - 1;
      FirstListedMeans(ss[..e], t);
      if i :| FirstEntry(ss[..e], t, i) {
        assert FirstEntry(ss, t, i);
      } else if ss[e].template == t {
        assert FirstEntry(ss, t, e);
      }
    }
  }

  lemma MisplacedMeans(c: Services, sets: Sets, p: Prereq)
    ensures KindOf(c, sets, p) == IsConflict <==> Misplaced(c, sets, p)
  {
    var t := p.template;
    if t in sets {
      FirstListedMeans(sets[t].spec, t);
      assert forall i, j :: FirstEntry(sets[t].spec, t, i) && FirstEntry(sets[t].spec, t, j) ==> i == j;
    } else {
      LastReportedMeans(c.status, t);
      FirstListedMeans(c.spec, t);
      assert forall i, j :: LastReport(c.status, t, i) && LastReport(c.status, t, j) ==> i == j;
      assert forall i, j :: FirstEntry(c.spec, t, i) && FirstEntry(c.spec, t, j) ==> i == j;
    }
  }

  /** Where a prerequisite stands, from the reports themselves; whatever is neither
      in place, nor failed, nor misplaced, nor without a provider is installing. */
  lemma KindMeans(c: Services, sets: Sets, p: Prereq)
    ensures KindOf(c, sets, p) == IsConflict <==> Misplaced(c, sets, p)
    ensures KindOf(c, sets, p) == IsSatisfied <==> InPlace(c, sets, p)
    ensures KindOf(c, sets, p) == IsFailed <==> Broke(c, sets, p)
    ensures KindOf(c, sets, p) == IsMissing <==> Unprovided(c, sets, p)
  {
    var t := p.template;
    MisplacedMeans(c, sets, p);
    if t in sets {
      FirstStateMeans(sets[t].status, t);
    } else {
      LastReportedMeans(c.status, t);
      FirstListedMeans(c.spec, t);
    }
  }

  /** The verdict, prerequisite by prerequisite. */
  ghost predicate Rules(c: Services, sets: Sets, ps: seq<Prereq>, v: Verdict) {
    match v
    case Invalid => false
    case SomeConflict => exists p :: p in ps && Misplaced(c, sets, p)
    case SomeFailed => (forall p :: p in ps ==> !Misplaced(c, sets, p)) && exists p :: p in ps && Broke(c, sets, p)
    case AllSatisfied => forall p :: p in ps ==> InPlace(c, sets, p)
    case SomeMissing =>
      && (forall p :: p in ps ==> !Misplaced(c, sets, p) && !Broke(c, sets, p))
      && exists i :: 0 <= i < |ps| && LastOut(c, sets, ps, i) && Unprovided(c, sets, ps[i])
    case SomeInstalling =>
      && (forall p :: p in ps ==> !Misplaced(c, sets, p) && !Broke(c, sets, p))
      && exists i :: 0 <= i < |ps| && LastOut(c, sets, ps, i) && !Unprovided(c, sets, ps[i])
  }

  /** The last prerequisite that is not in place. */
  ghost predicate LastOut(c: Services, sets: Sets, ps: seq<Prereq>, i: nat) {
    i < |ps| && !InPlace(c, sets, ps[i]) && forall j :: i < j < |ps| ==> InPlace(c, sets, ps[j])
  }

  lemma OneLastOut(c: Services, sets: Sets, ps: seq<Prereq>, i: nat)
    requires LastOut(c, sets, ps, i)
    ensures forall j: nat :: j < |ps| && LastOut(c, sets, ps, j) ==> j == i
  {
  }

  lemma VerdictMeans(c: Services, sets: Sets, ps: seq<Prereq>)
    ensures Rules(c, sets, ps, VerdictOf(Kinds(c, sets, ps)))
  {
    var ks := Kinds(c, sets, ps);
    forall i | 0 <= i < |ps|
      ensures ks[i] == IsConflict <==> Misplaced(c, sets, ps[i])
      ensures ks[i] == IsSatisfied <==> InPlace(c, sets, ps[i])
      ensures ks[i] == IsFailed <==> Broke(c, sets, ps[i])
      ensures ks[i] == IsMissing <==> Unprovided(c, sets, ps[i])
    {
      KindMeans(c, sets, ps[i]);
    }
    if IsConflict in ks || IsFailed in ks {
      VerdictAtWorst(c, sets, ps, ks);
    } else if !Settled(ks) {
      assert LastOut(c, sets, ps, LastUnsatisfied(ks));
    }
  }

  lemma SettledMeans(c: Services, sets: Sets, ps: seq<Prereq>)
    ensures VerdictOf(Kinds(c, sets, ps)) == AllSatisfied <==> forall i :: 0 <= i < |ps| ==> InPlace(c, sets, ps[i])
  {
    var ks := Kinds(c, sets, ps);
    forall i | 0 <= i < |ps| ensures ks[i] == IsSatisfied <==> InPlace(c, sets, ps[i]) {
      KindMeans(c, sets, ps[i]);
    }
    assert (forall i :: 0 <= i < |ks| ==> ks[i] == IsSatisfied) <==> Settled(ks);
  }

  lemma VerdictAtWorst(c: Services, sets: Sets, ps: seq<Prereq>, ks: seq<Kind>)
    requires |ks| == |ps| && (IsConflict in ks || IsFailed in ks)
    requires forall i :: 0 <= i < |ps| ==> (ks[i] == IsConflict <==> Misplaced(c, sets, ps[i]))
    requires forall i :: 0 <= i < |ps| ==> (ks[i] == IsFailed <==> Broke(c, sets, ps[i]))
    ensures Rules(c, sets, ps, VerdictOf(ks))
  {
    var i :| 0 <= i < |ks| && ks[i] == if IsConflict in ks then IsConflict else IsFailed;
    assert ps[i] in ps;
  }

  /** The status entry of one prerequisite. */
  ghost predicate Shown(c: Services, sets: Sets, p: Prereq, st: Status) {
    var t := p.template;
    && st.name == t && st.source == (if t in sets || Unprovided(c, sets, p) then Workspace else Colony)
    && (st.phase == Satisfied <==> InPlace(c, sets, p)) && (st.phase == Pending <==> Unprovided(c, sets, p))
    && (st.phase == Failed <==> Misplaced(c, sets, p) || Broke(c, sets, p))
    && SaysWhere(c, sets, p, st.namespace)
  }

  /** Where it is, as its provider says, or where it would be installed. */
  ghost predicate SaysWhere(c: Services, sets: Sets, p: Prereq, ns: string) {
    var t := p.template;
    if t in sets then
      && (forall i :: FirstEntry(sets[t].spec, t, i) ==> ns == sets[t].spec[i].namespace)
      && (Unlisted(sets[t].spec, t) ==> ns == "")
    else
      && (forall i :: LastReport(c.status, t, i) ==> ns == c.status[i].namespace)
      && (Unreported(c.status, t) ==> forall i :: FirstEntry(c.spec, t, i) ==> ns == c.spec[i].namespace)
      && (Unprovided(c, sets, p) ==> ns == if p.namespace == "" then "default" else p.namespace)
  }

  lemma StatusMeans(c: Services, sets: Sets, p: Prereq)
    ensures Shown(c, sets, p, StatusOf(c, sets, p))
  {
    KindMeans(c, sets, p);
    WhereMeans(c, sets, p);
    if p.template !in sets {
      LastReportedMeans(c.status, p.template);
      FirstListedMeans(c.spec, p.template);
    }
  }

  lemma WhereMeans(c: Services, sets: Sets, p: Prereq)
    ensures SaysWhere(c, sets, p, StatusOf(c, sets, p).namespace)
  {
    var t := p.template;
    if t in sets {
      FirstListedMeans(sets[t].spec, t);
      assert forall i, j :: FirstEntry(sets[t].spec, t, i) && FirstEntry(sets[t].spec, t, j) ==> i == j;
    } else {
      LastReportedMeans(c.status, t);
      FirstListedMeans(c.spec, t);
      assert forall i, j :: LastReport(c.status, t, i) && LastReport(c.status, t, j) ==> i == j;
      assert forall i, j :: FirstEntry(c.spec, t, i) && FirstEntry(c.spec, t, j) ==> i == j;
    }
  }

  /** The first prerequisite that cannot be judged. */
  ghost predicate FirstOddity(ps: seq<Prereq>, unreadable: set<string>, n: int) {
    && 0 <= n < |ps| && (ps[n].versionConstraint != "" || ps[n].template in unreadable)
    && forall i :: 0 <= i < n ==> ps[i].versionConstraint == "" && ps[i].template !in unreadable
  }

  /** The evaluation as a whole: an error without the cluster; the first version
      constraint makes it invalid and the first unreadable ServiceSet an error,
      whichever comes first; otherwise verdict and statuses follow the reports. */
  lemma EvaluateMeans(cluster: Fetch<Services>, sets: Sets, unreadable: set<string>, ps: seq<Prereq>)
    ensures !cluster.Got? ==> Evaluate(cluster, sets, unreadable, ps) == EvaluationError
    ensures forall n :: cluster.Got? && FirstOddity(ps, unreadable, n) ==>
              Evaluate(cluster, sets, unreadable, ps) ==
                if ps[n].versionConstraint == "" then EvaluationError
                else Judged(Invalid, [Status(ps[n].template, Unassigned, "", Failed)])
    ensures cluster.Got? && (forall p :: p in ps ==> p.versionConstraint == "" && p.template !in unreadable) ==>
              var o := Evaluate(cluster, sets, unreadable, ps);
              && o.Judged? && Rules(cluster.item, sets, ps, o.verdict) && |o.statuses| == |ps|
              && forall i :: 0 <= i < |ps| ==> Shown(cluster.item, sets, ps[i], o.statuses[i])
  {
    var m := FirstStop(ps, unreadable);
    forall n | FirstOddity(ps, unreadable, n) ensures n == m {
      assert Stops(ps[n], unreadable);
    }
    if cluster.Got? && m == |ps| {
      VerdictMeans(cluster.item, sets, ps);
      forall i | 0 <= i < |ps| ensures Shown(cluster.item, sets, ps[i], StatusOf(cluster.item, sets, ps[i])) {
        StatusMeans(cluster.item, sets, ps[i]);
      }
    }
  }

  // ---- installing what is missing -------------------------------------------

  /** Templates whose ServiceSet the API server refuses to return or to create. */
  datatype Refusals = Refusals(unreadable: set<string>, uncreatable: set<string>)

  function NewSet(p: Prereq): Services {
    Services([Service(p.template, Effective(p))], [])
  }

  predicate EnsureFails(sets: Sets, p: Prereq, no: Refusals) {
    p.template in no.unreadable || (p.template !in sets && p.template in no.uncreatable)
  }

  /** An existing prerequisite ServiceSet is never touched. */
  function Ensured(sets: Sets, p: Prereq): Sets {
    if p.template in sets then sets else sets[p.template := NewSet(p)]
  }

  /** The store after the first `n` turns of the install loop, and whether none
      of them failed. */
  function Install(sets: Sets, ps: seq<Prereq>, sts: seq<Status>, no: Refusals, n: nat): (Sets, bool)
    requires n <= |ps| == |sts|
  {
    if n == 0 then (sets, true)
    else
      var (s, ok) := Install(sets, ps, sts, no, n - 1);
      if !ok || sts[n - 1].phase != Pending then (s, ok)
      else if EnsureFails(s, ps[n - 1], no) then (s, false)
      else (Ensured(s, ps[n - 1]), true)
  }

  lemma {:induction false} InstallStopped(sets: Sets, ps: seq<Prereq>, sts: seq<Status>, no: Refusals, m: nat, n: nat)
    requires m <= n <= |ps| == |sts| && !Install(sets, ps, sts, no, m).1
    ensures Install(sets, ps, sts, no, n) == Install(sets, ps, sts, no, m)
  {
    if m < n {
      InstallStopped(sets, ps, sts, no, m, n - 1);
    }
  }

  /** One workspace's prerequisite step on the store. */
  ghost function Provide(sets: Sets, cluster: Fetch<Services>, unreadable: set<string>, ps: seq<Prereq>,
                         no: Refusals): (Sets, bool) {
    var outcome := Evaluate(cluster, sets, unreadable, ps);
    if outcome.Judged? && outcome.verdict == SomeMissing then
      Install(sets, ps, outcome.statuses, no, |ps|)
    else (sets, true)
  }

  /** The prerequisite ServiceSets of one cluster on the management API server. */
  class PrerequisiteStore {
    var sets: Sets

    constructor (initial: Sets)
      ensures sets == initial
    {
      sets := initial;
    }

    /** `ensurePrerequisiteServiceSet`. */
    method EnsureServiceSet(p: Prereq, no: Refusals) returns (ok: bool)
      modifies this
      ensures ok == !EnsureFails(old(sets), p, no)
      ensures sets == if ok then Ensured(old(sets), p) else old(sets)
    {
      if p.template in no.unreadable {
        return false;
      }
      if p.template in sets {
        return true;
      }
      if p.template in no.uncreatable {
        return false;
      }
      sets := sets[p.template := NewSet(p)];
      return true;
    }

    /** The Missing branch of `reconcilePrerequisites`. */
    method InstallMissing(ps: seq<Prereq>, statuses: seq<Status>, no: Refusals)
        returns (ok: bool, installing: seq<Status>)
      requires |ps| == |statuses|
      modifies this
      ensures (sets, ok) == Install(old(sets), ps, statuses, no, |ps|)
      ensures ok ==> |installing| == |statuses| && forall i :: 0 <= i < |statuses| ==>
                installing[i] == if statuses[i].phase == Pending then statuses[i].(phase := Installing) else statuses[i]
    {
      ghost var before := sets;
      installing := statuses;
      for i := 0 to |ps|
        invariant (sets, true) == Install(before, ps, statuses, no, i)
        invariant |installing| == |statuses| && forall j :: 0 <= j < |statuses| ==>
          installing[j] == if j < i && statuses[j].phase == Pending then statuses[j].(phase := Installing)
              else statuses[j]
      {
        if statuses[i].phase != Pending {
          continue;
        }
        ok := EnsureServiceSet(ps[i], no);
        if !ok {
          InstallStopped(before, ps, statuses, no, i + 1, |ps|);
          return;
        }
        installing := installing[i := statuses[i].(phase := Installing)];
      }
      ok := true;
    }

    /** `reconcilePrerequisites` on the store. */
    method Reconcile(cluster: Fetch<Services>, unreadable: set<string>, ps: seq<Prereq>, no: Refusals)
        returns (outcome: Outcome, ok: bool)
      modifies this
      ensures outcome == Evaluate(cluster, old(sets), unreadable, ps)
      ensures (sets, ok) == Provide(old(sets), cluster, unreadable, ps, no)
    {
      outcome := EvaluatePrerequisites(cluster, sets, unreadable, ps);
      ok := true;
      if outcome.Judged? && outcome.verdict == SomeMissing {
        var installing: seq<Status>;
        ok, installing := InstallMissing(ps, outcome.statuses, no);
      }
    }
  }

  // ---- what an install step achieves ----------------------------------------

  /** The first of the first `n` prerequisites that is pending with template `t`,
      or `n`. */
  function FirstPending(ps: seq<Prereq>, sts: seq<Status>, t: string, n: nat): (f: nat)
    requires n <= |ps| == |sts|
    ensures f <= n && (f < n ==> sts[f].phase == Pending && ps[f].template == t)
    ensures forall k :: 0 <= k < f && sts[k].phase == Pending ==> ps[k].template != t
  {
    if n == 0 then 0
    else
      var f := FirstPending(ps, sts, t, n - 1);
      if f < n - 1 || (sts[f].phase == Pending && ps[f].template == t) then f else n
  }

  /** The loop adds, for each pending template, the install its first declarer
      asks for, and changes nothing else. */
  lemma {:induction false} InstallAt(sets: Sets, ps: seq<Prereq>, sts: seq<Status>, no: Refusals, n: nat, t: string)
    requires n <= |ps| == |sts|
    ensures var (s, ok) := Install(sets, ps, sts, no, n);
            var f := FirstPending(ps, sts, t, n);
            && (t in sets ==> t in s && s[t] == sets[t])
            && (t !in sets && t in s ==> f < n && s[t] == NewSet(ps[f]))
            && (ok && f < n ==> t in s)
  {
    if n > 0 {
      InstallAt(sets, ps, sts, no, n - 1, t);
    }
  }

  /** The loop goes through exactly when every pending template can be read and,
      where it is not installed yet, created. */
  lemma {:induction false} InstallFailsExactly(sets: Sets, ps: seq<Prereq>, sts: seq<Status>, no: Refusals, n: nat)
    requires n <= |ps| == |sts|
    ensures Install(sets, ps, sts, no, n).1 <==>
              forall i :: 0 <= i < n && sts[i].phase == Pending ==>
                && ps[i].template !in no.unreadable
                && (ps[i].template in sets || ps[i].template !in no.uncreatable)
  {
    if n > 0 {
      InstallFailsExactly(sets, ps, sts, no, n - 1);
      InstallAt(sets, ps, sts, no, n - 1, ps[n - 1].template);
    }
  }

  /** After an error-free install step no prerequisite lacks a provider. One that
      did is now installing, unless the class declared its template earlier with
      another namespace; nothing else moved. */
  lemma MissingStepProvides(c: Services, sets: Sets, unreadable: set<string>, ps: seq<Prereq>, no: Refusals, i: nat)
    requires i < |ps| && FirstStop(ps, unreadable) == |ps|
    requires VerdictOf(Kinds(c, sets, ps)) == SomeMissing && Provide(sets, Got(c), unreadable, ps, no).1
    ensures var first := FirstPending(ps, Statuses(c, sets, ps), ps[i].template, |ps|);
            && (KindOf(c, sets, ps[i]) == IsMissing ==> first <= i)
            && KindOf(c, Provide(sets, Got(c), unreadable, ps, no).0, ps[i]) ==
                 if KindOf(c, sets, ps[i]) != IsMissing then KindOf(c, sets, ps[i])
                 else if Disagree(ps[i].namespace, Effective(ps[first])) then IsConflict
                 else IsInstalling
  {
    var sts, t := Statuses(c, sets, ps), ps[i].template;
    InstallAt(sets, ps, sts, no, |ps|, t);
    var s := Install(sets, ps, sts, no, |ps|).0;
    var f := FirstPending(ps, sts, t, |ps|);
    if sts[i].phase == Pending {
      NewInstall(c, s, ps[i], ps[f]);
    } else {
      if f < |ps| {
        MissingIsShared(c, sets, ps[i], ps[f]);
      }
      SameProvider(c, sets, s, ps[i]);
    }
  }

  lemma SameProvider(c: Services, sets: Sets, s: Sets, p: Prereq)
    requires var t := p.template; (t in s <==> t in sets) && (t in s ==> s[t] == sets[t])
    ensures KindOf(c, s, p) == KindOf(c, sets, p)
  {
  }

  /** Whether a template has a provider does not depend on who asks. */
  lemma MissingIsShared(c: Services, sets: Sets, p: Prereq, q: Prereq)
    requires p.template == q.template
    ensures KindOf(c, sets, p) == IsMissing <==> KindOf(c, sets, q) == IsMissing
  {
  }

  lemma NewInstall(c: Services, sets: Sets, q: Prereq, p: Prereq)
    requires p.template == q.template && p.template in sets && sets[p.template] == NewSet(p)
    ensures KindOf(c, sets, q) == if Disagree(q.namespace, Effective(p)) then IsConflict else IsInstalling
  {
    var ss := NewSet(p).spec;
    assert ss[..0] == [] && FirstListed(ss, p.template) == Some(Effective(p));
  }

  ghost predicate Lacking(c: Services, sets: Sets, ps: seq<Prereq>) {
    exists i :: 0 <= i < |ps| && KindOf(c, sets, ps[i]) == IsMissing
  }

  /** Exactly when a step with a willing API server leaves a prerequisite without
      a provider: something conflicts or failed, or the last unsatisfied one is
      merely installing and hides the missing one. */
  lemma MissingIsHidden(c: Services, sets: Sets, ps: seq<Prereq>)
    requires FirstStop(ps, {}) == |ps|
    ensures var ks := Kinds(c, sets, ps);
            Lacking(c, Provide(sets, Got(c), {}, ps, Refusals({}, {})).0, ps)
            <==>
            && Lacking(c, sets, ps)
            && (|| IsConflict in ks || IsFailed in ks
                || (!Settled(ks) && ks[LastUnsatisfied(ks)] == IsInstalling))
  {
    var ks := Kinds(c, sets, ps);
    MissingVerdict(ks);
    if VerdictOf(ks) == SomeMissing {
      InstallsAll(c, sets, ps);
    } else {
      if Lacking(c, sets, ps) {
        MissingNeedsMissing(c, sets, ps);
      }
      OnlyMissingInstalls(c, sets, ps);
    }
  }

  lemma MissingVerdict(ks: seq<Kind>)
    ensures VerdictOf(ks) == SomeMissing <==>
              && IsConflict !in ks && IsFailed !in ks
              && !Settled(ks) && ks[LastUnsatisfied(ks)] != IsInstalling
  {
  }

  lemma OnlyMissingInstalls(c: Services, sets: Sets, ps: seq<Prereq>)
    requires FirstStop(ps, {}) == |ps| && VerdictOf(Kinds(c, sets, ps)) != SomeMissing
    ensures Provide(sets, Got(c), {}, ps, Refusals({}, {})) == (sets, true)
  {
  }

  lemma InstallsAll(c: Services, sets: Sets, ps: seq<Prereq>)
    requires FirstStop(ps, {}) == |ps| && VerdictOf(Kinds(c, sets, ps)) == SomeMissing
    ensures !Lacking(c, Provide(sets, Got(c), {}, ps, Refusals({}, {})).0, ps)
  {
    WillingInstalls(sets, ps, Statuses(c, sets, ps), |ps|);
    forall i | 0 <= i < |ps|
      ensures KindOf(c, Provide(sets, Got(c), {}, ps, Refusals({}, {})).0, ps[i]) != IsMissing
    {
      MissingStepProvides(c, sets, {}, ps, Refusals({}, {}), i);
    }
  }

  lemma MissingNeedsMissing(c: Services, sets: Sets, ps: seq<Prereq>)
    requires Lacking(c, sets, ps)
    ensures !Settled(Kinds(c, sets, ps))
  {
  }

  lemma WillingProvides(sets: Sets, cluster: Fetch<Services>, unreadable: set<string>, ps: seq<Prereq>)
    ensures Provide(sets, cluster, unreadable, ps, Refusals({}, {})).1
  {
    var o := Evaluate(cluster, sets, unreadable, ps);
    if o.Judged? && o.verdict == SomeMissing {
      WillingInstalls(sets, ps, o.statuses, |ps|);
    }
  }

  lemma {:induction false} WillingInstalls(sets: Sets, ps: seq<Prereq>, sts: seq<Status>, n: nat)
    requires n <= |ps| == |sts|
    ensures Install(sets, ps, sts, Refusals({}, {}), n).1
  {
    if n > 0 {
      WillingInstalls(sets, ps, sts, n - 1);
    }
  }

  /** The documented "at least one prerequisite has no provider yet" is not what
      the Missing verdict means. */
  lemma MissingHiddenByInstalling()
    ensures var c := Services([Service("b", "default")], []);
            var ps := [Prereq("a", "", ""), Prereq("b", "", "")];
            && KindOf(c, map[], ps[0]) == IsMissing
            && Evaluate(Got(c), map[], {}, ps).Judged? && Evaluate(Got(c), map[], {}, ps).verdict == SomeInstalling
            && Provide(map[], Got(c), {}, ps, Refusals({}, {})) == (map[], true)
  {
    var c := Services([Service("b", "default")], []);
    var ps := [Prereq("a", "", ""), Prereq("b", "", "")];
    assert c.spec[..0] == [] && FirstListed(c.spec, "a").None? && FirstListed(c.spec, "b") == Some("default");
    var ks := Kinds(c, map[], ps);
    assert ks[0] == IsMissing && ks[1] == IsInstalling;
    OnlyMissingInstalls(c, map[], ps);
  }

  lemma OneMissing(c: Services, sets: Sets, p: Prereq)
    requires KindOf(c, sets, p) == IsMissing && p.versionConstraint == ""
    ensures var o := Evaluate(Got(c), sets, {}, [p]); o.Judged? && o.verdict == SomeMissing
  {
  }

  // ---- every run ------------------------------------------------------------

  datatype Step =
    | WorkspaceStep(cluster: Fetch<Services>, unreadable: set<string>, ps: seq<Prereq>, no: Refusals)
    | Environment(sets: Sets)

  /** Others report status and delete ServiceSets; they do not edit a spec. */
  ghost predicate Enabled(sets: Sets, s: Step) {
    s.Environment? ==> forall t :: t in sets && t in s.sets ==> s.sets[t].spec == sets[t].spec
  }

  ghost function Next(sets: Sets, s: Step): Sets {
    match s
    case WorkspaceStep(cluster, unreadable, ps, no) => Provide(sets, cluster, unreadable, ps, no).0
    case Environment(sets') => sets'
  }

  /** Steps of any workspaces of any classes on one cluster, from any store. */
  ghost predicate Run(ss: seq<Sets>, steps: seq<Step>) {
    && |ss| == |steps| + 1
    && forall i :: 0 <= i < |steps| ==> Enabled(ss[i], steps[i]) && ss[i + 1] == Next(ss[i], steps[i])
  }

  lemma StepKeepsSpec(sets: Sets, s: Step, t: string)
    requires Enabled(sets, s) && t in sets && t in Next(sets, s)
    ensures Next(sets, s)[t].spec == sets[t].spec
  {
    if s.WorkspaceStep? {
      var outcome := Evaluate(s.cluster, sets, s.unreadable, s.ps);
      if outcome.Judged? && outcome.verdict == SomeMissing {
        InstallAt(sets, s.ps, outcome.statuses, s.no, |s.ps|, t);
      }
    }
  }

  /** In every run an installed prerequisite stays in the namespace it was
      installed into for as long as its ServiceSet exists. */
  lemma {:induction false} InstallIsSticky(ss: seq<Sets>, steps: seq<Step>, i: nat, j: nat, t: string)
    requires Run(ss, steps) && i <= j < |ss|
    requires forall h :: i <= h <= j ==> t in ss[h]
    ensures ss[j][t].spec == ss[i][t].spec
    decreases j - i
  {
    if i < j {
      InstallIsSticky(ss, steps, i, j - 1, t);
      assert ss[j] == Next(ss[j - 1], steps[j - 1]);
      StepKeepsSpec(ss[j - 1], steps[j - 1], t);
    }
  }

  /** Whoever installs a prerequisite fixes its namespace for everyone: later in
      the run, another class conflicts exactly when it names a different one. */
  lemma FirstInstallerDecides(ss: seq<Sets>, steps: seq<Step>, i: nat, j: nat, t: string, c: Services, q: Prereq)
    requires Run(ss, steps) && i < j < |ss| && steps[i].WorkspaceStep?
    requires t !in ss[i] && forall h :: i < h <= j ==> t in ss[h]
    requires q.template == t
    ensures exists p :: p in steps[i].ps && p.template == t
              && (KindOf(c, ss[j], q) == IsConflict <==>
                    q.namespace != "" && q.namespace != if p.namespace == "" then "default" else p.namespace)
  {
    InstallIsSticky(ss, steps, i + 1, j, t);
    var p := Installer(ss[i], steps[i], t);
    assert ss[i + 1] == Next(ss[i], steps[i]);
    var ss' := ss[j][t].spec;
    assert ss'[..0] == [] && FirstListed(ss', t) == Some(Effective(p));
  }

  /** A template that appears in a workspace's step was declared by that workspace. */
  lemma Installer(sets: Sets, s: Step, t: string) returns (p: Prereq)
    requires s.WorkspaceStep? && t !in sets && t in Next(sets, s)
    ensures p in s.ps && p.template == t && Next(sets, s)[t] == NewSet(p)
    ensures Next(sets, s)[t].status == [] && |Next(sets, s)[t].spec| == 1
    ensures Next(sets, s)[t].spec[0] == Service(t, if p.namespace == "" then "default" else p.namespace)
  {
    var sts := Evaluate(s.cluster, sets, s.unreadable, s.ps).statuses;
    InstallAt(sets, s.ps, sts, s.no, |s.ps|, t);
    p := s.ps[FirstPending(s.ps, sts, t, |s.ps|)];
  }
}
