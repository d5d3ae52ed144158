/** A WorkspaceDeployment, the objects the operator keeps for it, and the order in
    which waiting workspaces are served. */
module Workspaces {
  import opened Text
  import opened SelectorKey
  import opened Resources
  import Prerequisites
  import ValueTree

  datatype Phase = NoPhase | Pending | InstallingPrerequisites | Waiting | Deploying | Running | Failed | Deleting

  datatype Reason =
    | ClassNotFound | GpuOfferingUnavailable | InvalidPrerequisite | PrerequisiteNamespaceConflict
    | PrerequisitesNotReady | InternalError | HelmReleaseFailed

  datatype FailureContext = FailureContext(phaseWhenFailed: Phase, reason: Reason)

  datatype Status = Status(phase: Phase, failure: Option<FailureContext>, resolved: Option<Spec>)

  datatype Workspace = Workspace(
    uid: string, name: string, created: int, cluster: string, entry: string,
    resources: Option<Spec>, values: ValueTree.Tree,
    suspended: bool, deletedAt: Option<int>, finalizer: bool, status: Status)

  datatype Report = Report(name: string, state: Prerequisites.State)

  /** The one service entry: chart, target namespace, Helm wait timeout in seconds,
      values. */
  datatype Release = Release(template: string, namespace: string, timeout: int, values: ValueTree.Tree)

  datatype ServiceSetObject = ServiceSet(
    release: Release, owner: Option<string>, reports: seq<Report>, terminating: bool, finalizers: bool)

  /** An object being deleted exists only while finalizers hold it. */
  type ServiceSet = s: ServiceSetObject | s.terminating ==> s.finalizers 
    witness ServiceSet(Release("", "", 0, map[]), None, [], false, false)

  datatype Namespace = Namespace(labels: map<string, string>, terminating: bool)

  /** One workspace as stored, its ServiceSet, its namespace on the child cluster,
      and whether the routing provider holds anything for it. */
  datatype Local = Local(ws: Workspace, serviceSet: Option<ServiceSet>, namespace: Option<Namespace>, routes: bool)

  /** `markFailed`: the first capture wins while the phase stays Failed. */
  function MarkFailed(st: Status, reason: Reason): Status {
    if st.phase == Failed && st.failure.Some? then st
    else st.(phase := Failed,
             failure := Some(FailureContext(if st.phase == NoPhase then Pending else st.phase, reason)))
  }

  /** The failure recorded: the first one while the phase stays Failed; otherwise this
      reason and the phase it came out of, Pending for none; nothing else moves. */
  lemma MarkFailedMeans(st: Status, reason: Reason)
    ensures var st' := MarkFailed(st, reason);
            && st'.phase == Failed && st'.resolved == st.resolved && st'.failure.Some?
            && (st.phase == Failed && st.failure.Some? ==> st'.failure == st.failure)
            && (st.phase != Failed || st.failure.None? ==>
                  && st'.failure.value.reason == reason
                  && (st.phase != NoPhase ==> st'.failure.value.phaseWhenFailed == st.phase)
                  && (st.phase == NoPhase ==> st'.failure.value.phaseWhenFailed == Pending))
  {
  }

  // ---- first come, first served ---------------------------------------------

  /** `isOlderWorkspace`: creation time, then UID. */
  predicate Older(a: Workspace, b: Workspace) {
    if a.created == b.created then Before(a.uid, b.uid) else a.created < b.created
  }

  lemma OlderIsStrictTotal(a: Workspace, b: Workspace, c: Workspace)
    ensures !Older(a, a)
    ensures Older(a, b) && Older(b, c) ==> Older(a, c)
    ensures a.uid != b.uid ==> (Older(a, b) <==> !Older(b, a))
    ensures a.created < b.created ==> Older(a, b)
    ensures a.created == b.created ==> (Older(a, b) <==> Before(a.uid, b.uid))
  {
    BeforeIrreflexive(a.uid);
    BeforeTotal(a.uid, b.uid);
    if Before(a.uid, b.uid) && Before(b.uid, c.uid) {
      BeforeTransitive(a.uid, b.uid, c.uid);
    }
    if Before(a.uid, b.uid) && Before(b.uid, a.uid) {
      BeforeTransitive(a.uid, b.uid, a.uid);
    }
  }

  /** What the user asked for. */
  function WantedSelector(w: Workspace): Selector {
    if w.resources.Some? then GpuSelectorOf(w.resources.value) else map[]
  }

  /** `effectiveGPUSelector`: the stamped resources, else the spec. */
  function EffectiveSelector(w: Workspace): Selector {
    if w.status.resolved.Some? then GpuSelectorOf(w.status.resolved.value) else WantedSelector(w)
  }

  /** `s` waits on the same cluster for the same selector. */
  ghost predicate Competes(s: Workspace, cluster: string, sel: Selector) {
    s.status.phase == Waiting && s.cluster == cluster && Key(EffectiveSelector(s)) == Key(sel)
  }

  /** Some other, older workspace is already waiting for the same thing. */
  ghost predicate Blocked(all: seq<Workspace>, w: Workspace, sel: Selector) {
    exists s :: s in all && s.uid != w.uid && Competes(s, w.cluster, sel) && Older(s, w)
  }

  /** `hasOlderWaitingSibling`. */
  method HasOlderWaitingSibling(all: seq<Workspace>, w: Workspace, sel: Selector) returns (older: bool)
    ensures older <==> Blocked(all, w, sel)
  {
    var wantKey := Serialize(sel);
    for i := 0 to |all|
      invariant forall j :: 0 <= j < i ==>
          !(all[j].uid != w.uid && Competes(all[j], w.cluster, sel) && Older(all[j], w))
    {
      var s := all[i];
      if s.uid == w.uid || s.status.phase != Waiting || s.cluster != w.cluster {
        continue;
      }
      var key := Serialize(EffectiveSelector(s));
      if key != wantKey {
        continue;
      }
      if Older(s, w) {
        return true;
      }
    }
    return false;
  }

  ghost predicate DistinctUids(all: seq<Workspace>) {
    forall i, j :: 0 <= i < j < |all| ==> all[i].uid != all[j].uid
  }

  /** `o` is the oldest of the group waiting for `sel` on `cluster`. */
  ghost predicate Oldest(all: seq<Workspace>, o: Workspace, cluster: string, sel: Selector) {
    && o in all && Competes(o, cluster, sel)
    && forall s :: s in all && Competes(s, cluster, sel) && s != o ==> s.uid != o.uid && Older(o, s)
  }

  lemma {:induction false} OldestExists(all: seq<Workspace>, cluster: string, sel: Selector) returns (o: Workspace)
    requires DistinctUids(all) && exists s :: s in all && Competes(s, cluster, sel)
    ensures Oldest(all, o, cluster, sel)
  {
    var e := |all| - 1;
    var rest, last := all[..e], all[e];
    assert all == rest + [last];
    if exists s :: s in rest && Competes(s, cluster, sel) {
      o := OldestExists(rest, cluster, sel);
      if Competes(last, cluster, sel) {
        OlderIsStrictTotal(last, o, o);
        if Older(last, o) {
          forall s | s in rest && Competes(s, cluster, sel) && s != o ensures Older(last, s) {
            OlderIsStrictTotal(last, o, s);
          }
          o := last;
        }
      }
    } else {
      o := last;
    }
  }

  /** Any group of waiters has exactly one member that is not blocked: the oldest. */
  lemma ExactlyOneUnblocked(all: seq<Workspace>, cluster: string, sel: Selector)
    requires DistinctUids(all) && exists s :: s in all && Competes(s, cluster, sel)
    ensures exists o :: Oldest(all, o, cluster, sel)
    ensures forall w :: w in all && Competes(w, cluster, sel) ==>
        (!Blocked(all, w, sel) <==> Oldest(all, w, cluster, sel))
  {
    var o := OldestExists(all, cluster, sel);
    forall w | w in all && Competes(w, cluster, sel)
      ensures !Blocked(all, w, sel) <==> Oldest(all, w, cluster, sel)
    {
      if w != o {
        assert o.uid != w.uid && Older(o, w);
        OlderIsStrictTotal(o, w, w);
        assert Blocked(all, w, sel);
      } else if Blocked(all, w, sel) {
        var s :| s in all && s.uid != w.uid && Competes(s, w.cluster, sel) && Older(s, w);
        OlderIsStrictTotal(s, w, w);
      }
    }
  }

  /** Nobody waits behind a workspace that wants something else: for selectors in
      label syntax, competing is asking for the very same labels. */
  lemma CompetingMeansSameSelector(s: Workspace, cluster: string, sel: Selector)
    requires LabelSyntax(EffectiveSelector(s)) && LabelSyntax(sel)
    ensures Competes(s, cluster, sel) <==>
        s.status.phase == Waiting && s.cluster == cluster && EffectiveSelector(s) == sel
  {
    KeyInjective(EffectiveSelector(s), sel);
  }
}
