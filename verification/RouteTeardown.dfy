/** Lifecycle and port pool together: what "routes cleaned" and "abandoned" mean for
    the ports of one regional cluster. */
module RouteTeardown {
  import opened Workspaces
  import opened Deletion
  import Life = LifecycleRuns
  import Safety = LifecycleSafety
  import Ports = PortPoolRuns
  import PortPool

  /** The next pass over `l` is a deletion pass. */
  predicate TearingDown(l: Local) {
    !Life.Idle(l) && l.ws.deletedAt.Some?
  }

  /** The names the API server knows, as the sweeper lists them. */
  ghost function Names(w: Life.World): set<string> {
    set u | u in w.all && !Life.Gone(w.all[u]) :: w.all[u].ws.name
  }

  /** One step of the reconciler and one of the regional cluster that serves the
      clusters in `here`. Routes are ensured only by a pass over a live Running
      workspace on one of them, under its name; a deletion pass over one of them
      whose cleanup answers success removed the routes and terminated the namespace
      in that very pass; a sweep works on the names that exist. */
  ghost predicate Coupled(w: Life.World, s: Life.Step, r: Ports.Step, here: set<string>) {
    && (r.EnsureStep? ==>
          && s.ReconcileStep? && s.uid in w.all && Life.LiveVisit(w.all[s.uid]) && w.all[s.uid].ws.cluster in here
          && w.all[s.uid].ws.status.phase == Running && r.workspace == w.all[s.uid].ws.name)
    && (s.ReconcileStep? && s.uid in w.all && w.all[s.uid].ws.cluster in here && TearingDown(w.all[s.uid])
        && s.visit.d.cleanup.Cleaned? ==>
          r == Ports.CleanupStep(w.all[s.uid].ws.name, PortPool.CleanupOk))
    && (r.SweepStep? ==> r.active == Names(w))
  }

  /** A run of the reconciler beside a run of that regional cluster. */
  datatype Joint = Joint(lw: seq<Life.World>, ls: seq<Life.Step>, rw: seq<Ports.World>, rs: seq<Ports.Step>)

  ghost predicate JointRun(j: Joint, gw: PortPool.Gateway, here: set<string>) {
    && Life.Run(j.lw, j.ls) && Ports.Run(j.rw, j.rs, gw) && |j.ls| == |j.rs|
    && forall i :: 0 <= i < |j.ls| ==> Coupled(j.lw[i], j.ls[i], j.rs[i], here)
  }

  /** A teardown that finishes with "routes cleaned" leaves the workspace no port. */
  lemma CleanedHoldsNoPort(j: Joint, gw: PortPool.Gateway, here: set<string>, i: nat, u: string)
    requires JointRun(j, gw, here) && i < |j.ls| && u in j.lw[i].all && u in j.lw[i + 1].all
    requires j.lw[i].all[u].ws.cluster in here
    requires j.lw[i].all[u].ws.finalizer && !j.lw[i + 1].all[u].ws.finalizer
    requires j.ls[i].ReconcileStep? && |j.ls[i].visit.ops| > 0 && j.ls[i].visit.ops[0] == RoutesCleaned
    ensures !Ports.HoldsPort(j.rw[i + 1], j.lw[i].all[u].ws.name)
  {
    Safety.FinalizerGoesLast(j.lw, j.ls, i, u);
    var v := j.ls[i].visit;
    assert RoutesTruth(RoutesCleaned, v.after.routes, v.d, Expired(j.lw[i].all[u].ws, j.lw[i].now));
    assert Coupled(j.lw[i], j.ls[i], j.rs[i], here);
    Ports.RunKeepsInv(j.rw, j.rs, gw, i);
    Ports.CleanupFreesAll(j.rw[i], j.lw[i].all[u].ws.name, gw);
  }

  /** No live Running workspace goes by that name. */
  ghost predicate NameUnused(w: Life.World, name: string) {
    forall u :: u in w.all && w.all[u].ws.name == name ==>
        !(Life.LiveVisit(w.all[u]) && w.all[u].ws.status.phase == Running)
  }

  ghost predicate UnusedThroughout(lw: seq<Life.World>, a: nat, b: nat, name: string)
    requires b <= |lw|
  {
    forall h :: a <= h < b ==> NameUnused(lw[h], name)
  }

  /** And it stays so until a workspace of that name runs again. */
  lemma {:induction false} FreedStaysFree(j: Joint, gw: PortPool.Gateway, here: set<string>, a: nat, b: nat,
                                          name: string)
    requires JointRun(j, gw, here) && a <= b < |j.rw| && UnusedThroughout(j.lw, a, b, name)
    requires !Ports.HoldsPort(j.rw[a], name)
    ensures !Ports.HoldsPort(j.rw[b], name)
    decreases b - a
  {
    if a < b {
      var c := b - 1;
      FreedStaysFree(j, gw, here, a, c, name);
      Ports.RunKeepsInv(j.rw, j.rs, gw, c);
      assert NameUnused(j.lw[c], name) && Coupled(j.lw[c], j.ls[c], j.rs[c], here);
      Ports.StaysFree(j.rw[c], j.rs[c], gw, name);
      assert j.rw[c + 1] == j.rw[b];
    }
  }

  /** What a teardown abandoned, the sweeper reclaims: after an error-free sweep no
      port is left under a name that no workspace bears any more, however the
      workspace went, and existing workspaces keep all of theirs. */
  lemma SweeperReclaimsAbandoned(j: Joint, gw: PortPool.Gateway, here: set<string>, i: nat, name: string)
    requires JointRun(j, gw, here) && i < |j.ls| && Ports.GentleRun(j.rw, j.rs, gw, i)
    requires j.rs[i].SweepStep? && j.rs[i].replies.routesFail == {}
    ensures name !in Names(j.lw[i]) ==> !Ports.HoldsPort(j.rw[i + 1], name)
    ensures name in Names(j.lw[i]) && Ports.HoldsPort(j.rw[i], name) ==> Ports.HoldsPort(j.rw[i + 1], name)
  {
    assert Coupled(j.lw[i], j.ls[i], j.rs[i], here);
    Ports.SweepFreesInactive(j.rw, j.rs, gw, i, name);
    if name in Names(j.lw[i]) && Ports.HoldsPort(j.rw[i], name) {
      var k :| Ports.OwnedBy(j.rw[i], k, name);
      assert Ports.OwnedBy(j.rw[i + 1], k, name);
    }
  }
}
