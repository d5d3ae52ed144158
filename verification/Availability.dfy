/** Free GPU capacity for a selector: the live query the deployment gate asks. */
module Availability {
  import opened Text
  import opened SelectorKey
  import opened Nodes

  /** Which nodes a query counts. */
  type Pick = Node -> bool

  /** `matched` after the first `j` vendor resources of a counted node. */
  function MatchNode(n: Node, j: nat, m: map<string, string>): map<string, string>
    requires j <= |VENDOR_RESOURCES|
  {
    if j == 0 then m
    else
      var m' := MatchNode(n, j - 1, m);
      var r := VENDOR_RESOURCES[j - 1].resourceName;
      if Allocatable(n, r) > 0 then m'[n.name := r] else m'
  }

  function UnitsUpTo(n: Node, j: nat): int
    requires j <= |VENDOR_RESOURCES|
  {
    if j == 0 then 0
    else UnitsUpTo(n, j - 1) + Max0(Allocatable(n, VENDOR_RESOURCES[j - 1].resourceName))
  }

  function FirstUpTo(n: Node, j: nat): Option<VendorResource>
    requires j <= |VENDOR_RESOURCES|
  {
    if j == 0 then None
    else
      var f := FirstUpTo(n, j - 1);
      var vr := VENDOR_RESOURCES[j - 1];
      if f.Some? then f else if Allocatable(n, vr.resourceName) > 0 then Some(vr) else None
  }

  function Matched(nodes: seq<Node>, pick: Pick): map<string, string> {
    if nodes == [] then map[]
    else
      var m, n := Matched(nodes[..|nodes| - 1], pick), nodes[|nodes| - 1];
      if Schedulable(n) && pick(n) then MatchNode(n, 2, m) else m
  }

  function Total(nodes: seq<Node>, pick: Pick): int {
    if nodes == [] then 0
    else
      var n := nodes[|nodes| - 1];
      Total(nodes[..|nodes| - 1], pick) + if Schedulable(n) && pick(n) then UnitsUpTo(n, 2) else 0
  }

  function First(nodes: seq<Node>, pick: Pick): Option<VendorResource> {
    if nodes == [] then None
    else
      var f, n := First(nodes[..|nodes| - 1], pick), nodes[|nodes| - 1];
      if f.Some? then f else if Schedulable(n) && pick(n) then FirstUpTo(n, 2) else None
  }

  function Requested(containers: seq<map<string, int>>, r: string): int {
    if containers == [] then 0
    else
      var c := containers[|containers| - 1];
      Requested(containers[..|containers| - 1], r) + if r in c then c[r] else 0
  }

  function PodUse(p: Pod, m: map<string, string>): int {
    if p.nodeName in m && Consumes(p) then Requested(p.containers, m[p.nodeName]) else 0
  }

  function Used(pods: seq<Pod>, m: map<string, string>): int {
    if pods == [] then 0
    else Used(pods[..|pods| - 1], m) + PodUse(pods[|pods| - 1], m)
  }

  function Free(nodes: seq<Node>, pods: seq<Pod>, pick: Pick): int {
    Max0(Total(nodes, pick) - Used(pods, Matched(nodes, pick)))
  }

  /** The pod loop shared by both queries. */
  method CountUsed(pods: seq<Pod>, matched: map<string, string>) returns (used: int)
    ensures used == Used(pods, matched)
  {
    used := 0;
    for i := 0 to |pods|
      invariant used == Used(pods[..i], matched)
    {
      assert pods[..i + 1][..i] == pods[..i];
      var p := pods[i];
      if p.nodeName !in matched || !Consumes(p) {
        continue;
      }
      var resourceName := matched[p.nodeName];
      ghost var before := used;
      for ci := 0 to |p.containers|
        invariant used == before + Requested(p.containers[..ci], resourceName)
      {
        assert p.containers[..ci + 1][..ci] == p.containers[..ci];
        if resourceName in p.containers[ci] {
          used := used + p.containers[ci][resourceName];
        }
      }
      assert p.containers[..|p.containers|] == p.containers;
    }
    assert pods[..|pods|] == pods;
  }

  /** `SelectorAvailability`. */
  datatype Summary = Summary(found: bool, free: int, resourceName: string, vendor: string)

  ghost function SelectorSummary(nodes: seq<Node>, pods: seq<Pod>, sel: Selector): Summary {
    var pick := (n: Node) => Matches(n, sel);
    var first := First(nodes, pick);
    if sel == map[] || first.None? then Summary(false, 0, "", "")
    else Summary(true, Free(nodes, pods, pick), first.value.resourceName, first.value.vendor)
  }

  /** The vendor loop for one matching node. */
  method CountNode(n: Node, matched0: map<string, string>, total0: int, sa0: Summary,
                   ghost first: Option<VendorResource>)
      returns (matched: map<string, string>, total: int, sa: Summary)
    requires sa0 == FoundSoFar(first) && (first.Some? ==> first.value.resourceName != "")
    ensures matched == MatchNode(n, 2, matched0) && total == total0 + UnitsUpTo(n, 2)
    ensures sa == FoundSoFar(if first.Some? then first else FirstUpTo(n, 2))
  {
    matched, total, sa := matched0, total0, sa0;
    for j := 0 to |VENDOR_RESOURCES|
      invariant matched == MatchNode(n, j, matched0) && total == total0 + UnitsUpTo(n, j)
      invariant FirstUpTo(n, j).Some? ==> FirstUpTo(n, j).value.resourceName != ""
      invariant sa == FoundSoFar(if first.Some? then first else FirstUpTo(n, j))
    {
      var vr := VENDOR_RESOURCES[j];
      var c := Allocatable(n, vr.resourceName);
      if c > 0 {
        matched := matched[n.name := vr.resourceName];
        total := total + c;
        sa := sa.(found := true);
        if sa.resourceName == "" {
          sa := sa.(resourceName := vr.resourceName, vendor := vr.vendor);
        }
      }
    }
  }

  method AvailabilityForSelector(nodes: seq<Node>, pods: seq<Pod>, sel: Selector) returns (sa: Summary)
    ensures sa == SelectorSummary(nodes, pods, sel)
  {
    sa := Summary(false, 0, "", "");
    if |sel| == 0 {
      return;
    }
    ghost var pick := (n: Node) => Matches(n, sel);
    var matched: map<string, string> := map[];
    var total := 0;
    for i := 0 to |nodes|
      invariant matched == Matched(nodes[..i], pick) && total == Total(nodes[..i], pick)
      invariant sa == FoundSoFar(First(nodes[..i], pick))
    {
      assert nodes[..i + 1][..i] == nodes[..i];
      var n := nodes[i];
      if !Schedulable(n) || !Matches(n, sel) {
        continue;
      }
      FirstNamesAResource(nodes[..i], pick);
      matched, total, sa := CountNode(n, matched, total, sa, First(nodes[..i], pick));
    }
    assert nodes[..|nodes|] == nodes;
    if !sa.found {
      return;
    }
    var used := CountUsed(pods, matched);
    sa := sa.(free := Max0(total - used));
  }

  ghost function FoundSoFar(first: Option<VendorResource>): Summary {
    if first.None? then Summary(false, 0, "", "")
    else Summary(true, 0, first.value.resourceName, first.value.vendor)
  }

  lemma {:induction false} FirstNamesAResource(nodes: seq<Node>, pick: Pick)
    ensures First(nodes, pick).Some? ==> First(nodes, pick).value.resourceName != ""
  {
    if nodes != [] {
      FirstNamesAResource(nodes[..|nodes| - 1], pick);
      var n := nodes[|nodes| - 1];
      assert FirstUpTo(n, 1).Some? ==> FirstUpTo(n, 1).value == VENDOR_RESOURCES[0];
    }
  }

  /** The specialised query on a canonical model, with its own label test. */
  method AvailableForModel(nodes: seq<Node>, pods: seq<Pod>, model: string, modelLabel: string)
      returns (free: int, found: bool)
    ensures var pick := (n: Node) => Label(n, modelLabel) == model;
            && found == First(nodes, pick).Some?
            && free == if found then Free(nodes, pods, pick) else 0
  {
    ghost var pick := (n: Node) => Label(n, modelLabel) == model;
    found := false;
    var matched: map<string, string> := map[];
    var total := 0;
    for i := 0 to |nodes|
      invariant matched == Matched(nodes[..i], pick) && total == Total(nodes[..i], pick)
      invariant found == First(nodes[..i], pick).Some?
    {
      assert nodes[..i + 1][..i] == nodes[..i];
      var n := nodes[i];
      if !Schedulable(n) || Label(n, modelLabel) != model {
        continue;
      }
      for j := 0 to |VENDOR_RESOURCES|
        invariant matched == MatchNode(n, j, Matched(nodes[..i], pick))
        invariant total == Total(nodes[..i], pick) + UnitsUpTo(n, j)
        invariant found == (First(nodes[..i], pick).Some? || FirstUpTo(n, j).Some?)
      {
        var c := Allocatable(n, VENDOR_RESOURCES[j].resourceName);
        if c > 0 {
          matched := matched[n.name := VENDOR_RESOURCES[j].resourceName];
          total := total + c;
          found := true;
        }
      }
    }
    assert nodes[..|nodes|] == nodes;
    if !found {
      return 0, false;
    }
    var used := CountUsed(pods, matched);
    free := Max0(total - used);
  }

  lemma {:induction false} SamePick(nodes: seq<Node>, p: Pick, q: Pick)
    requires forall n :: n in nodes ==> p(n) == q(n)
    ensures Matched(nodes, p) == Matched(nodes, q)
    ensures Total(nodes, p) == Total(nodes, q)
    ensures First(nodes, p) == First(nodes, q)
  {
    if nodes != [] {
      assert nodes[|nodes| - 1] in nodes;
      SamePick(nodes[..|nodes| - 1], p, q);
    }
  }

  /** The specialised query is the general one on `NodeSelectorForModel`. */
  lemma ModelQueryIsSelectorQuery(nodes: seq<Node>, pods: seq<Pod>, model: string, modelLabel: string)
    ensures var pick := (n: Node) => Label(n, modelLabel) == model;
            var sa := SelectorSummary(nodes, pods, map[modelLabel := model]);
            && sa.found == First(nodes, pick).Some?
            && sa.free == (if sa.found then Free(nodes, pods, pick) else 0)
  {
    var sel: Selector := map[modelLabel := model];
    assert modelLabel in sel;
    SamePick(nodes, (n: Node) => Label(n, modelLabel) == model, (n: Node) => Matches(n, sel));
  }

  // ---- what Free means ------------------------------------------------------

  predicate UniquelyNamed(nodes: seq<Node>) {
    && (forall i :: 0 <= i < |nodes| ==> nodes[i].name != "")
    && (forall i, j :: 0 <= i < j < |nodes| ==> nodes[i].name != nodes[j].name)
  }

  predicate DualVendor(n: Node) {
    Advertised(n, "nvidia.com/gpu") > 0 && Advertised(n, "amd.com/gpu") > 0
  }

  /** Requests of live pods on `n` for one resource. */
  function OnNode(n: Node, pods: seq<Pod>, r: string): int {
    if pods == [] then 0
    else (if LiveOn(pods[0], n) then Asked(pods[0].containers, r) else 0) + OnNode(n, pods[1..], r)
  }

  /** Requests of live pods on `n` for the GPU resources `n` advertises. */
  function GpuRequests(n: Node, pods: seq<Pod>): int {
    (if Advertised(n, "nvidia.com/gpu") > 0 then OnNode(n, pods, "nvidia.com/gpu") else 0) +
    (if Advertised(n, "amd.com/gpu") > 0 then OnNode(n, pods, "amd.com/gpu") else 0)
  }

  /** The reference: node by node, allocatable minus live requests. */
  ghost function Spare(nodes: seq<Node>, pods: seq<Pod>, sel: Selector): int {
    if nodes == [] then 0
    else
      var n := nodes[|nodes| - 1];
      Spare(nodes[..|nodes| - 1], pods, sel) +
      if Usable(n) && Reads(n, sel) then Capacity(n) - GpuRequests(n, pods) else 0
  }

  /** NVIDIA requests on counted dual-vendor nodes, which the code forgets. */
  ghost function Forgotten(nodes: seq<Node>, pods: seq<Pod>, sel: Selector): int {
    if nodes == [] then 0
    else
      var n := nodes[|nodes| - 1];
      Forgotten(nodes[..|nodes| - 1], pods, sel) +
      if Usable(n) && Reads(n, sel) && DualVendor(n) then OnNode(n, pods, "nvidia.com/gpu") else 0
  }

  /** The container loop adds up every container. */
  lemma {:induction false} RequestedConcat(a: seq<map<string, int>>, b: seq<map<string, int>>, r: string)
    ensures Requested(a + b, r) == Requested(a, r) + Requested(b, r)
  {
    if b == [] {
      assert a + b == a;
    } else {
      var e := |b| - 1;
      RequestedConcat(a, b[..e], r);
      assert (a + b)[..|a| + e] == a + b[..e];
    }
  }

  lemma {:induction false} RequestedIsAsked(cs: seq<map<string, int>>, r: string)
    ensures Requested(cs, r) == Asked(cs, r)
  {
    if cs != [] {
      RequestedIsAsked(cs[1..], r);
      RequestedConcat([cs[0]], cs[1..], r);
      assert cs == [cs[0]] + cs[1..] && [cs[0]][..0] == [];
    }
  }

  /** The pod loop adds up every pod. */
  lemma {:induction false} UsedConcat(a: seq<Pod>, b: seq<Pod>, m: map<string, string>)
    ensures Used(a + b, m) == Used(a, m) + Used(b, m)
  {
    if b == [] {
      assert a + b == a;
    } else {
      var e := |b| - 1;
      UsedConcat(a, b[..e], m);
      assert (a + b)[..|a| + e] == a + b[..e];
    }
  }

  lemma {:induction false} UsedByNewNode(pods: seq<Pod>, m: map<string, string>, n: Node, r: string)
    requires n.name !in m && n.name != ""
    ensures Used(pods, m[n.name := r]) == Used(pods, m) + OnNode(n, pods, r)
  {
    if pods != [] {
      var p, rest, m' := pods[0], pods[1..], m[n.name := r];
      UsedByNewNode(rest, m, n, r);
      UsedConcat([p], rest, m);
      UsedConcat([p], rest, m');
      assert pods == [p] + rest && [p][..0] == [];
      RawPod(p, n);
      RequestedIsAsked(p.containers, r);
    }
  }

  lemma {:induction false} MatchedNames(nodes: seq<Node>, pick: Pick)
    ensures forall name :: name in Matched(nodes, pick) ==> exists i :: 0 <= i < |nodes| && nodes[i].name == name
  {
    if nodes != [] {
      var k := |nodes| - 1;
      MatchedNames(nodes[..k], pick);
      forall name | name in Matched(nodes, pick)
        ensures exists i :: 0 <= i < |nodes| && nodes[i].name == name
      {
        if name != nodes[k].name {
          assert name in Matched(nodes[..k], pick) by {
            assert MatchNode(nodes[k], 1, Matched(nodes[..k], pick)).Keys
                <= Matched(nodes[..k], pick).Keys + {nodes[k].name};
          }
          var i :| 0 <= i < k && nodes[..k][i].name == name;
          assert nodes[i].name == name;
        }
      }
    }
  }

  lemma MatchNodeUnfolds(n: Node, m: map<string, string>)
    ensures MatchNode(n, 2, m) ==
      if Allocatable(n, AMD) > 0 then m[n.name := AMD]
      else if Allocatable(n, NVIDIA) > 0 then m[n.name := NVIDIA]
      else m
    ensures UnitsUpTo(n, 2) == GpuUnits(n)
  {
    assert MatchNode(n, 1, m) == if Allocatable(n, NVIDIA) > 0 then m[n.name := NVIDIA] else m;
    assert UnitsUpTo(n, 1) == Max0(Allocatable(n, NVIDIA));
  }

  /** The code's account equals the reference plus exactly what it forgets. */
  lemma {:induction false} Accounting(nodes: seq<Node>, pods: seq<Pod>, sel: Selector)
    requires UniquelyNamed(nodes)
    ensures var pick := (n: Node) => Matches(n, sel);
            Total(nodes, pick) - Used(pods, Matched(nodes, pick))
            == Spare(nodes, pods, sel) + Forgotten(nodes, pods, sel)
  {
    var pick := (n: Node) => Matches(n, sel);
    if nodes == [] {
      NothingMatchedNothingUsed(pods);
    } else {
      var k := |nodes| - 1;
      var n, m := nodes[k], Matched(nodes[..k], pick);
      Accounting(nodes[..k], pods, sel);
      MatchedNames(nodes[..k], pick);
      assert n.name !in m;
      MatchNodeUnfolds(n, m);
      RawNode(n, sel);
      UsedByNewNode(pods, m, n, NVIDIA);
      UsedByNewNode(pods, m, n, AMD);
    }
  }

  /** That many GPUs are free by the code's account: on a cluster with proper node
      names, allocatable minus live requests, plus what the code forgets. */
  ghost predicate Affords(nodes: seq<Node>, pods: seq<Pod>, sel: Selector, demand: int) {
    demand > 0 ==>
      if UniquelyNamed(nodes) then Spare(nodes, pods, sel) + Forgotten(nodes, pods, sel) >= demand
      else Free(nodes, pods, n => Matches(n, sel)) >= demand
  }

  lemma AffordsMeans(nodes: seq<Node>, pods: seq<Pod>, sel: Selector, demand: int)
    ensures Affords(nodes, pods, sel, demand) <==> demand <= 0 || Free(nodes, pods, n => Matches(n, sel)) >= demand
  {
    if UniquelyNamed(nodes) {
      Accounting(nodes, pods, sel);
    }
  }

  lemma {:induction false} NothingMatchedNothingUsed(pods: seq<Pod>)
    ensures Used(pods, map[]) == 0
  {
    if pods != [] {
      NothingMatchedNothingUsed(pods[..|pods| - 1]);
    }
  }

  lemma {:induction false} NothingForgotten(nodes: seq<Node>, pods: seq<Pod>, sel: Selector)
    requires forall n :: n in nodes && Usable(n) && Reads(n, sel) ==> !DualVendor(n)
    ensures Forgotten(nodes, pods, sel) == 0
  {
    if nodes != [] {
      assert nodes[|nodes| - 1] in nodes;
      NothingForgotten(nodes[..|nodes| - 1], pods, sel);
    }
  }

  predicate Offers(nodes: seq<Node>, pick: Pick) {
    exists n :: n in nodes && Schedulable(n) && pick(n) && GpuUnits(n) > 0
  }

  lemma {:induction false} FoundMeansOffered(nodes: seq<Node>, pick: Pick)
    ensures First(nodes, pick).Some? <==> Offers(nodes, pick)
    ensures First(nodes, pick).None? ==> Total(nodes, pick) == 0 && Matched(nodes, pick) == map[]
  {
    if nodes != [] {
      var k := |nodes| - 1;
      var n := nodes[k];
      FoundMeansOffered(nodes[..k], pick);
      MatchNodeUnfolds(n, map[]);
      assert FirstUpTo(n, 1).Some? <==> Allocatable(n, NVIDIA) > 0;
      assert FirstUpTo(n, 2).Some? <==> GpuUnits(n) > 0;
      assert n in nodes;
      assert forall x :: x in nodes <==> x == n || x in nodes[..k];
    }
  }

  /** Some usable node carries the selector and advertises a GPU. */
  ghost predicate Offered(nodes: seq<Node>, sel: Selector) {
    exists i :: 0 <= i < |nodes| && Provides(nodes[i], sel)
  }

  ghost predicate Provides(n: Node, sel: Selector) {
    Usable(n) && Reads(n, sel) && Capacity(n) > 0
  }

  lemma OfferedIsOffers(nodes: seq<Node>, sel: Selector)
    ensures Offered(nodes, sel) <==> Offers(nodes, n => Matches(n, sel))
  {
    forall i | 0 <= i < |nodes|
      ensures Provides(nodes[i], sel) <==> Schedulable(nodes[i]) && Matches(nodes[i], sel) && GpuUnits(nodes[i]) > 0
    {
      RawNode(nodes[i], sel);
    }
  }

  /** The gate's answer: found exactly when some usable node carrying the selector
      has a GPU, and then free as the folds compute it (0 otherwise, either way). */
  lemma SummaryMeaning(nodes: seq<Node>, pods: seq<Pod>, sel: Selector)
    requires sel != map[]
    ensures var sa := SelectorSummary(nodes, pods, sel);
            && (sa.found <==> Offered(nodes, sel))
            && sa.free == Free(nodes, pods, n => Matches(n, sel))
  {
    FoundMeansOffered(nodes, n => Matches(n, sel));
    OfferedIsOffers(nodes, sel);
    NothingMatchedNothingUsed(pods);
  }

  /** Which resource and vendor it names: those of the first node that provides,
      NVIDIA before AMD. */
  lemma {:induction false} FirstMeans(nodes: seq<Node>, sel: Selector, i: nat)
    requires i < |nodes| && Provides(nodes[i], sel) && forall j :: 0 <= j < i ==> !Provides(nodes[j], sel)
    ensures First(nodes, n => Matches(n, sel)) ==
              Some(if Advertised(nodes[i], "nvidia.com/gpu") > 0 then VendorResource("NVIDIA", "nvidia.com/gpu")
                   else VendorResource("AMD", "amd.com/gpu"))
  {
    var k := |nodes| - 1;
    var pick := (n: Node) => Matches(n, sel);
    RawNode(nodes[i], sel);
    if i < k {
      FirstMeans(nodes[..k], sel, i);
    } else {
      NoneBefore(nodes[..k], sel);
      assert FirstUpTo(nodes[i], 1) ==
        if Advertised(nodes[i], "nvidia.com/gpu") > 0 then Some(VENDOR_RESOURCES[0]) else None;
    }
  }

  lemma NoneBefore(nodes: seq<Node>, sel: Selector)
    requires forall j :: 0 <= j < |nodes| ==> !Provides(nodes[j], sel)
    ensures First(nodes, n => Matches(n, sel)).None?
  {
    FoundMeansOffered(nodes, n => Matches(n, sel));
    OfferedIsOffers(nodes, sel);
  }

  /** Free is allocatable minus live requests, for every pod population, exactly
      when no counted node advertises both vendors' GPUs. */
  lemma FreeIsExact(nodes: seq<Node>, sel: Selector)
    requires UniquelyNamed(nodes) && sel != map[]
    ensures (forall pods: seq<Pod> :: SelectorSummary(nodes, pods, sel).free == Max0(Spare(nodes, pods, sel)))
       <==> (forall n :: n in nodes && Usable(n) && Reads(n, sel) ==> !DualVendor(n))
  {
    var pick := (n: Node) => Matches(n, sel);
    if forall n :: n in nodes && Usable(n) && Reads(n, sel) ==> !DualVendor(n) {
      forall pods: seq<Pod>
        ensures SelectorSummary(nodes, pods, sel).free == Max0(Spare(nodes, pods, sel))
      {
        SummaryMeaning(nodes, pods, sel);
        Accounting(nodes, pods, sel);
        NothingForgotten(nodes, pods, sel);
      }
    } else {
      var i :| 0 <= i < |nodes| && Usable(nodes[i]) && Reads(nodes[i], sel) && DualVendor(nodes[i]);
      var pods := [Pod(nodes[i].name, PodRunning, [map[NVIDIA := 1]])];
      SummaryMeaning(nodes, pods, sel);
      Accounting(nodes, pods, sel);
      Witness(nodes, i, sel);
      assert SelectorSummary(nodes, pods, sel).free != Max0(Spare(nodes, pods, sel));
    }
  }

  lemma AskedOfOne(c: map<string, int>, r: string)
    ensures Asked([c], r) == if r in c then c[r] else 0
  {
    assert [c][1..] == [];
  }

  /** One NVIDIA pod on a dual-vendor node: the reference sees it, the code does
      not. */
  lemma {:induction false} Witness(nodes: seq<Node>, i: nat, sel: Selector)
    requires UniquelyNamed(nodes) && i < |nodes|
    requires Usable(nodes[i]) && Reads(nodes[i], sel) && DualVendor(nodes[i])
    ensures var pods := [Pod(nodes[i].name, PodRunning, [map[NVIDIA := 1]])];
            && Forgotten(nodes, pods, sel) == 1
            && Spare(nodes, pods, sel) >= 1
  {
    var c: map<string, int> := map[NVIDIA := 1];
    var pod := Pod(nodes[i].name, PodRunning, [c]);
    assert [pod][1..] == [] && NVIDIA[0] != AMD[0];
    AskedOfOne(c, NVIDIA);
    AskedOfOne(c, AMD);
    assert AMD !in c;
    var k := |nodes| - 1;
    if i < k {
      Witness(nodes[..k], i, sel);
    } else {
      Untouched(nodes[..k], pod, sel);
    }
    assert OnNode(nodes[k], [pod], NVIDIA) == (if i == k then 1 else 0);
    assert OnNode(nodes[k], [pod], AMD) == 0;
  }

  lemma {:induction false} Untouched(nodes: seq<Node>, pod: Pod, sel: Selector)
    requires forall j :: 0 <= j < |nodes| ==> nodes[j].name != pod.nodeName
    ensures Forgotten(nodes, [pod], sel) == 0
    ensures Spare(nodes, [pod], sel) >= 0
  {
    if nodes != [] {
      var k := |nodes| - 1;
      Untouched(nodes[..k], pod, sel);
      assert [pod][1..] == [];
      assert OnNode(nodes[k], [pod], NVIDIA) == 0 && OnNode(nodes[k], [pod], AMD) == 0;
    }
  }
}
