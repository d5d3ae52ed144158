/** Cluster facts the GPU logic reads: nodes, pods, selectors and what a node
    advertises. */
module Nodes {
  import opened SelectorKey

  datatype Condition = Condition(kind: string, status: string)

  datatype Node = Node(
    name: string,
    unschedulable: bool,
    conditions: seq<Condition>,
    labels: map<string, string>,
    allocatable: map<string, int>)

  datatype PodPhase = PodPending | PodRunning | PodSucceeded | PodFailed | PodUnknown

  /** `containers[i]` is the resource requests of one container. */
  datatype Pod = Pod(nodeName: string, phase: PodPhase, containers: seq<map<string, int>>)

  datatype VendorResource = VendorResource(vendor: string, resourceName: string)

  const VENDOR_RESOURCES: seq<VendorResource> :=
    [VendorResource("NVIDIA", "nvidia.com/gpu"), VendorResource("AMD", "amd.com/gpu")]

  const NVIDIA := VENDOR_RESOURCES[0].resourceName
  const AMD := VENDOR_RESOURCES[1].resourceName

  /** Go's `n.Labels[k]`: a missing label reads as "". */
  function Label(n: Node, k: string): string {
    if k in n.labels then n.labels[k] else ""
  }

  function Allocatable(n: Node, resource: string): int {
    if resource in n.allocatable then n.allocatable[resource] else 0
  }

  predicate Schedulable(n: Node) {
    !n.unschedulable &&
    forall c :: c in n.conditions && c.kind == "Ready" ==> c.status == "True"
  }

  predicate Matches(n: Node, sel: Selector) {
    forall k :: k in sel ==> Label(n, k) == sel[k]
  }

  predicate Consumes(p: Pod) {
    p.nodeName != "" && p.phase != PodSucceeded && p.phase != PodFailed
  }

  /** The scheduler's reading of a selector: the label is there and equal. */
  predicate Carries(n: Node, sel: Selector) {
    forall k :: k in sel ==> k in n.labels && n.labels[k] == sel[k]
  }

  // ---- the raw reading ------------------------------------------------------

  /** Not cordoned, and no Ready condition that says anything but True. */
  ghost predicate Usable(n: Node) {
    && !n.unschedulable
    && !exists i :: 0 <= i < |n.conditions| && n.conditions[i].kind == "Ready" && n.conditions[i].status != "True"
  }

  /** Every label asked for is there with that value, or absent and asked for as
      the empty string. */
  ghost predicate Reads(n: Node, sel: Selector) {
    forall k :: k in sel ==> if k in n.labels then n.labels[k] == sel[k] else sel[k] == ""
  }

  /** The units a node advertises of one resource; negative counts are none. */
  function Advertised(n: Node, resource: string): nat {
    if resource in n.allocatable && n.allocatable[resource] > 0 then n.allocatable[resource] else 0
  }

  function Capacity(n: Node): nat {
    Advertised(n, "nvidia.com/gpu") + Advertised(n, "amd.com/gpu")
  }

  /** The pod sits on the node and has not finished. */
  predicate LiveOn(p: Pod, n: Node) {
    p.nodeName == n.name && (p.phase == PodPending || p.phase == PodRunning || p.phase == PodUnknown)
  }

  /** What the containers ask for, one by one. */
  function Asked(containers: seq<map<string, int>>, resource: string): int {
    if containers == [] then 0
    else (if resource in containers[0] then containers[0][resource] else 0) + Asked(containers[1..], resource)
  }

  lemma RawNode(n: Node, sel: Selector)
    ensures Schedulable(n) <==> Usable(n)
    ensures Matches(n, sel) <==> Reads(n, sel)
    ensures GpuUnits(n) == Capacity(n)
    ensures Allocatable(n, NVIDIA) > 0 <==> Advertised(n, "nvidia.com/gpu") > 0
    ensures Allocatable(n, AMD) > 0 <==> Advertised(n, "amd.com/gpu") > 0
  {
  }

  lemma RawPod(p: Pod, n: Node)
    requires n.name != ""
    ensures p.nodeName == n.name && Consumes(p) <==> LiveOn(p, n)
  {
  }

  /** "Passes the gate implies placeable" holds of a selector exactly when none
      of its values is empty: an empty value also matches a node lacking the
      label. */
  lemma MatchIsPlaceable(sel: Selector)
    ensures (forall n :: Matches(n, sel) ==> Carries(n, sel)) <==> (forall k :: k in sel ==> sel[k] != "")
  {
    if k :| k in sel && sel[k] == "" {
      var n := Node("n", false, [], sel - {k}, map[]);
      assert Matches(n, sel) && !Carries(n, sel);
    }
  }

  function Max0(x: int): int {
    if x < 0 then 0 else x
  }

  /** Every GPU unit a node advertises, over both vendors. */
  function GpuUnits(n: Node): int {
    Max0(Allocatable(n, NVIDIA)) + Max0(Allocatable(n, AMD))
  }
}
