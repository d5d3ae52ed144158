/** Workspace resource requests: merging class defaults with user overrides, and
    the GPU selector both the gate and the chart use. */
module Resources {
  import opened Text
  import opened SelectorKey
  import opened Offerings

  /** `WorkspaceResourceSpec` with its per-replica fields; quantities are their
      canonical strings. */
  datatype Spec = Spec(
    replicas: Option<int>, cpu: Option<string>, memory: Option<string>, storage: Option<string>,
    gpuCount: Option<int>, gpuVendor: Option<string>,
    gpuType: Option<string>, gpuNodeSelector: Option<Selector>)

  function Override<T>(user: Option<T>, inherited: Option<T>): Option<T> {
    if user.Some? then user else inherited
  }

  /** `mergeResources`: the two GPU targeting fields never come from the class. */
  function MergeResources(class_: Spec, user: Option<Spec>): Spec {
    var base := class_.(gpuType := None, gpuNodeSelector := None);
    if user.None? then base
    else
      var u := user.value;
      Spec(
        Override(u.replicas, base.replicas), Override(u.cpu, base.cpu), Override(u.memory, base.memory),
        Override(u.storage, base.storage), Override(u.gpuCount, base.gpuCount), Override(u.gpuVendor, base.gpuVendor),
        Override(u.gpuType, base.gpuType), Override(u.gpuNodeSelector, base.gpuNodeSelector))
  }

  const DEFAULTS := Options("", "", None)

  /** `BuildSelector`: the model label, overlaid by the raw entries. */
  function BuildSelector(model: string, raw: Option<Selector>, opts: Options): Selector {
    var base: Selector := if model != "" then map[opts.ModelLabel() := model] else map[];
    if raw.Some? then base + raw.value else base
  }

  function GpuSelectorOf(r: Spec): Selector {
    BuildSelector(if r.gpuType.Some? then r.gpuType.value else "", r.gpuNodeSelector, DEFAULTS)
  }

  function GpuDemand(r: Spec): int {
    (if r.replicas.Some? then r.replicas.value else 1) * (if r.gpuCount.Some? then r.gpuCount.value else 0)
  }

  /** A class cannot pin a GPU: the selector is the user's alone, and without an
      override there is none. */
  lemma ClassCannotPinGpu(class_: Spec, user: Option<Spec>)
    ensures GpuSelectorOf(MergeResources(class_, user)) == (if user.Some? then GpuSelectorOf(user.value) else map[])
  {
  }

  /** The merged request, field by field: the user's where set, the class's
      otherwise; the two GPU targeting fields are the user's or nobody's. */
  lemma MergedFields(class_: Spec, user: Option<Spec>)
    ensures var m := MergeResources(class_, user);
            if user.None? then
              && m.replicas == class_.replicas && m.cpu == class_.cpu && m.memory == class_.memory
              && m.storage == class_.storage && m.gpuCount == class_.gpuCount && m.gpuVendor == class_.gpuVendor
              && m.gpuType.None? && m.gpuNodeSelector.None?
            else
              var u := user.value;
              && m.replicas == (if u.replicas.None? then class_.replicas else u.replicas)
              && m.cpu == (if u.cpu.None? then class_.cpu else u.cpu)
              && m.memory == (if u.memory.None? then class_.memory else u.memory)
              && m.storage == (if u.storage.None? then class_.storage else u.storage)
              && m.gpuCount == (if u.gpuCount.None? then class_.gpuCount else u.gpuCount)
              && m.gpuVendor == (if u.gpuVendor.None? then class_.gpuVendor else u.gpuVendor)
              && m.gpuType == u.gpuType && m.gpuNodeSelector == u.gpuNodeSelector
  {
  }

  /** `n` replicas of `g` GPUs each: the user's numbers where set, else the class's,
      else one replica and no GPU. */
  ghost predicate Asks(class_: Spec, user: Option<Spec>, n: int, g: int) {
    && (if user.Some? && user.value.replicas.Some? then n == user.value.replicas.value
        else if class_.replicas.Some? then n == class_.replicas.value
        else n == 1)
    && (if user.Some? && user.value.gpuCount.Some? then g == user.value.gpuCount.value
        else if class_.gpuCount.Some? then g == class_.gpuCount.value
        else g == 0)
  }

  /** What is asked for, as two numbers. */
  function Request(class_: Spec, user: Option<Spec>): (r: (int, int))
    ensures Asks(class_, user, r.0, r.1)
  {
    var u := if user.Some? then user.value else class_;
    (if u.replicas.Some? then u.replicas.value else if class_.replicas.Some? then class_.replicas.value else 1,
     if u.gpuCount.Some? then u.gpuCount.value else if class_.gpuCount.Some? then class_.gpuCount.value else 0)
  }

  /** The demand is every replica's GPUs. */
  lemma DemandCoversReplicas(class_: Spec, user: Option<Spec>, n: int, g: int)
    requires Asks(class_, user, n, g)
    ensures GpuDemand(MergeResources(class_, user)) == n * g
  {
  }

  /** The selector, label by label: the raw entries, and the model under its
      canonical label unless a raw entry takes that label. */
  lemma SelectorMeans(r: Spec, k: string)
    ensures var sel := GpuSelectorOf(r);
            if r.gpuNodeSelector.Some? && k in r.gpuNodeSelector.value then
              k in sel && sel[k] == r.gpuNodeSelector.value[k]
            else if k == "exalsius.ai/gpu-model" && r.gpuType.Some? && r.gpuType.value != "" then
              k in sel && sel[k] == r.gpuType.value
            else k !in sel
  {
  }
}
