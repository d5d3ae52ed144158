/** The GPU inventory: nodes grouped into offerings, and its agreement with the
    live availability query. */
module Offerings {
  import opened Text
  import opened SelectorKey
  import opened Nodes
  import opened Availability

  const DEFAULT_MODEL_LABEL := "exalsius.ai/gpu-model"
  const DEFAULT_VENDOR_LABEL := "exalsius.ai/gpu-vendor"
  const DEFAULT_PRODUCT_LABELS: map<string, seq<string>> :=
    map["NVIDIA" := ["nvidia.com/gpu.product"],
        "AMD" := ["amd.com/gpu.product-name", "amd.com/gpu.device-id"]]
  const GPU_LABEL_PREFIXES: seq<string> := ["nvidia.com/", "amd.com/", "gpu.hami.io/", "exalsius.ai/gpu"]

  /** Zero values select the defaults, as in the source. */
  datatype Options = Options(
    modelName: string, vendorName: string, products: Option<map<string, seq<string>>>)
  {
    function ModelLabel(): string {
      if modelName != "" then modelName else DEFAULT_MODEL_LABEL
    }
    function VendorLabel(): string {
      if vendorName != "" then vendorName else DEFAULT_VENDOR_LABEL
    }
    function ProductLabels(vendor: string): seq<string> {
      var table := if products.Some? then products.value else DEFAULT_PRODUCT_LABELS;
      if vendor in table then table[vendor] else []
    }
    /** Label names are label names: none contains `=`. */
    ghost predicate LabelNames() {
      '=' !in ModelLabel() && forall v, k :: k in ProductLabels(v) ==> '=' !in k
    }
  }

  /** Identity of an offering; `selector` is the serialized selector. `profile` is
      always empty in the source, so it is not part of the key. */
  datatype OfferingKey = OfferingKey(vendor: string, resourceName: string, selector: string)

  /** Vendor and resource name sit in `key`; `total` GPUs on `count` nodes. */
  datatype Offering = Offering(
    key: OfferingKey, model: string, total: int, count: nat,
    selector: Option<Selector>, labels: Option<map<string, string>>)

  function FirstProduct(n: Node, keys: seq<string>): (string, Option<Selector>) {
    if keys == [] then ("", None)
    else if Label(n, keys[0]) != "" then (Label(n, keys[0]), Some(map[keys[0] := Label(n, keys[0])]))
    else FirstProduct(n, keys[1..])
  }

  /** Canonical label first, then the first product label present, else nothing. */
  function ResolveModelSelector(n: Node, modelLabel: string, productKeys: seq<string>): (string, Option<Selector>) {
    if Label(n, modelLabel) != "" then (Label(n, modelLabel), Some(map[modelLabel := Label(n, modelLabel)]))
    else FirstProduct(n, productKeys)
  }

  function GpuLabels(n: Node): Option<map<string, string>> {
    var kept := map k | k in n.labels && exists p :: p in GPU_LABEL_PREFIXES && p <= k :: n.labels[k];
    if kept == map[] then None else Some(kept)
  }

  function SelectorOf(s: Option<Selector>): Selector {
    if s.Some? then s.value else map[]
  }

  // ---- specification: contributions and their grouping ----------------------

  function VendorOf(n: Node, vr: VendorResource, opts: Options): string {
    if Label(n, opts.VendorLabel()) != "" then Label(n, opts.VendorLabel()) else vr.vendor
  }

  /** What one vendor resource of one node adds to the inventory: an offering of
      just that node. */
  ghost function Piece(n: Node, vr: VendorResource, opts: Options): Offering {
    var vendor := VendorOf(n, vr, opts);
    var (model, selector) := ResolveModelSelector(n, opts.ModelLabel(), opts.ProductLabels(vendor));
    Offering(OfferingKey(vendor, vr.resourceName, Key(SelectorOf(selector))),
      model, Allocatable(n, vr.resourceName), 1, selector, GpuLabels(n))
  }

  ghost function PieceOf(n: Node, vr: VendorResource, opts: Options): seq<Offering> {
    if Allocatable(n, vr.resourceName) > 0 then [Piece(n, vr, opts)] else []
  }

  ghost function PiecesUpTo(n: Node, j: nat, opts: Options): seq<Offering>
    requires j <= |VENDOR_RESOURCES|
  {
    if j == 0 then []
    else
      PiecesUpTo(n, j - 1, opts) + PieceOf(n, VENDOR_RESOURCES[j - 1], opts)
  }

  ghost function NodePieces(n: Node, opts: Options): seq<Offering> {
    if Schedulable(n) then PiecesUpTo(n, 2, opts) else []
  }

  ghost function Pieces(nodes: seq<Node>, opts: Options): seq<Offering> {
    if nodes == [] then []
    else Pieces(nodes[..|nodes| - 1], opts) + NodePieces(nodes[|nodes| - 1], opts)
  }

  ghost function IsKey(k: OfferingKey): OfferingKey -> bool {
    x => x == k
  }

  /** Sum of the totals of the pieces whose key satisfies `p`. */
  ghost function SumWhere(ps: seq<Offering>, p: OfferingKey -> bool): int {
    if ps == [] then 0
    else
      var u := ps[|ps| - 1];
      SumWhere(ps[..|ps| - 1], p) + if p(u.key) then u.total else 0
  }

  ghost function CountOf(ps: seq<Offering>, k: OfferingKey): nat {
    if ps == [] then 0
    else
      var u := ps[|ps| - 1];
      CountOf(ps[..|ps| - 1], k) + if u.key == k then u.count else 0
  }

  ghost predicate Occurs(ps: seq<Offering>, k: OfferingKey) {
    exists i :: 0 <= i < |ps| && ps[i].key == k
  }

  /** Same key, model, selector and raw labels. */
  ghost predicate Alike(a: Offering, b: Offering) {
    a.key == b.key && a.model == b.model && a.selector == b.selector && a.labels == b.labels
  }

  /** Some piece shares the offering's key, model, selector and raw labels. */
  ghost predicate Represented(o: Offering, ps: seq<Offering>) {
    exists i :: 0 <= i < |ps| && Alike(ps[i], o)
  }

  /** An exact group-by of the pieces: one entry per occurring key, holding the
      per-key sums and the identity of a piece with that key. */
  ghost predicate GroupsExactly(m: map<OfferingKey, Offering>, ps: seq<Offering>) {
    && (forall k :: k in m <==> Occurs(ps, k))
    && (forall k :: k in m ==>
      && m[k].key == k
      && m[k].total == SumWhere(ps, IsKey(k))
      && m[k].count == CountOf(ps, k)
      && Represented(m[k], ps))
  }

  ghost predicate Lists(out: seq<Offering>, m: map<OfferingKey, Offering>) {
    && (forall i, j :: 0 <= i < j < |out| ==> out[i].key != out[j].key)
    && (forall i :: 0 <= i < |out| ==> out[i].key in m && m[out[i].key] == out[i])
    && (forall k :: k in m ==> exists i :: 0 <= i < |out| && out[i].key == k)
  }

  /** Model first, resource name second; ties are unordered. */
  predicate NotAfter(a: Offering, b: Offering) {
    if a.model != b.model then Before(a.model, b.model) else !Before(b.key.resourceName, a.key.resourceName)
  }

  ghost predicate Ordered(out: seq<Offering>) {
    forall i, j :: 0 <= i < j < |out| ==> NotAfter(out[i], out[j])
  }

  lemma NotAfterTransitive(a: Offering, b: Offering, c: Offering)
    requires NotAfter(a, b) && NotAfter(b, c)
    ensures NotAfter(a, c)
  {
    if a.model != b.model && b.model != c.model {
      BeforeTransitive(a.model, b.model, c.model);
      BeforeIrreflexive(a.model);
    } else if a.model == b.model == c.model && Before(c.key.resourceName, a.key.resourceName) {
      BeforeTotal(b.key.resourceName, c.key.resourceName);
      if Before(b.key.resourceName, c.key.resourceName) {
        BeforeTransitive(b.key.resourceName, c.key.resourceName, a.key.resourceName);
      }
    }
  }

  lemma NotAfterTotal(a: Offering, b: Offering)
    ensures NotAfter(a, b) || NotAfter(b, a)
  {
    BeforeTotal(a.model, b.model);
    if Before(a.key.resourceName, b.key.resourceName) && Before(b.key.resourceName, a.key.resourceName) {
      BeforeTransitive(a.key.resourceName, b.key.resourceName, a.key.resourceName);
      BeforeIrreflexive(a.key.resourceName);
    }
  }

  // ---- the aggregation loop -------------------------------------------------

  function Joined(m: map<OfferingKey, Offering>, u: Offering): map<OfferingKey, Offering> {
    var k := u.key;
    m[k := if k in m then m[k].(total := m[k].total + u.total, count := m[k].count + u.count) else u]
  }

  lemma ExtendGroup(m: map<OfferingKey, Offering>, ps: seq<Offering>, u: Offering)
    requires GroupsExactly(m, ps)
    ensures GroupsExactly(Joined(m, u), ps + [u])
  {
    var k, qs := u.key, ps + [u];
    var m' := Joined(m, u);
    forall x ensures x in m' <==> Occurs(qs, x) {
      ExtendOccurs(ps, u, x);
    }
    forall x | x in m'
      ensures m'[x].key == x && m'[x].total == SumWhere(qs, IsKey(x)) && m'[x].count == CountOf(qs, x)
          && Represented(m'[x], qs)
    {
      ExtendSums(ps, u, x);
      if x !in m {
        AbsentSums(ps, x);
        assert qs[|ps|] == m'[x];
      } else {
        var i :| 0 <= i < |ps| && Alike(ps[i], m[x]);
        assert qs[i] == ps[i];
      }
    }
  }

  lemma ExtendOccurs(ps: seq<Offering>, u: Offering, k: OfferingKey)
    ensures Occurs(ps + [u], k) <==> Occurs(ps, k) || u.key == k
  {
    var qs := ps + [u];
    assert qs[|ps|] == u;
    if Occurs(ps, k) {
      var i :| 0 <= i < |ps| && ps[i].key == k;
      assert qs[i].key == k;
    }
    if Occurs(qs, k) && u.key != k {
      var i :| 0 <= i < |qs| && qs[i].key == k;
      assert ps[i].key == k;
    }
  }

  lemma ExtendSums(ps: seq<Offering>, u: Offering, k: OfferingKey)
    ensures SumWhere(ps + [u], IsKey(k)) == SumWhere(ps, IsKey(k)) + if u.key == k then u.total else 0
    ensures CountOf(ps + [u], k) == CountOf(ps, k) + if u.key == k then u.count else 0
  {
  }

  lemma {:induction false} AbsentSums(ps: seq<Offering>, k: OfferingKey)
    requires !Occurs(ps, k)
    ensures SumWhere(ps, IsKey(k)) == 0 && CountOf(ps, k) == 0
  {
    if ps != [] {
      assert ps[|ps| - 1].key != k;
      assert forall i :: 0 <= i < |ps| - 1 ==> ps[..|ps| - 1][i] == ps[i];
      AbsentSums(ps[..|ps| - 1], k);
    }
  }

  /** The body of the inner loop, for a resource the node advertises. */
  method AddPiece(byKey: map<OfferingKey, Offering>, n: Node, vr: VendorResource, opts: Options)
      returns (grouped: map<OfferingKey, Offering>)
    ensures grouped == Joined(byKey, Piece(n, vr, opts))
  {
    var count := Allocatable(n, vr.resourceName);
    var vendor := vr.vendor;
    if Label(n, opts.VendorLabel()) != "" {
      vendor := Label(n, opts.VendorLabel());
    }
    var (model, selector) := ResolveModelSelector(n, opts.ModelLabel(), opts.ProductLabels(vendor));
    var identity := Serialize(SelectorOf(selector));
    var key := OfferingKey(vendor, vr.resourceName, identity);
    if key !in byKey {
      grouped := byKey[key := Offering(key, model, count, 1, selector, GpuLabels(n))];
    } else {
      var o := byKey[key];
      grouped := byKey[key := o.(total := o.total + count, count := o.count + 1)];
    }
  }

  method Aggregate(nodes: seq<Node>, opts: Options) returns (byKey: map<OfferingKey, Offering>)
    ensures GroupsExactly(byKey, Pieces(nodes, opts))
  {
    byKey := map[];
    for i := 0 to |nodes|
      invariant GroupsExactly(byKey, Pieces(nodes[..i], opts))
    {
      assert nodes[..i + 1][..i] == nodes[..i];
      var n := nodes[i];
      ghost var done := Pieces(nodes[..i], opts);
      if !Schedulable(n) {
        assert done + [] == done;
        continue;
      }
      assert done + [] == done;
      for j := 0 to |VENDOR_RESOURCES|
        invariant GroupsExactly(byKey, done + PiecesUpTo(n, j, opts))
      {
        var vr := VENDOR_RESOURCES[j];
        ghost var sofar := done + PiecesUpTo(n, j, opts);
        if Allocatable(n, vr.resourceName) <= 0 {
          assert sofar == done + (PiecesUpTo(n, j, opts) + []);
          continue;
        }
        ExtendGroup(byKey, sofar, Piece(n, vr, opts));
        byKey := AddPiece(byKey, n, vr, opts);
        assert sofar + [Piece(n, vr, opts)] == done + (PiecesUpTo(n, j, opts) + [Piece(n, vr, opts)]);
      }
    }
    assert nodes[..|nodes|] == nodes;
  }

  /** Go's iteration over the group map. */
  method CollectOfferings(byKey: map<OfferingKey, Offering>) returns (out: seq<Offering>)
    requires forall k :: k in byKey ==> byKey[k].key == k
    ensures Lists(out, byKey)
  {
    out := [];
    var rest := byKey.Keys;
    while rest != {}
      invariant rest <= byKey.Keys
      invariant forall i, j :: 0 <= i < j < |out| ==> out[i].key != out[j].key
      invariant forall i :: 0 <= i < |out| ==>
        out[i].key in byKey && out[i].key !in rest && byKey[out[i].key] == out[i]
      invariant forall k :: k in byKey && k !in rest ==> exists i :: 0 <= i < |out| && out[i].key == k
      decreases |rest|
    {
      var k :| k in rest;
      ghost var before := out;
      out := out + [byKey[k]];
      rest := rest - {k};
      assert out[|before|].key == k;
      forall x | x in byKey && x !in rest ensures exists i :: 0 <= i < |out| && out[i].key == x {
        if x != k {
          var i :| 0 <= i < |before| && before[i].key == x;
          assert out[i] == before[i];
        }
      }
    }
  }

  function Place(o: Offering, out: seq<Offering>): (p: nat)
    ensures p <= |out|
    ensures forall i :: 0 <= i < p ==> NotAfter(out[i], o)
    ensures p < |out| ==> !NotAfter(out[p], o)
  {
    if out == [] || !NotAfter(out[0], o) then 0
    else 1 + Place(o, out[1..])
  }

  function InsertOffering(o: Offering, out: seq<Offering>): seq<Offering> {
    var p := Place(o, out);
    out[..p] + [o] + out[p..]
  }

  lemma InsertOrdered(o: Offering, out: seq<Offering>)
    requires Ordered(out)
    ensures Ordered(InsertOffering(o, out))
  {
    var p := Place(o, out);
    forall i | p <= i < |out| ensures NotAfter(o, out[i]) {
      NotAfterTotal(out[p], o);
      if p < i {
        NotAfterTransitive(o, out[p], out[i]);
      }
    }
  }

  lemma InsertKeeps(o: Offering, out: seq<Offering>)
    ensures multiset(InsertOffering(o, out)) == multiset(out) + multiset{o}
  {
    var p := Place(o, out);
    assert out == out[..p] + out[p..];
  }

  lemma RemoveOne<T>(s: seq<T>, j: nat)
    requires j < |s|
    ensures multiset(s[..j] + s[j + 1..]) == multiset(s) - multiset{s[j]}
  {
    assert s == s[..j] + [s[j]] + s[j + 1..];
  }

  lemma PrefixMultiset<T>(s: seq<T>, i: nat)
    requires i < |s|
    ensures multiset(s[..i + 1]) == multiset(s[..i]) + multiset{s[i]}
  {
    assert s[..i + 1] == s[..i] + [s[i]];
  }

  /** `sort.Slice` by (Model, ResourceName). */
  method SortOfferings(raw: seq<Offering>) returns (out: seq<Offering>)
    ensures Ordered(out) && multiset(out) == multiset(raw)
  {
    out := [];
    for i := 0 to |raw|
      invariant Ordered(out)
      invariant multiset(out) == multiset(raw[..i])
    {
      InsertOrdered(raw[i], out);
      InsertKeeps(raw[i], out);
      PrefixMultiset(raw, i);
      out := InsertOffering(raw[i], out);
    }
    assert raw[..|raw|] == raw;
  }

  lemma ListsPermuted(raw: seq<Offering>, out: seq<Offering>, m: map<OfferingKey, Offering>)
    requires Lists(raw, m) && multiset(raw) == multiset(out)
    ensures Lists(out, m)
  {
    forall i | 0 <= i < |out| ensures out[i].key in m && m[out[i].key] == out[i] {
      assert out[i] in multiset(out);
      assert out[i] in raw;
    }
    forall k | k in m ensures exists i :: 0 <= i < |out| && out[i].key == k {
      var j :| 0 <= j < |raw| && raw[j].key == k;
      assert raw[j] in multiset(raw);
      assert raw[j] in out;
    }
    forall i, j | 0 <= i < j < |out| ensures out[i].key != out[j].key {
      if out[i] == out[j] {
        Twice(out, i, j);
        Once(raw, out[i]);
      }
    }
  }

  lemma Twice(s: seq<Offering>, i: nat, j: nat)
    requires i < j < |s| && s[i] == s[j]
    ensures multiset(s)[s[i]] >= 2
  {
    assert s == s[..i] + [s[i]] + s[i + 1..j] + [s[j]] + s[j + 1..];
  }

  lemma {:induction false} Once(s: seq<Offering>, o: Offering)
    requires forall i, j :: 0 <= i < j < |s| ==> s[i].key != s[j].key
    ensures multiset(s)[o] <= 1
  {
    if s != [] {
      Once(s[1..], o);
      assert s == [s[0]] + s[1..];
      assert s[0] == o ==> o !in s[1..] by {
        assert forall i :: 0 <= i < |s[1..]| ==> s[1..][i] == s[i + 1];
      }
    }
  }

  /** `DeriveOfferings`: a sorted list of the exact group-by of the nodes. */
  method DeriveOfferings(nodes: seq<Node>, opts: Options) returns (out: seq<Offering>)
    ensures IsInventory(out, nodes, opts)
  {
    var byKey := Aggregate(nodes, opts);
    var raw := CollectOfferings(byKey);
    out := SortOfferings(raw);
    ListsPermuted(raw, out, byKey);
  }

  /** The contract of the inventory: ordered, one offering per occurring key,
      with the per-key sums. */
  ghost predicate IsInventory(out: seq<Offering>, nodes: seq<Node>, opts: Options) {
    Ordered(out) && exists m :: Lists(out, m) && GroupsExactly(m, Pieces(nodes, opts))
  }

  // ---- conservation and agreement -------------------------------------------

  /** `u` counted once for every offering with its key. */
  ghost function Hits(out: seq<Offering>, u: Offering): int {
    if out == [] then 0
    else Hits(out[..|out| - 1], u) + if out[|out| - 1].key == u.key then u.total else 0
  }

  lemma {:induction false} HitsOnce(out: seq<Offering>, u: Offering)
    requires forall i, j :: 0 <= i < j < |out| ==> out[i].key != out[j].key
    ensures Hits(out, u) == if Occurs(out, u.key) then u.total else 0
  {
    if out != [] {
      var e := |out| - 1;
      HitsOnce(out[..e], u);
      if Occurs(out, u.key) && out[e].key != u.key {
        var i :| 0 <= i < |out| && out[i].key == u.key;
        assert out[..e][i].key == u.key;
      }
      if Occurs(out[..e], u.key) {
        var i :| 0 <= i < e && out[..e][i].key == u.key;
        assert out[i].key == u.key && out[i].key != out[e].key;
      }
    }
  }

  /** Sum over `out` (filtered by p) of the per-key sums of `ps`. */
  ghost function Regrouped(out: seq<Offering>, ps: seq<Offering>, p: OfferingKey -> bool): int {
    if out == [] then 0
    else
      var k := out[|out| - 1].key;
      Regrouped(out[..|out| - 1], ps, p) + if p(k) then SumWhere(ps, IsKey(k)) else 0
  }

  lemma {:induction false} RegroupedExtend(out: seq<Offering>, ps: seq<Offering>, u: Offering, p: OfferingKey -> bool)
    ensures Regrouped(out, ps + [u], p) == Regrouped(out, ps, p) + (if p(u.key) then Hits(out, u) else 0)
  {
    if out != [] {
      var e := |out| - 1;
      RegroupedExtend(out[..e], ps, u, p);
      ExtendSums(ps, u, out[e].key);
    }
  }

  lemma {:induction false} RegroupedEmpty(out: seq<Offering>, p: OfferingKey -> bool)
    ensures Regrouped(out, [], p) == 0
  {
    if out != [] {
      RegroupedEmpty(out[..|out| - 1], p);
    }
  }

  lemma {:induction false} RegroupedIsSum(out: seq<Offering>, ps: seq<Offering>, p: OfferingKey -> bool)
    requires forall i, j :: 0 <= i < j < |out| ==> out[i].key != out[j].key
    requires forall i :: 0 <= i < |ps| ==> Occurs(out, ps[i].key)
    ensures Regrouped(out, ps, p) == SumWhere(ps, p)
  {
    if ps == [] {
      RegroupedEmpty(out, p);
    } else {
      var e := |ps| - 1;
      var u := ps[e];
      assert forall i :: 0 <= i < e ==> ps[..e][i] == ps[i];
      RegroupedIsSum(out, ps[..e], p);
      assert ps == ps[..e] + [u];
      RegroupedExtend(out, ps[..e], u, p);
      HitsOnce(out, u);
    }
  }

  lemma {:induction false} InventorySum(out: seq<Offering>, m: map<OfferingKey, Offering>, ps: seq<Offering>,
                                        p: OfferingKey -> bool)
    requires GroupsExactly(m, ps)
    requires forall i :: 0 <= i < |out| ==> out[i].key in m && m[out[i].key] == out[i]
    ensures SumWhere(out, p) == Regrouped(out, ps, p)
  {
    if out != [] {
      var e := |out| - 1;
      assert forall i :: 0 <= i < e ==> out[..e][i] == out[i];
      InventorySum(out[..e], m, ps, p);
    }
  }

  /** Filtered totals of the inventory equal filtered totals of the nodes. */
  lemma InventoryTotals(out: seq<Offering>, nodes: seq<Node>, opts: Options, p: OfferingKey -> bool)
    requires IsInventory(out, nodes, opts)
    ensures SumWhere(out, p) == SumWhere(Pieces(nodes, opts), p)
  {
    var ps := Pieces(nodes, opts);
    var m :| Lists(out, m) && GroupsExactly(m, ps);
    forall i | 0 <= i < |ps| ensures Occurs(out, ps[i].key) {
      assert Occurs(ps, ps[i].key);
      var j :| 0 <= j < |out| && out[j].key == ps[i].key;
    }
    RegroupedIsSum(out, ps, p);
    InventorySum(out, m, ps, p);
  }

  /** Every GPU of a usable node, read off the node. */
  ghost function GrandTotal(nodes: seq<Node>): int {
    if nodes == [] then 0
    else
      var n := nodes[|nodes| - 1];
      GrandTotal(nodes[..|nodes| - 1]) + if Usable(n) then Capacity(n) else 0
  }

  lemma SumConcat(a: seq<Offering>, b: seq<Offering>, p: OfferingKey -> bool)
    ensures SumWhere(a + b, p) == SumWhere(a, p) + SumWhere(b, p)
  {
    if b == [] {
      assert a + b == a;
    } else {
      var e := |b| - 1;
      SumConcat(a, b[..e], p);
      assert (a + b)[..|a + b| - 1] == a + b[..e];
    }
  }

  /** What one vendor resource of a node adds to a filtered sum. */
  ghost function Adds(n: Node, vr: VendorResource, opts: Options, p: OfferingKey -> bool): int {
    if Allocatable(n, vr.resourceName) > 0 && p(Piece(n, vr, opts).key) then Allocatable(n, vr.resourceName) else 0
  }

  lemma SumPieceOf(n: Node, vr: VendorResource, opts: Options, p: OfferingKey -> bool)
    ensures SumWhere(PieceOf(n, vr, opts), p) == Adds(n, vr, opts, p)
  {
  }

  lemma NodeSum(n: Node, opts: Options, p: OfferingKey -> bool)
    ensures SumWhere(PiecesUpTo(n, 2, opts), p)
         == Adds(n, VENDOR_RESOURCES[0], opts, p) + Adds(n, VENDOR_RESOURCES[1], opts, p)
  {
    var one := PiecesUpTo(n, 1, opts);
    assert PiecesUpTo(n, 0, opts) == [];
    assert one == PiecesUpTo(n, 0, opts) + PieceOf(n, VENDOR_RESOURCES[0], opts);
    assert PiecesUpTo(n, 2, opts) == one + PieceOf(n, VENDOR_RESOURCES[1], opts);
    SumConcat([], PieceOf(n, VENDOR_RESOURCES[0], opts), p);
    SumConcat(one, PieceOf(n, VENDOR_RESOURCES[1], opts), p);
    SumPieceOf(n, VENDOR_RESOURCES[0], opts, p);
    SumPieceOf(n, VENDOR_RESOURCES[1], opts, p);
  }

  lemma {:induction false} PiecesTotal(nodes: seq<Node>, opts: Options)
    ensures SumWhere(Pieces(nodes, opts), k => true) == GrandTotal(nodes)
  {
    if nodes != [] {
      var e := |nodes| - 1;
      PiecesTotal(nodes[..e], opts);
      SumConcat(Pieces(nodes[..e], opts), NodePieces(nodes[e], opts), k => true);
      NodeSum(nodes[e], opts, k => true);
      RawNode(nodes[e], map[]);
    }
  }

  /** Conservation: every schedulable GPU is in exactly one offering. */
  lemma GrandTotalConserved(out: seq<Offering>, nodes: seq<Node>, opts: Options)
    requires IsInventory(out, nodes, opts)
    ensures SumWhere(out, k => true) == GrandTotal(nodes)
  {
    InventoryTotals(out, nodes, opts, k => true);
    PiecesTotal(nodes, opts);
  }

  // ---- what an offering says about its node ----------------------------------

  /** `i` is the first of these labels that the node carries with a value. */
  ghost predicate FirstCarried(n: Node, labels: seq<string>, i: nat) {
    && i < |labels| && labels[i] in n.labels && n.labels[labels[i]] != ""
    && forall j :: 0 <= j < i && labels[j] in n.labels ==> n.labels[labels[j]] == ""
  }

  lemma {:induction false} FirstProductMeans(n: Node, labels: seq<string>, i: nat)
    ensures FirstCarried(n, labels, i) ==>
              FirstProduct(n, labels) == (n.labels[labels[i]], Some(map[labels[i] := n.labels[labels[i]]]))
    ensures (forall j :: 0 <= j < |labels| && labels[j] in n.labels ==> n.labels[labels[j]] == "") ==>
              FirstProduct(n, labels) == ("", None)
  {
    if labels != [] {
      FirstProductMeans(n, labels[1..], if i == 0 then 0 else i - 1);
      if FirstCarried(n, labels, i) && i > 0 {
        assert forall j :: 0 <= j < |labels| - 1 ==> labels[1..][j] == labels[j + 1];
        assert FirstCarried(n, labels[1..], i - 1);
      }
    }
  }

  /** One node's contribution, read off the node: the vendor label wins over the
      resource's vendor; the canonical model label wins over the product labels, of
      which the first carried counts; without any there is no model and no selector. */
  lemma PieceMeans(n: Node, vr: VendorResource, opts: Options, i: nat)
    ensures var u := Piece(n, vr, opts);
            var vendorLabel := if opts.vendorName == "" then "exalsius.ai/gpu-vendor" else opts.vendorName;
            var modelLabel := if opts.modelName == "" then "exalsius.ai/gpu-model" else opts.modelName;
            var products := opts.ProductLabels(u.key.vendor);
            && u.count == 1 && u.key.resourceName == vr.resourceName
            && (vr.resourceName in n.allocatable ==> u.total == n.allocatable[vr.resourceName])
            && u.key.vendor == (if vendorLabel in n.labels && n.labels[vendorLabel] != "" then n.labels[vendorLabel]
                                else vr.vendor)
            && (if modelLabel in n.labels && n.labels[modelLabel] != "" then
                  u.model == n.labels[modelLabel] && u.selector == Some(map[modelLabel := u.model])
                else
                  && (FirstCarried(n, products, i) ==>
                        u.model == n.labels[products[i]] && u.selector == Some(map[products[i] := u.model]))
                  && ((forall j :: 0 <= j < |products| && products[j] in n.labels ==> n.labels[products[j]] == "") ==>
                        u.model == "" && u.selector.None?))
  {
    FirstProductMeans(n, opts.ProductLabels(Piece(n, vr, opts).key.vendor), i);
  }

  lemma DefaultProducts(modelName: string, vendorName: string)
    ensures var opts := Options(modelName, vendorName, None);
            && opts.ProductLabels("NVIDIA") == ["nvidia.com/gpu.product"]
            && opts.ProductLabels("AMD") == ["amd.com/gpu.product-name", "amd.com/gpu.device-id"]
  {
    assert "NVIDIA"[0] != "AMD"[0];
  }

  /** The raw labels kept on an offering are those with a GPU prefix. */
  lemma GpuLabelsMean(n: Node, k: string)
    ensures var kept := GpuLabels(n);
            var wanted := k in n.labels &&
              ("nvidia.com/" <= k || "amd.com/" <= k || "gpu.hami.io/" <= k || "exalsius.ai/gpu" <= k);
            if wanted then kept.Some? && k in kept.value && kept.value[k] == n.labels[k]
            else kept.Some? ==> k !in kept.value
  {
    assert GPU_LABEL_PREFIXES[0] in GPU_LABEL_PREFIXES && GPU_LABEL_PREFIXES[1] in GPU_LABEL_PREFIXES;
    assert GPU_LABEL_PREFIXES[2] in GPU_LABEL_PREFIXES && GPU_LABEL_PREFIXES[3] in GPU_LABEL_PREFIXES;
    var kept := map x | x in n.labels && exists p :: p in GPU_LABEL_PREFIXES && p <= x :: n.labels[x];
    assert kept == map[] ==> k !in kept;
  }

  /** The inventory is ordered by model, then by resource name. */
  lemma OrderedMeans(out: seq<Offering>, i: nat, j: nat)
    requires Ordered(out) && i < j < |out|
    ensures out[i].model == out[j].model || Before(out[i].model, out[j].model)
    ensures out[i].model == out[j].model ==> !Before(out[j].key.resourceName, out[i].key.resourceName)
  {
  }

  // ---- the key determines selector and model --------------------------------

  /** What resolution can return: nothing, or one entry of a known label name
      whose value is the model. */
  lemma ResolvedShape(n: Node, vr: VendorResource, opts: Options)
    requires opts.LabelNames()
    ensures var u := Piece(n, vr, opts);
            if u.selector.None? then u.model == ""
            else
              && u.model != ""
              && exists k :: '=' !in k && u.selector.value == map[k := u.model] && Label(n, k) == u.model
  {
    var u := Piece(n, vr, opts);
    var products := opts.ProductLabels(u.key.vendor);
    if Label(n, opts.ModelLabel()) == "" {
      ProductShape(n, products);
      forall k | k in products ensures '=' !in k {}
    }
  }

  lemma {:induction false} ProductShape(n: Node, keys: seq<string>)
    ensures var (model, sel) := FirstProduct(n, keys);
            if sel.None? then model == ""
            else model != "" && exists k :: k in keys && sel.value == map[k := model] && Label(n, k) == model
  {
    if keys != [] && Label(n, keys[0]) == "" {
      ProductShape(n, keys[1..]);
      var (model, sel) := FirstProduct(n, keys[1..]);
      if sel.Some? {
        var k :| k in keys[1..] && sel.value == map[k := model] && Label(n, k) == model;
        assert k in keys;
      }
    }
  }

  /** Two pieces with one key carry one selector and one model. */
  lemma KeyDetermines(n: Node, vr: VendorResource, n': Node, vr': VendorResource, opts: Options)
    requires opts.LabelNames()
    requires Key(SelectorOf(Piece(n, vr, opts).selector)) == Key(SelectorOf(Piece(n', vr', opts).selector))
    ensures Piece(n, vr, opts).selector == Piece(n', vr', opts).selector
    ensures Piece(n, vr, opts).model == Piece(n', vr', opts).model
  {
    var u, u' := Piece(n, vr, opts), Piece(n', vr', opts);
    ResolvedShape(n, vr, opts);
    ResolvedShape(n', vr', opts);
    if u.selector.Some? {
      var k :| '=' !in k && u.selector.value == map[k := u.model];
      if u'.selector.Some? {
        var k' :| '=' !in k' && u'.selector.value == map[k' := u'.model];
        SingleKeyInjective(k, u.model, k', u'.model);
      } else {
        SingleKeyInjective(k, u.model, k, u.model);
      }
    } else if u'.selector.Some? {
      var k' :| '=' !in k' && u'.selector.value == map[k' := u'.model];
      SingleKeyInjective(k', u'.model, k', u'.model);
    }
  }

  /** Each piece comes from some node and vendor resource. */
  lemma {:induction false} PieceOrigin(nodes: seq<Node>, opts: Options, i: nat)
    requires i < |Pieces(nodes, opts)|
    ensures exists n, vr :: n in nodes && Schedulable(n) && vr in VENDOR_RESOURCES
              && Allocatable(n, vr.resourceName) > 0 && Pieces(nodes, opts)[i] == Piece(n, vr, opts)
  {
    var e := |nodes| - 1;
    var before, n := Pieces(nodes[..e], opts), nodes[e];
    if i < |before| {
      PieceOrigin(nodes[..e], opts, i);
      var x, vr :| x in nodes[..e] && Schedulable(x) && vr in VENDOR_RESOURCES
        && Allocatable(x, vr.resourceName) > 0 && before[i] == Piece(x, vr, opts);
      assert x in nodes;
    } else {
      assert n in nodes;
      assert PiecesUpTo(n, 1, opts) == PieceOf(n, VENDOR_RESOURCES[0], opts);
      assert Pieces(nodes, opts)[i] == NodePieces(n, opts)[i - |before|];
    }
  }

  /** Every offering describes some node: its key, model, selector and raw labels
      are those of the node, and its sums are the per-key sums. */
  lemma Origin(out: seq<Offering>, nodes: seq<Node>, opts: Options, i: nat) returns (n: Node, vr: VendorResource)
    requires IsInventory(out, nodes, opts) && i < |out|
    ensures n in nodes && Schedulable(n) && vr in VENDOR_RESOURCES && Allocatable(n, vr.resourceName) > 0
    ensures Alike(Piece(n, vr, opts), out[i])
    ensures out[i].total == SumWhere(Pieces(nodes, opts), IsKey(out[i].key))
    ensures out[i].count == CountOf(Pieces(nodes, opts), out[i].key)
  {
    var ps := Pieces(nodes, opts);
    var m :| Lists(out, m) && GroupsExactly(m, ps);
    assert out[i].key in m;
    var h :| 0 <= h < |ps| && Alike(ps[h], out[i]);
    PieceOrigin(nodes, opts, h);
    n, vr :| n in nodes && Schedulable(n) && vr in VENDOR_RESOURCES
      && Allocatable(n, vr.resourceName) > 0 && ps[h] == Piece(n, vr, opts);
  }

  /** Every schedulable node's GPU resource is in the inventory, under the model
      and selector that node resolves to: the key determines both. */
  lemma Present(out: seq<Offering>, nodes: seq<Node>, opts: Options, n: Node, vr: VendorResource) returns (j: nat)
    requires IsInventory(out, nodes, opts) && opts.LabelNames()
    requires n in nodes && Schedulable(n) && vr in VENDOR_RESOURCES && Allocatable(n, vr.resourceName) > 0
    ensures j < |out|
    ensures var u := Piece(n, vr, opts); u.key == out[j].key && u.model == out[j].model && u.selector == out[j].selector
  {
    var ps, u := Pieces(nodes, opts), Piece(n, vr, opts);
    var m :| Lists(out, m) && GroupsExactly(m, ps);
    PieceOccurs(nodes, opts, n, vr);
    assert Occurs(ps, u.key);
    j :| 0 <= j < |out| && out[j].key == u.key;
    var n', vr' := Origin(out, nodes, opts, j);
    KeyDetermines(n, vr, n', vr', opts);
  }

  // ---- inventory versus gate ------------------------------------------------

  /** Units of pieces whose selector key is that of `sel`. */
  ghost function ForSelector(sel: Selector): OfferingKey -> bool {
    (k: OfferingKey) => k.selector == Key(sel)
  }

  lemma PieceMatches(n: Node, vr: VendorResource, opts: Options, n0: Node, vr0: VendorResource)
    requires opts.LabelNames()
    requires Piece(n0, vr0, opts).selector.Some?
    requires ForSelector(Piece(n0, vr0, opts).selector.value)(Piece(n, vr, opts).key)
    ensures Matches(n, Piece(n0, vr0, opts).selector.value)
  {
    KeyDetermines(n, vr, n0, vr0, opts);
    ResolvedShape(n, vr, opts);
  }

  /** Pieces carrying an offering's selector sit on nodes the gate counts. */
  lemma {:induction false} SelectorWithinGate(nodes: seq<Node>, opts: Options, n0: Node, vr0: VendorResource)
    requires opts.LabelNames() && Piece(n0, vr0, opts).selector.Some?
    ensures var sel := Piece(n0, vr0, opts).selector.value;
            SumWhere(Pieces(nodes, opts), ForSelector(sel)) <= Total(nodes, n => Matches(n, sel))
  {
    var sel := Piece(n0, vr0, opts).selector.value;
    if nodes != [] {
      var e := |nodes| - 1;
      var n := nodes[e];
      SelectorWithinGate(nodes[..e], opts, n0, vr0);
      SumConcat(Pieces(nodes[..e], opts), NodePieces(n, opts), ForSelector(sel));
      NodeWithinGate(n, opts, n0, vr0);
    }
  }

  lemma NodeWithinGate(n: Node, opts: Options, n0: Node, vr0: VendorResource)
    requires opts.LabelNames() && Piece(n0, vr0, opts).selector.Some?
    ensures var sel := Piece(n0, vr0, opts).selector.value;
            SumWhere(NodePieces(n, opts), ForSelector(sel))
            <= if Schedulable(n) && Matches(n, sel) then UnitsUpTo(n, 2) else 0
  {
    var sel := Piece(n0, vr0, opts).selector.value;
    NodeSum(n, opts, ForSelector(sel));
    MatchNodeUnfolds(n, map[]);
    if !Matches(n, sel) {
      forall vr | vr in VENDOR_RESOURCES ensures !ForSelector(sel)(Piece(n, vr, opts).key) {
        if ForSelector(sel)(Piece(n, vr, opts).key) {
          PieceMatches(n, vr, opts, n0, vr0);
        }
      }
    }
  }

  lemma {:induction false} SumMonotone(ps: seq<Offering>, p: OfferingKey -> bool, q: OfferingKey -> bool)
    requires forall i :: 0 <= i < |ps| ==> ps[i].total >= 0
    requires forall k :: p(k) ==> q(k)
    ensures SumWhere(ps, p) <= SumWhere(ps, q)
  {
    if ps != [] {
      assert forall i :: 0 <= i < |ps| - 1 ==> ps[..|ps| - 1][i] == ps[i];
      SumMonotone(ps[..|ps| - 1], p, q);
    }
  }

  lemma Contains(nodes: seq<Node>, n: Node, sel: Selector)
    requires n in nodes && Schedulable(n) && Matches(n, sel) && GpuUnits(n) > 0
    ensures Offers(nodes, x => Matches(x, sel))
  {
  }

  /** Every offering that publishes a selector is Found by the gate's query, and
      with no pods the gate sees at least the offering's Total free. */
  lemma InventoryIsPlaceable(out: seq<Offering>, nodes: seq<Node>, opts: Options, i: nat)
    requires IsInventory(out, nodes, opts) && opts.LabelNames()
    requires i < |out| && out[i].selector.Some?
    ensures var sa := SelectorSummary(nodes, [], out[i].selector.value);
            sa.found && sa.free >= out[i].total > 0
  {
    var n, vr := Origin(out, nodes, opts, i);
    GateCoversPiece(nodes, opts, n, vr);
    SummaryMeaning(nodes, [], out[i].selector.value);
  }

  lemma GateCoversPiece(nodes: seq<Node>, opts: Options, n: Node, vr: VendorResource)
    requires opts.LabelNames() && Piece(n, vr, opts).selector.Some?
    requires n in nodes && Schedulable(n) && vr in VENDOR_RESOURCES && Allocatable(n, vr.resourceName) > 0
    ensures var u := Piece(n, vr, opts);
            && u.selector.value != map[]
            && Offers(nodes, x => Matches(x, u.selector.value))
            && 0 < SumWhere(Pieces(nodes, opts), IsKey(u.key)) <= Total(nodes, x => Matches(x, u.selector.value))
  {
    var ps, u := Pieces(nodes, opts), Piece(n, vr, opts);
    ResolvedShape(n, vr, opts);
    PieceMatches(n, vr, opts, n, vr);
    Contains(nodes, n, u.selector.value);
    AllPositive(nodes, opts);
    PieceOccurs(nodes, opts, n, vr);
    var h :| 0 <= h < |ps| && ps[h] == u;
    PositiveSum(ps, u.key, h);
    SumMonotone(ps, IsKey(u.key), ForSelector(u.selector.value));
    SelectorWithinGate(nodes, opts, n, vr);
  }

  lemma AllPositive(nodes: seq<Node>, opts: Options)
    ensures forall j :: 0 <= j < |Pieces(nodes, opts)| ==> Pieces(nodes, opts)[j].total > 0
  {
    forall j | 0 <= j < |Pieces(nodes, opts)| ensures Pieces(nodes, opts)[j].total > 0 {
      PieceOrigin(nodes, opts, j);
    }
  }

  lemma {:induction false} PositiveSum(ps: seq<Offering>, k: OfferingKey, h: nat)
    requires forall i :: 0 <= i < |ps| ==> ps[i].total > 0
    requires h < |ps| && ps[h].key == k
    ensures SumWhere(ps, IsKey(k)) > 0
  {
    var e := |ps| - 1;
    assert forall i :: 0 <= i < e ==> ps[..e][i] == ps[i];
    if h < e {
      PositiveSum(ps[..e], k, h);
    } else {
      NonNegativeSum(ps[..e], k);
    }
  }

  lemma {:induction false} NonNegativeSum(ps: seq<Offering>, k: OfferingKey)
    requires forall i :: 0 <= i < |ps| ==> ps[i].total > 0
    ensures SumWhere(ps, IsKey(k)) >= 0
  {
    if ps != [] {
      var e := |ps| - 1;
      assert forall i :: 0 <= i < e ==> ps[..e][i] == ps[i];
      NonNegativeSum(ps[..e], k);
    }
  }

  /** On the canonical label the two agree exactly: a node with model `v` yields
      only pieces selecting `{label: v}`, and no other node does. */
  lemma CanonicalPiece(n: Node, vr: VendorResource, opts: Options, v: string)
    requires opts.LabelNames() && v != ""
    ensures ForSelector(map[opts.ModelLabel() := v])(Piece(n, vr, opts).key)
       <==> Label(n, opts.ModelLabel()) == v
  {
    var u, ml := Piece(n, vr, opts), opts.ModelLabel();
    ResolvedShape(n, vr, opts);
    if u.selector.Some? {
      var k :| '=' !in k && u.selector.value == map[k := u.model] && Label(n, k) == u.model;
      SingleKeyInjective(k, u.model, ml, v);
    } else {
      SingleKeyInjective(ml, v, ml, v);
    }
  }

  lemma {:induction false} CanonicalTotals(nodes: seq<Node>, opts: Options, v: string)
    requires opts.LabelNames() && v != ""
    ensures var sel: Selector := map[opts.ModelLabel() := v];
            SumWhere(Pieces(nodes, opts), ForSelector(sel)) == Total(nodes, n => Matches(n, sel))
  {
    var sel: Selector := map[opts.ModelLabel() := v];
    if nodes != [] {
      var e := |nodes| - 1;
      var n := nodes[e];
      CanonicalTotals(nodes[..e], opts, v);
      SumConcat(Pieces(nodes[..e], opts), NodePieces(n, opts), ForSelector(sel));
      CanonicalNode(n, opts, v);
    }
  }

  lemma CanonicalNode(n: Node, opts: Options, v: string)
    requires opts.LabelNames() && v != ""
    ensures var sel: Selector := map[opts.ModelLabel() := v];
            SumWhere(NodePieces(n, opts), ForSelector(sel))
            == if Schedulable(n) && Matches(n, sel) then UnitsUpTo(n, 2) else 0
  {
    var sel: Selector := map[opts.ModelLabel() := v];
    NodeSum(n, opts, ForSelector(sel));
    CanonicalAdds(n, VENDOR_RESOURCES[0], opts, v);
    CanonicalAdds(n, VENDOR_RESOURCES[1], opts, v);
    MatchNodeUnfolds(n, map[]);
  }

  lemma CanonicalAdds(n: Node, vr: VendorResource, opts: Options, v: string)
    requires opts.LabelNames() && v != ""
    ensures var sel: Selector := map[opts.ModelLabel() := v];
            Adds(n, vr, opts, ForSelector(sel)) == if Matches(n, sel) then Max0(Allocatable(n, vr.resourceName)) else 0
  {
    var sel: Selector := map[opts.ModelLabel() := v];
    assert opts.ModelLabel() in sel;
    CanonicalPiece(n, vr, opts, v);
  }

  /** With no pods, the gate's Free for a canonical model is the sum of the Totals
      of the offerings publishing that selector. */
  lemma CanonicalInventoryAgrees(out: seq<Offering>, nodes: seq<Node>, opts: Options, v: string)
    requires IsInventory(out, nodes, opts) && opts.LabelNames() && v != ""
    ensures var sel: Selector := map[opts.ModelLabel() := v];
            SelectorSummary(nodes, [], sel).free == SumWhere(out, ForSelector(sel))
  {
    var sel: Selector := map[opts.ModelLabel() := v];
    assert opts.ModelLabel() in sel;
    InventoryTotals(out, nodes, opts, ForSelector(sel));
    CanonicalTotals(nodes, opts, v);
    SummaryMeaning(nodes, [], sel);
    TotalNonNegative(nodes, n => Matches(n, sel));
  }

  lemma {:induction false} TotalNonNegative(nodes: seq<Node>, pick: Pick)
    ensures Total(nodes, pick) >= 0
  {
    if nodes != [] {
      TotalNonNegative(nodes[..|nodes| - 1], pick);
      MatchNodeUnfolds(nodes[|nodes| - 1], map[]);
    }
  }

  // ---- node order does not matter -------------------------------------------

  ghost function SumNodes(nodes: seq<Node>, f: Node -> int): int {
    if nodes == [] then 0
    else SumNodes(nodes[..|nodes| - 1], f) + f(nodes[|nodes| - 1])
  }

  lemma {:induction false} SumNodesRemove(nodes: seq<Node>, f: Node -> int, j: nat)
    requires j < |nodes|
    ensures SumNodes(nodes, f) == SumNodes(nodes[..j] + nodes[j + 1..], f) + f(nodes[j])
  {
    var e := |nodes| - 1;
    if j == e {
      assert nodes[..j] + nodes[j + 1..] == nodes[..e];
    } else {
      SumNodesRemove(nodes[..e], f, j);
      var less := nodes[..j] + nodes[j + 1..];
      assert less[..|less| - 1] == nodes[..e][..j] + nodes[..e][j + 1..];
    }
  }

  lemma {:induction false} SumNodesPermuted(a: seq<Node>, b: seq<Node>, f: Node -> int)
    requires multiset(a) == multiset(b)
    ensures SumNodes(a, f) == SumNodes(b, f)
  {
    assert |a| == |multiset(a)| == |multiset(b)| == |b|;
    if a != [] {
      var e := |a| - 1;
      assert a[e] in multiset(b);
      var j :| 0 <= j < |b| && b[j] == a[e];
      RemoveOne(a, e);
      RemoveOne(b, j);
      assert a[..e] + a[e + 1..] == a[..e];
      SumNodesRemove(b, f, j);
      SumNodesPermuted(a[..e], b[..j] + b[j + 1..], f);
    }
  }

  lemma {:induction false} KeySumByNode(nodes: seq<Node>, opts: Options, k: OfferingKey)
    ensures SumWhere(Pieces(nodes, opts), IsKey(k)) == SumNodes(nodes, n => SumWhere(NodePieces(n, opts), IsKey(k)))
    ensures CountOf(Pieces(nodes, opts), k) == SumNodes(nodes, n => CountOf(NodePieces(n, opts), k))
  {
    if nodes != [] {
      var e := |nodes| - 1;
      KeySumByNode(nodes[..e], opts, k);
      SumConcat(Pieces(nodes[..e], opts), NodePieces(nodes[e], opts), IsKey(k));
      CountConcat(Pieces(nodes[..e], opts), NodePieces(nodes[e], opts), k);
    }
  }

  lemma {:induction false} CountConcat(a: seq<Offering>, b: seq<Offering>, k: OfferingKey)
    ensures CountOf(a + b, k) == CountOf(a, k) + CountOf(b, k)
  {
    if b == [] {
      assert a + b == a;
    } else {
      var e := |b| - 1;
      CountConcat(a, b[..e], k);
      assert (a + b)[..|a + b| - 1] == a + b[..e];
    }
  }

  lemma {:induction false} PieceOccurs(nodes: seq<Node>, opts: Options, n: Node, vr: VendorResource)
    requires n in nodes && Schedulable(n) && vr in VENDOR_RESOURCES && Allocatable(n, vr.resourceName) > 0
    ensures Piece(n, vr, opts) in Pieces(nodes, opts)
  {
    var e := |nodes| - 1;
    if n in nodes[..e] {
      PieceOccurs(nodes[..e], opts, n, vr);
    } else {
      assert n == nodes[e];
      assert Piece(n, vr, opts) in NodePieces(n, opts) by {
        assert PiecesUpTo(n, 1, opts) == PieceOf(n, VENDOR_RESOURCES[0], opts);
      }
    }
  }

  /** Reordering the nodes changes no offering: each offering of one inventory
      reappears in the other with the same key, model, selector, Total and
      node count. */
  lemma PermutationInvariant(a: seq<Node>, b: seq<Node>, opts: Options, outA: seq<Offering>, outB: seq<Offering>,
                             i: nat)
    requires multiset(a) == multiset(b) && opts.LabelNames()
    requires IsInventory(outA, a, opts) && IsInventory(outB, b, opts)
    requires i < |outA|
    ensures exists j :: 0 <= j < |outB| && outB[j].key == outA[i].key && outB[j].model == outA[i].model
              && outB[j].selector == outA[i].selector && outB[j].total == outA[i].total
                  && outB[j].count == outA[i].count
  {
    var k := outA[i].key;
    var n, vr := Origin(outA, a, opts, i);
    assert n in multiset(b);
    var j := Present(outB, b, opts, n, vr);
    var _, _ := Origin(outB, b, opts, j);
    KeySumByNode(a, opts, k);
    KeySumByNode(b, opts, k);
    SumNodesPermuted(a, b, x => SumWhere(NodePieces(x, opts), IsKey(k)));
    SumNodesPermuted(a, b, x => CountOf(NodePieces(x, opts), k));
  }
}
