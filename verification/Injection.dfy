/** Splicing resolved resources and the GPU placement into the Helm values. */
module Injection {
  import opened Text
  import opened SelectorKey
  import opened Nodes
  import opened Availability
  import opened InjectionPath
  import opened ValueTree
  import opened Resources

  const EXALSIUS := "_exalsius"
  const PER_REPLICA: seq<string> := [EXALSIUS, "resources", "perReplica"]
  const NODE_SELECTOR: seq<string> := [EXALSIUS, "scheduling", "nodeSelector"]
  const RESOURCE_NAME: seq<string> := [EXALSIUS, "resources", "perReplica", "gpuResourceName"]

  datatype Field = Replicas | Cpu | Memory | Storage | GpuCount | GpuVendor | GpuType

  function FieldName(f: Field): string {
    match f
    case Replicas => "replicas"
    case Cpu => "cpu"
    case Memory => "memory"
    case Storage => "storage"
    case GpuCount => "gpuCount"
    case GpuVendor => "gpuVendor"
    case GpuType => "gpuType"
  }

  const FIELDS: seq<Field> := [Replicas, Cpu, Memory, Storage, GpuCount, GpuVendor, GpuType]

  function FieldValue(r: Spec, f: Field): Option<Value> {
    match f
    case Replicas => AsNum(r.replicas)
    case Cpu => AsStr(r.cpu)
    case Memory => AsStr(r.memory)
    case Storage => AsStr(r.storage)
    case GpuCount => AsNum(r.gpuCount)
    case GpuVendor => AsStr(r.gpuVendor)
    case GpuType => AsStr(r.gpuType)
  }

  function AsNum(x: Option<int>): Option<Value> {
    if x.Some? then Some(Num(x.value)) else None
  }

  function AsStr(x: Option<string>): Option<Value> {
    if x.Some? then Some(Str(x.value)) else None
  }

  /** The well-known path of a field. */
  function StandardPath(f: Field): seq<string> {
    if f == Replicas then [EXALSIUS, "resources", "replicas"] else PER_REPLICA + [FieldName(f)]
  }

  /** `ResourceInjectionMap`: extra paths per field. */
  type InjectionMap = map<Field, seq<string>>

  datatype Entry = Entry(field: Field, value: Value)
  datatype Warning = Warning(path: string, field: Field, previous: Option<Value>)

  /** The non-nil fields, in declaration order. */
  function Entries(r: Spec, fields: seq<Field>): seq<Entry> {
    if fields == [] then []
    else
      var rest := Entries(r, fields[..|fields| - 1]);
      var f := fields[|fields| - 1];
      if FieldValue(r, f).Some? then rest + [Entry(f, FieldValue(r, f).value)] else rest
  }

  // ---- specification: a list of writes --------------------------------------

  /** One write: `segs` is None for a declared path that does not parse. */
  datatype Write = Write(raw: string, segs: Option<seq<string>>, field: Field, value: Value)

  predicate Proper(w: Write) {
    w.segs.Some? ==> w.segs.value != []
  }

  function Apply(t: Tree, w: Write): Tree
    requires Proper(w)
  {
    if w.segs.None? then t else Put(t, w.segs.value, w.value)
  }

  function ApplyAll(t: Tree, ws: seq<Write>): Tree
    requires forall w :: w in ws ==> Proper(w)
  {
    if ws == [] then t
    else Apply(ApplyAll(t, ws[..|ws| - 1]), ws[|ws| - 1])
  }

  function WarningsOf(t: Tree, ws: seq<Write>): seq<Warning>
    requires forall w :: w in ws ==> Proper(w)
  {
    if ws == [] then []
    else
      var before, w := ws[..|ws| - 1], ws[|ws| - 1];
      WarningsOf(t, before) + WarningFor(ApplyAll(t, before), w)
  }

  /** A parse error, or a non-nil leaf about to be replaced. */
  function WarningFor(t: Tree, w: Write): seq<Warning> {
    if w.segs.None? then [Warning(w.raw, w.field, None)]
    else if NonNull(Get(t, w.segs.value)) then [Warning(w.raw, w.field, Get(t, w.segs.value))]
    else []
  }

  function StandardWrite(e: Entry): Write {
    Write("", Some(StandardPath(e.field)), e.field, e.value)
  }

  function StandardWrites(es: seq<Entry>): (ws: seq<Write>)
    ensures forall w :: w in ws ==> Proper(w)
  {
    if es == [] then [] else StandardWrites(es[..|es| - 1]) + [StandardWrite(es[|es| - 1])]
  }

  ghost function DeclaredWrite(e: Entry, path: string): (w: Write)
    ensures Proper(w)
  {
    OnlySpellable(path);
    Write(path, ScanNames(path), e.field, e.value)
  }

  ghost function WritesFor(e: Entry, paths: seq<string>): (ws: seq<Write>)
    ensures forall w :: w in ws ==> Proper(w)
  {
    if paths == [] then [] else WritesFor(e, paths[..|paths| - 1]) + [DeclaredWrite(e, paths[|paths| - 1])]
  }

  function PathsFor(im: InjectionMap, f: Field): seq<string> {
    if f in im then im[f] else []
  }

  ghost function DeclaredWrites(es: seq<Entry>, im: InjectionMap): (ws: seq<Write>)
    ensures forall w :: w in ws ==> Proper(w)
  {
    if es == [] then []
    else
      var e := es[|es| - 1];
      DeclaredWrites(es[..|es| - 1], im) + WritesFor(e, PathsFor(im, e.field))
  }

  /** The standard section: `_exalsius.resources.perReplica` exists, then every
      entry is written at its well-known path. */
  function Standard(values: Tree, es: seq<Entry>): Tree {
    ApplyAll(EnsureObject(values, PER_REPLICA), StandardWrites(es))
  }

  // ---- the method -----------------------------------------------------------

  method CollectEntries(r: Spec) returns (es: seq<Entry>)
    ensures es == Entries(r, FIELDS)
  {
    es := [];
    for i := 0 to |FIELDS|
      invariant es == Entries(r, FIELDS[..i])
    {
      assert FIELDS[..i + 1][..i] == FIELDS[..i];
      if FieldValue(r, FIELDS[i]).Some? {
        es := es + [Entry(FIELDS[i], FieldValue(r, FIELDS[i]).value)];
      }
    }
    assert FIELDS[..|FIELDS|] == FIELDS;
  }

  method WriteStandard(values: Tree, es: seq<Entry>) returns (t: Tree)
    ensures t == Standard(values, es)
  {
    t := EnsureObject(values, PER_REPLICA);
    for i := 0 to |es|
      invariant t == Standard(values, es[..i])
    {
      assert es[..i + 1][..i] == es[..i];
      t := Put(t, StandardPath(es[i].field), es[i].value);
    }
    assert es[..|es|] == es;
  }

  /** One declared path of one entry. */
  method InjectAt(t0: Tree, e: Entry, path: string) returns (t: Tree, warning: seq<Warning>)
    ensures t == Apply(t0, DeclaredWrite(e, path))
    ensures warning == WarningFor(t0, DeclaredWrite(e, path))
  {
    OnlySpellable(path);
    t, warning := t0, [];
    var segs := ParseLoop(path);
    if segs.Rejected? {
      warning := [Warning(path, e.field, None)];
    } else {
      var prev, overwrote;
      t, prev, overwrote := SetNestedValue(t0, segs.segments, e.value);
      if overwrote {
        warning := [Warning(path, e.field, prev)];
      }
    }
  }

  /** All declared paths of one entry. */
  method InjectEntry(t0: Tree, e: Entry, paths: seq<string>) returns (t: Tree, warnings: seq<Warning>)
    ensures t == ApplyAll(t0, WritesFor(e, paths))
    ensures warnings == WarningsOf(t0, WritesFor(e, paths))
  {
    t, warnings := t0, [];
    for j := 0 to |paths|
      invariant t == ApplyAll(t0, WritesFor(e, paths[..j]))
      invariant warnings == WarningsOf(t0, WritesFor(e, paths[..j]))
    {
      assert paths[..j + 1][..j] == paths[..j];
      LastValue(t0, WritesFor(e, paths[..j]), DeclaredWrite(e, paths[j]));
      LastWarning(t0, WritesFor(e, paths[..j]), DeclaredWrite(e, paths[j]));
      var warning;
      t, warning := InjectAt(t, e, paths[j]);
      warnings := warnings + warning;
    }
    assert paths[..|paths|] == paths;
  }

  /** The declared paths of all entries. */
  method InjectDeclared(t0: Tree, es: seq<Entry>, im: InjectionMap) returns (t: Tree, warnings: seq<Warning>)
    ensures t == ApplyAll(t0, DeclaredWrites(es, im))
    ensures warnings == WarningsOf(t0, DeclaredWrites(es, im))
  {
    t, warnings := t0, [];
    for i := 0 to |es|
      invariant t == ApplyAll(t0, DeclaredWrites(es[..i], im))
      invariant warnings == WarningsOf(t0, DeclaredWrites(es[..i], im))
    {
      assert es[..i + 1][..i] == es[..i];
      ghost var done, next := DeclaredWrites(es[..i], im), WritesFor(es[i], PathsFor(im, es[i].field));
      assert DeclaredWrites(es[..i + 1], im) == done + next;
      ValuesConcat(t0, done, next);
      WarningsConcat(t0, done, next);
      var more;
      t, more := InjectEntry(t, es[i], PathsFor(im, es[i].field));
      warnings := warnings + more;
    }
    assert es[..|es|] == es;
  }

  /** `injectResources`. */
  method InjectResources(values: Tree, resolved: Spec, im: InjectionMap) returns (t: Tree, warnings: seq<Warning>)
    ensures var es := Entries(resolved, FIELDS);
            && t == ApplyAll(Standard(values, es), DeclaredWrites(es, im))
            && warnings == WarningsOf(Standard(values, es), DeclaredWrites(es, im))
  {
    var es := CollectEntries(resolved);
    t := WriteStandard(values, es);
    t, warnings := InjectDeclared(t, es, im);
  }

  lemma {:induction false} ValuesConcat(t: Tree, a: seq<Write>, b: seq<Write>)
    requires (forall x :: x in a ==> Proper(x)) && (forall x :: x in b ==> Proper(x))
    ensures ApplyAll(t, a + b) == ApplyAll(ApplyAll(t, a), b)
  {
    if b == [] {
      assert a + b == a;
    } else {
      var before, w := b[..|b| - 1], b[|b| - 1];
      ValuesConcat(t, a, before);
      assert b == before + [w] && a + b == (a + before) + [w];
      LastValue(t, a + before, w);
      LastValue(ApplyAll(t, a), before, w);
    }
  }

  lemma WarningsNext(t: Tree, a: seq<Write>, b: seq<Write>, w: Write)
    requires (forall x :: x in a ==> Proper(x)) && (forall x :: x in b ==> Proper(x)) && Proper(w)
    requires WarningsOf(t, a + b) == WarningsOf(t, a) + WarningsOf(ApplyAll(t, a), b)
    requires ApplyAll(t, a + b) == ApplyAll(ApplyAll(t, a), b)
    ensures WarningsOf(t, a + b + [w]) == WarningsOf(t, a) + WarningsOf(ApplyAll(t, a), b + [w])
  {
    var mid, ab := ApplyAll(t, a), a + b;
    LastWarning(t, ab, w);
    LastWarning(mid, b, w);
    AppendThree(WarningsOf(t, a), WarningsOf(mid, b), WarningFor(ApplyAll(t, ab), w));
  }

  lemma {:induction false} WarningsConcat(t: Tree, a: seq<Write>, b: seq<Write>)
    requires (forall x :: x in a ==> Proper(x)) && (forall x :: x in b ==> Proper(x))
    ensures WarningsOf(t, a + b) == WarningsOf(t, a) + WarningsOf(ApplyAll(t, a), b)
  {
    if b == [] {
      assert a + b == a;
    } else {
      var before, w := b[..|b| - 1], b[|b| - 1];
      assert b == before + [w] && a + b == a + before + [w];
      WarningsConcat(t, a, before);
      ValuesConcat(t, a, before);
      WarningsNext(t, a, before, w);
    }
  }

  lemma AppendThree<T>(a: seq<T>, b: seq<T>, c: seq<T>)
    ensures (a + b) + c == a + (b + c)
  {
  }

  lemma LastValue(t: Tree, ws: seq<Write>, w: Write)
    requires (forall x :: x in ws ==> Proper(x)) && Proper(w)
    ensures ApplyAll(t, ws + [w]) == Apply(ApplyAll(t, ws), w)
  {
    assert (ws + [w])[..|ws|] == ws;
  }

  lemma LastWarning(t: Tree, ws: seq<Write>, w: Write)
    requires (forall x :: x in ws ==> Proper(x)) && Proper(w)
    ensures WarningsOf(t, ws + [w]) == WarningsOf(t, ws) + WarningFor(ApplyAll(t, ws), w)
  {
    assert (ws + [w])[..|ws|] == ws;
  }

  // ---- what the writes leave behind -----------------------------------------

  ghost predicate Avoids(w: Write, q: seq<string>) {
    w.segs.Some? ==> !Comparable(w.segs.value, q)
  }

  /** Writes leave alone every path incomparable with all of theirs. */
  lemma {:induction false} WritesFrame(t: Tree, ws: seq<Write>, q: seq<string>)
    requires forall w :: w in ws ==> Proper(w)
    requires forall i :: 0 <= i < |ws| ==> Avoids(ws[i], q)
    ensures Get(ApplyAll(t, ws), q) == Get(t, q)
  {
    if ws != [] {
      var e := |ws| - 1;
      assert forall i :: 0 <= i < e ==> ws[..e][i] == ws[i];
      WritesFrame(t, ws[..e], q);
      if ws[e].segs.Some? {
        GetPutOther(ApplyAll(t, ws[..e]), ws[e].segs.value, ws[e].value, q);
      }
    }
  }

  /** A write stands if no later write is comparable with it. */
  lemma {:induction false} WriteStands(t: Tree, ws: seq<Write>, j: nat)
    requires forall w :: w in ws ==> Proper(w)
    requires j < |ws| && ws[j].segs.Some?
    requires forall i :: j < i < |ws| ==> Avoids(ws[i], ws[j].segs.value)
    ensures Get(ApplyAll(t, ws), ws[j].segs.value) == Some(ws[j].value)
  {
    var e := |ws| - 1;
    var before := ApplyAll(t, ws[..e]);
    assert ws[e] in ws;
    if j == e {
      GetPut(before, ws[e].segs.value, ws[e].value);
    } else {
      assert forall i :: 0 <= i < e ==> ws[..e][i] == ws[i];
      WriteStands(t, ws[..e], j);
      if ws[e].segs.Some? {
        GetPutOther(before, ws[e].segs.value, ws[e].value, ws[j].segs.value);
      }
    }
  }

  /** Pairwise incomparable writes: each warning is judged on the tree the writes
      began with. */
  ghost predicate Independent(ws: seq<Write>) {
    forall i, j :: 0 <= i < j < |ws| && ws[i].segs.Some? && ws[j].segs.Some? ==>
        !Comparable(ws[i].segs.value, ws[j].segs.value)
  }

  ghost function ExpectedWarnings(t: Tree, ws: seq<Write>): seq<Warning> {
    if ws == [] then [] else ExpectedWarnings(t, ws[..|ws| - 1]) + WarningFor(t, ws[|ws| - 1])
  }

  lemma {:induction false} WarningsExact(t: Tree, ws: seq<Write>)
    requires (forall w :: w in ws ==> Proper(w)) && Independent(ws)
    ensures WarningsOf(t, ws) == ExpectedWarnings(t, ws)
  {
    if ws != [] {
      var e := |ws| - 1;
      assert forall i :: 0 <= i < e ==> ws[..e][i] == ws[i];
      WarningsExact(t, ws[..e]);
      if ws[e].segs.Some? {
        WritesFrame(t, ws[..e], ws[e].segs.value);
      }
    }
  }

  /** No declared path lies in the operator's own section. */
  ghost predicate Outside(ws: seq<Write>) {
    forall i :: 0 <= i < |ws| && ws[i].segs.Some? && ws[i].segs.value != [] ==> ws[i].segs.value[0] != EXALSIUS
  }

  lemma StandardIncomparable(f: Field, g: Field)
    requires f != g
    ensures !Comparable(StandardPath(f), StandardPath(g))
  {
    if f != Replicas && g != Replicas {
      assert StandardPath(f)[3] == FieldName(f) && StandardPath(g)[3] == FieldName(g);
      NamesDiffer(f, g);
    } else {
      assert StandardPath(f)[2] != StandardPath(g)[2] by { assert "replicas" != "perReplica"; }
    }
  }

  lemma NamesDiffer(f: Field, g: Field)
    requires f != g
    ensures FieldName(f) != FieldName(g)
  {
  }

  lemma {:induction false} EntriesDistinct(r: Spec, fields: seq<Field>)
    requires forall i, j :: 0 <= i < j < |fields| ==> fields[i] != fields[j]
    ensures var es := Entries(r, fields);
            && (forall i :: 0 <= i < |es| ==> es[i].field in fields && FieldValue(r, es[i].field) == Some(es[i].value))
            && (forall i, j :: 0 <= i < j < |es| ==> es[i].field != es[j].field)
            && (forall f :: f in fields && FieldValue(r, f).Some? ==> Entry(f, FieldValue(r, f).value) in es)
  {
    if fields != [] {
      var e := |fields| - 1;
      EntriesDistinct(r, fields[..e]);
      assert fields == fields[..e] + [fields[e]];
    }
  }

  lemma {:induction false} StandardWritesAt(es: seq<Entry>)
    ensures |StandardWrites(es)| == |es|
    ensures forall i :: 0 <= i < |es| ==> StandardWrites(es)[i] == StandardWrite(es[i])
  {
    if es != [] {
      StandardWritesAt(es[..|es| - 1]);
    }
  }

  /** A path the standard section neither writes nor passes through. */
  ghost predicate Untargeted(r: Spec, q: seq<string>) {
    !(q <= PER_REPLICA) && forall f :: FieldValue(r, f).Some? ==> !Comparable(StandardPath(f), q)
  }

  /** The standard section holds every non-nil field and changes nothing else
      but the objects on the way to it. */
  lemma StandardSection(values: Tree, r: Spec)
    ensures var t := Standard(values, Entries(r, FIELDS));
            && (forall f :: FieldValue(r, f).Some? ==> Get(t, StandardPath(f)) == FieldValue(r, f))
            && (forall q :: Untargeted(r, q) ==> Get(t, q) == Get(values, q))
  {
    var es := Entries(r, FIELDS);
    var ws, base := StandardWrites(es), EnsureObject(values, PER_REPLICA);
    EntriesDistinct(r, FIELDS);
    StandardWritesAt(es);
    forall f | FieldValue(r, f).Some? ensures Get(ApplyAll(base, ws), StandardPath(f)) == FieldValue(r, f) {
      AllFields(f);
      var j :| 0 <= j < |es| && es[j] == Entry(f, FieldValue(r, f).value);
      forall i | j < i < |ws| ensures Avoids(ws[i], ws[j].segs.value) {
        StandardIncomparable(es[i].field, f);
      }
      WriteStands(base, ws, j);
    }
    forall q | Untargeted(r, q)
      ensures Get(ApplyAll(base, ws), q) == Get(values, q)
    {
      forall i | 0 <= i < |ws| ensures Avoids(ws[i], q) {
        assert FieldValue(r, es[i].field).Some?;
      }
      WritesFrame(base, ws, q);
      GetEnsureObject(values, PER_REPLICA, q);
    }
  }

  lemma AllFields(f: Field)
    ensures f in FIELDS
  {
  }

  lemma OutsideAvoids(w: Write, q: seq<string>)
    requires Proper(w) && (w.segs.Some? ==> w.segs.value[0] != EXALSIUS)
    requires q != [] && q[0] == EXALSIUS
    ensures Avoids(w, q)
  {
  }

  /** `injectResources` as a whole, for pairwise incomparable declared paths
      outside `_exalsius`: every standard path and every declared path holds its
      value, every other lookup is unchanged, and the warnings are exactly the
      unparsable paths and the non-nil leaves of the incoming values. */
  lemma InjectionTheorem(values: Tree, r: Spec, im: InjectionMap)
    requires var ws := DeclaredWrites(Entries(r, FIELDS), im); Independent(ws) && Outside(ws)
    ensures var es := Entries(r, FIELDS);
            var ws := DeclaredWrites(es, im);
            var t := ApplyAll(Standard(values, es), ws);
            && (forall f :: FieldValue(r, f).Some? ==> Get(t, StandardPath(f)) == FieldValue(r, f))
            && (forall j :: 0 <= j < |ws| && ws[j].segs.Some? ==> Get(t, ws[j].segs.value) == Some(ws[j].value))
            && (forall q :: Untargeted(r, q) && (forall j :: 0 <= j < |ws| ==> Avoids(ws[j], q)) ==>
                Get(t, q) == Get(values, q))
            && WarningsOf(Standard(values, es), ws) == ExpectedWarnings(values, ws)
  {
    var es := Entries(r, FIELDS);
    var ws, base := DeclaredWrites(es, im), Standard(values, es);
    StandardSection(values, r);
    forall f | FieldValue(r, f).Some? ensures Get(ApplyAll(base, ws), StandardPath(f)) == FieldValue(r, f) {
      forall i | 0 <= i < |ws| ensures Avoids(ws[i], StandardPath(f)) {
        assert ws[i] in ws;
        OutsideAvoids(ws[i], StandardPath(f));
      }
      WritesFrame(base, ws, StandardPath(f));
    }
    forall j | 0 <= j < |ws| && ws[j].segs.Some?
      ensures Get(ApplyAll(base, ws), ws[j].segs.value) == Some(ws[j].value)
    {
      forall i | j < i < |ws| ensures Avoids(ws[i], ws[j].segs.value) {}
      WriteStands(base, ws, j);
    }
    forall q | Untargeted(r, q) && (forall j :: 0 <= j < |ws| ==> Avoids(ws[j], q))
      ensures Get(ApplyAll(base, ws), q) == Get(values, q)
    {
      WritesFrame(base, ws, q);
    }
    WarningsExact(base, ws);
    SameWarnings(values, r, ws);
  }

  lemma {:induction false} SameWarnings(values: Tree, r: Spec, ws: seq<Write>)
    requires (forall w :: w in ws ==> Proper(w)) && Outside(ws)
    ensures ExpectedWarnings(Standard(values, Entries(r, FIELDS)), ws) == ExpectedWarnings(values, ws)
  {
    if ws != [] {
      var e := |ws| - 1;
      assert forall i :: 0 <= i < e ==> ws[..e][i] == ws[i];
      SameWarnings(values, r, ws[..e]);
      assert ws[e] in ws;
      if ws[e].segs.Some? {
        StandardSection(values, r);
        var q := ws[e].segs.value;
        assert Untargeted(r, q);
      }
    }
  }

  /** Every declared path of a non-nil field is among the writes. */
  lemma {:induction false} DeclaredCovers(es: seq<Entry>, im: InjectionMap, e: Entry, path: string)
    requires e in es && path in PathsFor(im, e.field)
    ensures DeclaredWrite(e, path) in DeclaredWrites(es, im)
  {
    var k := |es| - 1;
    if e == es[k] {
      PathCovered(e, PathsFor(im, e.field), path);
    } else {
      assert es == es[..k] + [es[k]];
      DeclaredCovers(es[..k], im, e, path);
    }
  }

  lemma {:induction false} PathCovered(e: Entry, paths: seq<string>, path: string)
    requires path in paths
    ensures DeclaredWrite(e, path) in WritesFor(e, paths)
  {
    var k := |paths| - 1;
    if path != paths[k] {
      assert paths == paths[..k] + [paths[k]];
      PathCovered(e, paths[..k], path);
    }
  }

  /** The values after `injectResources`. */
  ghost function Injected(values: Tree, r: Spec, im: InjectionMap): Tree {
    var es := Entries(r, FIELDS);
    ApplyAll(Standard(values, es), DeclaredWrites(es, im))
  }

  /** The declared paths keep out of each other's way and out of `_exalsius`. */
  ghost predicate Apart(r: Spec, im: InjectionMap) {
    var ws := DeclaredWrites(Entries(r, FIELDS), im);
    Independent(ws) && Outside(ws)
  }

  /** The value stands at the path and at every path the class declares for the field. */
  ghost predicate Stands(t: Tree, im: InjectionMap, f: Field, v: Value, path: seq<string>) {
    && Get(t, path) == Some(v)
    && (f in im ==> forall p :: p in im[f] && ScanNames(p).Some? ==> Get(t, ScanNames(p).value) == Some(v))
  }

  /** A path the injection left as it was. */
  ghost predicate Kept(t: Tree, values: Tree, path: seq<string>) {
    Get(t, path) == Get(values, path)
  }

  lemma FieldStands(values: Tree, r: Spec, im: InjectionMap, f: Field, v: Value)
    requires Apart(r, im) && FieldValue(r, f) == Some(v)
    ensures Stands(Injected(values, r, im), im, f, v, StandardPath(f))
  {
    var es := Entries(r, FIELDS);
    var ws := DeclaredWrites(es, im);
    AllFields(f);
    EntriesDistinct(r, FIELDS);
    InjectionTheorem(values, r, im);
    if f in im {
      forall p | p in im[f] && ScanNames(p).Some?
        ensures Get(ApplyAll(Standard(values, es), ws), ScanNames(p).value) == Some(v)
      {
        DeclaredCovers(es, im, Entry(f, v), p);
        var j :| 0 <= j < |ws| && ws[j] == DeclaredWrite(Entry(f, v), p);
      }
    }
  }

  lemma UnsetUntargeted(r: Spec, f: Field)
    requires FieldValue(r, f).None?
    ensures Untargeted(r, StandardPath(f))
  {
    forall g | FieldValue(r, g).Some? ensures !Comparable(StandardPath(g), StandardPath(f)) {
      StandardIncomparable(g, f);
    }
    NotAbove(f);
  }

  lemma FieldKept(values: Tree, r: Spec, im: InjectionMap, f: Field)
    requires Apart(r, im) && FieldValue(r, f).None?
    ensures Kept(Injected(values, r, im), values, StandardPath(f))
  {
    var q, ws := StandardPath(f), DeclaredWrites(Entries(r, FIELDS), im);
    InjectionTheorem(values, r, im);
    forall i | 0 <= i < |ws| ensures Avoids(ws[i], q) {
      assert ws[i] in ws;
      OutsideAvoids(ws[i], q);
    }
    UnsetUntargeted(r, f);
  }

  lemma StandardPaths()
    ensures StandardPath(Replicas) == ["_exalsius", "resources", "replicas"]
    ensures StandardPath(Cpu) == ["_exalsius", "resources", "perReplica", "cpu"]
    ensures StandardPath(Memory) == ["_exalsius", "resources", "perReplica", "memory"]
    ensures StandardPath(Storage) == ["_exalsius", "resources", "perReplica", "storage"]
    ensures StandardPath(GpuCount) == ["_exalsius", "resources", "perReplica", "gpuCount"]
    ensures StandardPath(GpuVendor) == ["_exalsius", "resources", "perReplica", "gpuVendor"]
    ensures StandardPath(GpuType) == ["_exalsius", "resources", "perReplica", "gpuType"]
  {
  }

  /** The result, spelled out: a number the workspace asks for stands at its
      well-known path and at every path declared for it, and what it does not ask
      for is left as the values have it. */
  lemma NumbersStand(values: Tree, r: Spec, im: InjectionMap)
    requires Apart(r, im)
    ensures var t, p := Injected(values, r, im), ["_exalsius", "resources", "replicas"];
            if r.replicas.Some? then Stands(t, im, Replicas, Num(r.replicas.value), p) else Kept(t, values, p)
    ensures var t, p := Injected(values, r, im), ["_exalsius", "resources", "perReplica", "gpuCount"];
            if r.gpuCount.Some? then Stands(t, im, GpuCount, Num(r.gpuCount.value), p) else Kept(t, values, p)
  {
    StandardPaths();
    if r.replicas.Some? {
      FieldStands(values, r, im, Replicas, Num(r.replicas.value));
    } else {
      FieldKept(values, r, im, Replicas);
    }
    if r.gpuCount.Some? {
      FieldStands(values, r, im, GpuCount, Num(r.gpuCount.value));
    } else {
      FieldKept(values, r, im, GpuCount);
    }
  }

  /** The same of the quantities. */
  lemma QuantitiesStand(values: Tree, r: Spec, im: InjectionMap)
    requires Apart(r, im)
    ensures var t, p := Injected(values, r, im), ["_exalsius", "resources", "perReplica", "cpu"];
            if r.cpu.Some? then Stands(t, im, Cpu, Str(r.cpu.value), p) else Kept(t, values, p)
    ensures var t, p := Injected(values, r, im), ["_exalsius", "resources", "perReplica", "memory"];
            if r.memory.Some? then Stands(t, im, Memory, Str(r.memory.value), p) else Kept(t, values, p)
    ensures var t, p := Injected(values, r, im), ["_exalsius", "resources", "perReplica", "storage"];
            if r.storage.Some? then Stands(t, im, Storage, Str(r.storage.value), p) else Kept(t, values, p)
  {
    StandardPaths();
    if r.cpu.Some? {
      FieldStands(values, r, im, Cpu, Str(r.cpu.value));
    } else {
      FieldKept(values, r, im, Cpu);
    }
    if r.memory.Some? {
      FieldStands(values, r, im, Memory, Str(r.memory.value));
    } else {
      FieldKept(values, r, im, Memory);
    }
    if r.storage.Some? {
      FieldStands(values, r, im, Storage, Str(r.storage.value));
    } else {
      FieldKept(values, r, im, Storage);
    }
  }

  /** And of the GPU's vendor and type. */
  lemma GpuStands(values: Tree, r: Spec, im: InjectionMap)
    requires Apart(r, im)
    ensures var t, p := Injected(values, r, im), ["_exalsius", "resources", "perReplica", "gpuVendor"];
            if r.gpuVendor.Some? then Stands(t, im, GpuVendor, Str(r.gpuVendor.value), p) else Kept(t, values, p)
    ensures var t, p := Injected(values, r, im), ["_exalsius", "resources", "perReplica", "gpuType"];
            if r.gpuType.Some? then Stands(t, im, GpuType, Str(r.gpuType.value), p) else Kept(t, values, p)
  {
    StandardPaths();
    if r.gpuVendor.Some? {
      FieldStands(values, r, im, GpuVendor, Str(r.gpuVendor.value));
    } else {
      FieldKept(values, r, im, GpuVendor);
    }
    if r.gpuType.Some? {
      FieldStands(values, r, im, GpuType, Str(r.gpuType.value));
    } else {
      FieldKept(values, r, im, GpuType);
    }
  }

  lemma {:induction false} WritesKeepObject(t: Tree, ws: seq<Write>, q: seq<string>)
    requires forall w :: w in ws ==> Proper(w)
    requires forall i :: 0 <= i < |ws| && ws[i].segs.Some? ==> !(ws[i].segs.value <= q)
    requires IsObject(Get(t, q))
    ensures IsObject(Get(ApplyAll(t, ws), q))
  {
    if ws != [] {
      var e := |ws| - 1;
      assert forall i :: 0 <= i < e ==> ws[..e][i] == ws[i];
      WritesKeepObject(t, ws[..e], q);
      if ws[e].segs.Some? {
        PutKeepsObject(ApplyAll(t, ws[..e]), ws[e].segs.value, ws[e].value, q);
      }
    }
  }

  lemma NotAbove(f: Field)
    ensures !(StandardPath(f) <= PER_REPLICA)
  {
    assert "replicas"[0] != "perReplica"[0];
    assert PER_REPLICA[2] == "perReplica" && |PER_REPLICA| == 3;
  }

  /** The chart always finds the section, whatever was asked for and whatever the
      values held there. */
  lemma SectionStands(values: Tree, r: Spec, im: InjectionMap)
    requires Apart(r, im)
    ensures IsObject(Get(Injected(values, r, im), ["_exalsius", "resources", "perReplica"]))
  {
    var es := Entries(r, FIELDS);
    var base, ws := StandardWrites(es), DeclaredWrites(es, im);
    EnsuredIsObject(values, PER_REPLICA);
    StandardWritesAt(es);
    forall i | 0 <= i < |base| ensures !(base[i].segs.value <= PER_REPLICA) {
      NotAbove(es[i].field);
    }
    WritesKeepObject(EnsureObject(values, PER_REPLICA), base, PER_REPLICA);
    forall i | 0 <= i < |ws| && ws[i].segs.Some? ensures !(ws[i].segs.value <= PER_REPLICA) {
      assert ws[i] in ws;
      OutsideAvoids(ws[i], PER_REPLICA);
    }
    WritesKeepObject(Standard(values, es), ws, PER_REPLICA);
  }

  /** The warning a declared path earns: it does not parse, or a value other than null
      was there before. */
  ghost predicate Warned(values: Tree, path: string, f: Field, w: Warning) {
    && w.path == path && w.field == f
    && if ScanNames(path).None? then w.previous == None
       else
         var was := Get(values, ScanNames(path).value);
         was.Some? && was.value != Null && w.previous == was
  }

  lemma WarningMeans(values: Tree, e: Entry, path: string, w: Warning)
    ensures w in WarningFor(values, DeclaredWrite(e, path)) <==> Warned(values, path, e.field, w)
  {
  }

  /** Each warning is earned by a declared path of a resource that is asked for, and
      each such path that earns one gets it. */
  lemma WarningsAreEarned(values: Tree, r: Spec, im: InjectionMap, w: Warning)
    requires Apart(r, im)
    ensures var es := Entries(r, FIELDS);
            w in WarningsOf(Standard(values, es), DeclaredWrites(es, im)) <==>
              exists f, p :: FieldValue(r, f).Some? && p in PathsFor(im, f) && Warned(values, p, f, w)
  {
    var es := Entries(r, FIELDS);
    InjectionTheorem(values, r, im);
    if w in ExpectedWarnings(values, DeclaredWrites(es, im)) {
      var e, p := WarningFrom(values, es, im, w);
      EntryIsSet(r, e);
    }
    if f, p :| FieldValue(r, f).Some? && p in PathsFor(im, f) && Warned(values, p, f, w) {
      var e := SetIsEntry(r, f);
      WarningGiven(values, es, im, e, p, w);
    }
  }

  lemma EntryIsSet(r: Spec, e: Entry)
    requires e in Entries(r, FIELDS)
    ensures FieldValue(r, e.field) == Some(e.value)
  {
    EntriesDistinct(r, FIELDS);
  }

  lemma SetIsEntry(r: Spec, f: Field) returns (e: Entry)
    requires FieldValue(r, f).Some?
    ensures e in Entries(r, FIELDS) && e.field == f
  {
    AllFields(f);
    EntriesDistinct(r, FIELDS);
    e := Entry(f, FieldValue(r, f).value);
  }

  lemma WarningFrom(values: Tree, es: seq<Entry>, im: InjectionMap, w: Warning) returns (e: Entry, p: string)
    requires w in ExpectedWarnings(values, DeclaredWrites(es, im))
    ensures e in es && p in PathsFor(im, e.field) && Warned(values, p, e.field, w)
  {
    var ws := DeclaredWrites(es, im);
    ExpectedMembers(values, ws, w);
    var i :| 0 <= i < |ws| && w in WarningFor(values, ws[i]);
    e, p := DeclaredFrom(es, im, i);
    WarningMeans(values, e, p, w);
  }

  lemma WarningGiven(values: Tree, es: seq<Entry>, im: InjectionMap, e: Entry, p: string, w: Warning)
    requires e in es && p in PathsFor(im, e.field) && Warned(values, p, e.field, w)
    ensures w in ExpectedWarnings(values, DeclaredWrites(es, im))
  {
    var ws := DeclaredWrites(es, im);
    DeclaredCovers(es, im, e, p);
    var i :| 0 <= i < |ws| && ws[i] == DeclaredWrite(e, p);
    WarningMeans(values, e, p, w);
    ExpectedMembers(values, ws, w);
  }

  lemma {:induction false} ExpectedMembers(t: Tree, ws: seq<Write>, w: Warning)
    ensures w in ExpectedWarnings(t, ws) <==> exists i :: 0 <= i < |ws| && w in WarningFor(t, ws[i])
  {
    if ws != [] {
      var e := |ws| - 1;
      ExpectedMembers(t, ws[..e], w);
      assert forall i :: 0 <= i < e ==> ws[..e][i] == ws[i];
    }
  }

  /** Every declared write comes from an entry and a path declared for its field. */
  lemma {:induction false} DeclaredFrom(es: seq<Entry>, im: InjectionMap, i: nat) returns (e: Entry, path: string)
    requires i < |DeclaredWrites(es, im)|
    ensures e in es && path in PathsFor(im, e.field) && DeclaredWrites(es, im)[i] == DeclaredWrite(e, path)
  {
    var k := |es| - 1;
    var before := DeclaredWrites(es[..k], im);
    if i < |before| {
      e, path := DeclaredFrom(es[..k], im, i);
    } else {
      e := es[k];
      path := PathFrom(e, PathsFor(im, e.field), i - |before|);
    }
  }

  lemma {:induction false} PathFrom(e: Entry, paths: seq<string>, i: nat) returns (path: string)
    requires i < |WritesFor(e, paths)|
    ensures path in paths && WritesFor(e, paths)[i] == DeclaredWrite(e, path)
  {
    var k := |paths| - 1;
    if i < |WritesFor(e, paths[..k])| {
      path := PathFrom(e, paths[..k], i);
    } else {
      path := paths[k];
    }
  }

  // ---- the selector gated is the selector placed ----------------------------

  function SelectorValue(sel: Selector): Value {
    Obj(map k | k in sel :: Str(sel[k]))
  }

  /** The chart is told to place its pods on exactly these labels. */
  ghost predicate Places(t: Tree, sel: Selector) {
    var v := Get(t, ["_exalsius", "scheduling", "nodeSelector"]);
    && v.Some? && v.value.Obj? && v.value.fields.Keys == sel.Keys
    && forall k :: k in sel ==> v.value.fields[k] == Str(sel[k])
  }

  /** The chart is told to request this GPU resource. */
  ghost predicate Requests(t: Tree, resource: string) {
    Get(t, ["_exalsius", "resources", "perReplica", "gpuResourceName"]) == Some(Str(resource))
  }

  /** `resolveGPUResource`: fills in the vendor, returns the GPU resource name. */
  ghost function ResolveGpu(r: Spec, nodes: Option<seq<Node>>): (Spec, string) {
    var sel := GpuSelectorOf(r);
    var avail := if nodes.Some? then SelectorSummary(nodes.value, [], sel) else Summary(false, 0, "", "");
    if avail.found then
      (if r.gpuVendor.None? then r.(gpuVendor := Some(avail.vendor)) else r, avail.resourceName)
    else (r, if r.gpuVendor.Some? then ResourceForVendor(r.gpuVendor.value) else "")
  }

  function ResourceForVendor(vendor: string): string {
    if vendor == VENDOR_RESOURCES[0].vendor then VENDOR_RESOURCES[0].resourceName
    else if vendor == VENDOR_RESOURCES[1].vendor then VENDOR_RESOURCES[1].resourceName
    else ""
  }

  method ResolveGpuResource(r: Spec, nodes: Option<seq<Node>>) returns (resolved: Spec, resourceName: string)
    ensures (resolved, resourceName) == ResolveGpu(r, nodes)
  {
    resolved := r;
    if |GpuSelectorOf(r)| > 0 && nodes.Some? {
      var avail := AvailabilityForSelector(nodes.value, [], GpuSelectorOf(r));
      if avail.found {
        if r.gpuVendor.None? {
          resolved := r.(gpuVendor := Some(avail.vendor));
        }
        return resolved, avail.resourceName;
      }
    }
    resourceName := if r.gpuVendor.Some? then ResourceForVendor(r.gpuVendor.value) else "";
  }

  /** The values `startDeployment` puts on the ServiceSet: merged values, injected
      resources, then the selector and the GPU resource name. */
  ghost function Composed(defaults: Tree, user: Tree, r: Spec, im: InjectionMap, nodes: Option<seq<Node>>): Tree {
    var (resolved, name) := ResolveGpu(r, nodes);
    var t, sel := Injected(defaults + user, resolved, im), GpuSelectorOf(resolved);
    var placed := if sel == map[] then t else Put(t, NODE_SELECTOR, SelectorValue(sel));
    if name == "" then placed else Put(placed, RESOURCE_NAME, Str(name))
  }

  method ComposeValues(defaults: Tree, user: Tree, r: Spec, im: InjectionMap, nodes: Option<seq<Node>>)
      returns (t: Tree, warnings: seq<Warning>)
    ensures t == Composed(defaults, user, r, im, nodes)
  {
    var resolved, name := ResolveGpuResource(r, nodes);
    t, warnings := InjectResources(defaults + user, resolved, im);
    var sel := GpuSelectorOf(resolved);
    if |sel| > 0 {
      var placed, _, _ := SetNestedValue(t, NODE_SELECTOR, SelectorValue(sel));
      t := placed;
    }
    if name != "" {
      var named, _, _ := SetNestedValue(t, RESOURCE_NAME, Str(name));
      t := named;
    }
  }

  /** For every class, override, value tree and injection map, even one that
      targets `_exalsius` itself: the selector the chart places is the selector
      the gate evaluated, and a node the gate counted carries all of it. */
  lemma GatedIsPlaced(class_: Spec, user: Option<Spec>, defaults: Tree, values: Tree, im: InjectionMap,
                      nodes: Option<seq<Node>>, gateNodes: seq<Node>, gatePods: seq<Pod>)
    requires GpuSelectorOf(MergeResources(class_, user)) != map[]
    ensures var r := MergeResources(class_, user);
            var sel := GpuSelectorOf(r);
            && Places(Composed(defaults, values, r, im, nodes), sel)
            && ((forall k :: k in sel ==> sel[k] != "") ==>
                  && (forall n :: n in gateNodes && Usable(n) && Reads(n, sel) ==> Carries(n, sel))
                  && (SelectorSummary(gateNodes, gatePods, sel).found ==>
                        exists n :: n in gateNodes && Usable(n) && Capacity(n) > 0 && Carries(n, sel)))
  {
    var r := MergeResources(class_, user);
    var sel := GpuSelectorOf(r);
    PlacedIsSelector(defaults, values, r, im, nodes);
    if (forall k :: k in sel ==> sel[k] != "") && SelectorSummary(gateNodes, gatePods, sel).found {
      FoundCarries(gateNodes, gatePods, sel);
    }
  }

  lemma FoundCarries(nodes: seq<Node>, pods: seq<Pod>, sel: Selector)
    requires (forall k :: k in sel ==> sel[k] != "") && SelectorSummary(nodes, pods, sel).found
    ensures exists n :: n in nodes && Usable(n) && Capacity(n) > 0 && Carries(n, sel)
  {
    SummaryMeaning(nodes, pods, sel);
    var i :| 0 <= i < |nodes| && Provides(nodes[i], sel);
    assert Carries(nodes[i], sel) && nodes[i] in nodes;
  }

  lemma PlacedIsSelector(defaults: Tree, values: Tree, r: Spec, im: InjectionMap, nodes: Option<seq<Node>>)
    requires GpuSelectorOf(r) != map[]
    ensures Places(Composed(defaults, values, r, im, nodes), GpuSelectorOf(r))
  {
    var sel := GpuSelectorOf(r);
    var (resolved, name) := ResolveGpu(r, nodes);
    assert GpuSelectorOf(resolved) == sel;
    var t := Injected(defaults + values, resolved, im);
    GetPut(t, NODE_SELECTOR, SelectorValue(sel));
    assert !Comparable(RESOURCE_NAME, NODE_SELECTOR) by { assert RESOURCE_NAME[1] != NODE_SELECTOR[1]; }
    GetPutOther(Put(t, NODE_SELECTOR, SelectorValue(sel)), RESOURCE_NAME, Str(name), NODE_SELECTOR);
  }

  lemma NamedIsRequested(defaults: Tree, values: Tree, r: Spec, im: InjectionMap, nodes: Option<seq<Node>>)
    requires ResolveGpu(r, nodes).1 != ""
    ensures Requests(Composed(defaults, values, r, im, nodes), ResolveGpu(r, nodes).1)
  {
    var (resolved, name) := ResolveGpu(r, nodes);
    var t, sel := Injected(defaults + values, resolved, im), GpuSelectorOf(resolved);
    GetPut(if sel == map[] then t else Put(t, NODE_SELECTOR, SelectorValue(sel)), RESOURCE_NAME, Str(name));
  }

  /** The GPU resource the chart requests is that of the first node that provides the
      selector, NVIDIA before AMD, and an unset vendor becomes that node's. */
  lemma RequestsWhatIsThere(defaults: Tree, values: Tree, r: Spec, im: InjectionMap, nodes: seq<Node>, i: nat)
    requires GpuSelectorOf(r) != map[] && i < |nodes| && Provides(nodes[i], GpuSelectorOf(r))
    requires forall j :: 0 <= j < i ==> !Provides(nodes[j], GpuSelectorOf(r))
    ensures var nvidia := Advertised(nodes[i], "nvidia.com/gpu") > 0;
            && Requests(Composed(defaults, values, r, im, Some(nodes)),
                        if nvidia then "nvidia.com/gpu" else "amd.com/gpu")
            && ResolveGpu(r, Some(nodes)).0.gpuVendor ==
                 (if r.gpuVendor.Some? then r.gpuVendor else Some(if nvidia then "NVIDIA" else "AMD"))
  {
    FirstMeans(nodes, GpuSelectorOf(r), i);
    NamedIsRequested(defaults, values, r, im, Some(nodes));
  }

  /** Without such a node, or without a listing, it is that of the vendor the
      request names, and the request stays as it is. */
  lemma RequestsByVendor(defaults: Tree, values: Tree, r: Spec, im: InjectionMap, nodes: Option<seq<Node>>)
    requires GpuSelectorOf(r) == map[] || nodes.None? || !Offered(nodes.value, GpuSelectorOf(r))
    ensures ResolveGpu(r, nodes).0 == r
    ensures var t := Composed(defaults, values, r, im, nodes);
            && (r.gpuVendor == Some("NVIDIA") ==> Requests(t, "nvidia.com/gpu"))
            && (r.gpuVendor == Some("AMD") ==> Requests(t, "amd.com/gpu"))
  {
    if GpuSelectorOf(r) != map[] && nodes.Some? {
      SummaryMeaning(nodes.value, [], GpuSelectorOf(r));
    }
    assert "NVIDIA"[0] != "AMD"[0];
    if r.gpuVendor == Some("NVIDIA") || r.gpuVendor == Some("AMD") {
      NamedIsRequested(defaults, values, r, im, nodes);
    }
  }

  lemma OutsideKept(values: Tree, r: Spec, im: InjectionMap, k: string)
    requires k != "_exalsius"
    requires forall w :: w in DeclaredWrites(Entries(r, FIELDS), im) ==> Avoids(w, [k])
    ensures Kept(Injected(values, r, im), values, [k])
  {
    var es := Entries(r, FIELDS);
    var ws := DeclaredWrites(es, im);
    StandardSection(values, r);
    assert Untargeted(r, [k]) by {
      assert PER_REPLICA[0] == EXALSIUS && [k][0] == k;
      forall f ensures !Comparable(StandardPath(f), [k]) { assert StandardPath(f)[0] == EXALSIUS; }
    }
    forall i | 0 <= i < |ws| ensures Avoids(ws[i], [k]) { assert ws[i] in ws; }
    WritesFrame(Standard(values, es), ws, [k]);
  }

  /** The user's values win over the class's, key by key at the top level, wherever
      no declared path reaches. */
  lemma UserValuesWin(defaults: Tree, values: Tree, r: Spec, im: InjectionMap, nodes: Option<seq<Node>>, k: string)
    requires k != "_exalsius"
    requires forall w :: w in DeclaredWrites(Entries(ResolveGpu(r, nodes).0, FIELDS), im) ==> Avoids(w, [k])
    ensures Get(Composed(defaults, values, r, im, nodes), [k]) ==
              if k in values then Some(values[k]) else if k in defaults then Some(defaults[k]) else None
  {
    var (resolved, name) := ResolveGpu(r, nodes);
    var t, sel := Injected(defaults + values, resolved, im), GpuSelectorOf(resolved);
    OutsideKept(defaults + values, resolved, im, k);
    assert !Comparable(NODE_SELECTOR, [k]) && !Comparable(RESOURCE_NAME, [k]);
    GetPutOther(t, NODE_SELECTOR, SelectorValue(sel), [k]);
    var placed := if sel == map[] then t else Put(t, NODE_SELECTOR, SelectorValue(sel));
    GetPutOther(placed, RESOURCE_NAME, Str(name), [k]);
  }
}
