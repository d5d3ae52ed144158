/** Decoded Helm values and the nested writer. Go's maps are references; decoded
    values are trees, so they are modelled as values. */
module ValueTree {
  import opened Text

  datatype Value =
    | Null | Bool(b: bool) | Num(n: int) | Str(s: string)
    | Arr(items: seq<Value>) | Obj(fields: Tree)

  type Tree = map<string, Value>

  /** The value at a path, walking objects only. */
  function Get(t: Tree, p: seq<string>): Option<Value>
    decreases |p|
  {
    if p == [] then Some(Obj(t))
    else if p[0] !in t then None
    else if |p| == 1 then Some(t[p[0]])
    else if t[p[0]].Obj? then Get(t[p[0]].fields, p[1..])
    else None
  }

  /** The map to descend into: the existing object, or a fresh one. */
  function Child(t: Tree, k: string): Tree {
    if k in t && t[k].Obj? then t[k].fields else map[]
  }

  function Put(t: Tree, p: seq<string>, v: Value): Tree
    requires p != []
    decreases |p|
  {
    if |p| == 1 then t[p[0] := v]
    else t[p[0] := Obj(Put(Child(t, p[0]), p[1..], v))]
  }

  /** Makes every step of `p` an object. */
  function EnsureObject(t: Tree, p: seq<string>): Tree
    decreases |p|
  {
    if p == [] then t else t[p[0] := Obj(EnsureObject(Child(t, p[0]), p[1..]))]
  }

  predicate Comparable(p: seq<string>, q: seq<string>) {
    p <= q || q <= p
  }

  lemma {:induction false} GetPut(t: Tree, p: seq<string>, v: Value)
    requires p != []
    ensures Get(Put(t, p, v), p) == Some(v)
    decreases |p|
  {
    if |p| > 1 {
      GetPut(Child(t, p[0]), p[1..], v);
    }
  }

  lemma {:induction false} GetPutOther(t: Tree, p: seq<string>, v: Value, q: seq<string>)
    requires p != [] && !Comparable(p, q)
    ensures Get(Put(t, p, v), q) == Get(t, q)
    decreases |p|
  {
    assert q != [];
    if p[0] == q[0] {
      assert p == [p[0]] + p[1..] && q == [q[0]] + q[1..];
      assert |p| > 1 && |q| > 1;
      GetPutOther(Child(t, p[0]), p[1..], v, q[1..]);
      ChildGet(t, q);
    }
  }

  lemma ChildGet(t: Tree, q: seq<string>)
    requires |q| > 1
    ensures Get(t, q) == Get(Child(t, q[0]), q[1..])
  {
  }

  /** Objects are only ever added along `p` itself. */
  lemma {:induction false} GetEnsureObject(t: Tree, p: seq<string>, q: seq<string>)
    requires !(q <= p)
    ensures Get(EnsureObject(t, p), q) == Get(t, q)
    decreases |p|
  {
    if p != [] && p[0] == q[0] {
      assert p == [p[0]] + p[1..] && q == [q[0]] + q[1..];
      assert q[1..] != [];
      GetEnsureObject(Child(t, p[0]), p[1..], q[1..]);
      ChildGet(t, q);
      ChildGet(EnsureObject(t, p), q);
    }
  }

  predicate IsObject(v: Option<Value>) {
    v.Some? && v.value.Obj?
  }

  /** And every step of it is one. */
  lemma {:induction false} EnsuredIsObject(t: Tree, p: seq<string>)
    ensures IsObject(Get(EnsureObject(t, p), p))
    decreases |p|
  {
    if p != [] {
      EnsuredIsObject(Child(t, p[0]), p[1..]);
      if |p| > 1 {
        ChildGet(EnsureObject(t, p), p);
      }
    }
  }

  /** A write elsewhere or further down leaves an object an object. */
  lemma {:induction false} PutKeepsObject(t: Tree, p: seq<string>, v: Value, q: seq<string>)
    requires p != [] && !(p <= q) && IsObject(Get(t, q))
    ensures IsObject(Get(Put(t, p, v), q))
    decreases |p|
  {
    if q != [] && p[0] == q[0] {
      assert p == [p[0]] + p[1..] && q == [q[0]] + q[1..];
      assert |p| > 1;
      if |q| > 1 {
        ChildGet(t, q);
        ChildGet(Put(t, p, v), q);
        PutKeepsObject(Child(t, p[0]), p[1..], v, q[1..]);
      }
    }
  }

  predicate NonNull(v: Option<Value>) {
    v.Some? && v.value != Null
  }

  // ---- the writer -----------------------------------------------------------

  /** Stores a subtree back through the maps it was reached by. */
  function Rebuild(spine: seq<Tree>, segs: seq<string>, t: Tree): Tree
    requires |spine| == |segs|
  {
    if spine == [] then t
    else
      var e := |spine| - 1;
      Rebuild(spine[..e], segs[..e], spine[e][segs[e] := Obj(t)])
  }

  /** `setNestedValue`: writes the leaf, reports the leaf it replaced; an empty
      path writes nothing. A flag raised for a destroyed intermediate is dropped by
      the return at the leaf. */
  method SetNestedValue(t: Tree, path: seq<string>, value: Value)
      returns (result: Tree, previous: Option<Value>, overwritten: bool)
    ensures path == [] ==> result == t && previous.None? && !overwritten
    ensures path != [] ==>
        result == Put(t, path, value) && previous == Get(t, path) && overwritten == NonNull(Get(t, path))
  {
    overwritten := false;
    if path == [] {
      return t, None, false;
    }
    var cur, spine: seq<Tree> := t, [];
    var e := |path| - 1;
    assert path[0..] == path;
    for i := 0 to e
      invariant |spine| == i
      invariant Rebuild(spine, path[..i], Put(cur, path[i..], value)) == Put(t, path, value)
      invariant Get(cur, path[i..]) == Get(t, path)
    {
      var seg := path[i];
      assert path[i..][1..] == path[i + 1..];
      ChildGet(cur, path[i..]);
      var next: Tree := map[];
      if seg in cur && cur[seg].Obj? {
        next := cur[seg].fields;
      } else if seg in cur && cur[seg] != Null {
        overwritten := true;
      }
      assert (spine + [cur])[..i] == spine && path[..i + 1][..i] == path[..i];
      spine := spine + [cur];
      cur := next;
    }
    var seg := path[e];
    assert path[e..] == [seg];
    previous := if seg in cur then Some(cur[seg]) else None;
    cur := cur[seg := value];
    overwritten := previous.Some? && previous.value != Null;

    result := cur;
    assert spine[..e] == spine;
    var i := e;
    while i > 0
      invariant 0 <= i <= e
      invariant Rebuild(spine[..i], path[..i], result) == Put(t, path, value)
    {
      i := i - 1;
      assert spine[..i + 1][..i] == spine[..i] && path[..i + 1][..i] == path[..i];
      result := spine[i][path[i] := Obj(result)];
    }
  }

  /** A write along `p` would destroy a scalar on the way. */
  ghost predicate Destroys(t: Tree, p: seq<string>) {
    exists i :: 0 < i < |p| && NonNull(Get(t, p[..i])) && !Get(t, p[..i]).value.Obj?
  }

  lemma {:induction false} BelowScalar(t: Tree, p: seq<string>, i: nat)
    requires 0 < i < |p| && Get(t, p[..i]).Some? && !Get(t, p[..i]).value.Obj?
    ensures Get(t, p) == None
    decreases |p|
  {
    if i > 1 {
      assert p[..i][1..] == p[1..][..i - 1];
      ChildGet(t, p[..i]);
      ChildGet(t, p);
      BelowScalar(Child(t, p[0]), p[1..], i - 1);
    } else {
      assert p[..i] == [p[0]];
    }
  }

  /** The writer's comment also counts a replaced intermediate as overwritten. The
      code reports that exactly when no intermediate is destroyed: a destroyed one
      is never reported. */
  lemma ReportIsLeafOnly(t: Tree, p: seq<string>)
    requires p != []
    ensures NonNull(Get(t, p)) == (NonNull(Get(t, p)) || Destroys(t, p)) <==> !Destroys(t, p)
  {
    if Destroys(t, p) {
      var i :| 0 < i < |p| && NonNull(Get(t, p[..i])) && !Get(t, p[..i]).value.Obj?;
      BelowScalar(t, p, i);
    }
  }

  /** Such an input: `a: "x"` and the path `a.b`. */
  lemma DestroyedUnreported()
    ensures var t: Tree := map["a" := Str("x")];
            Destroys(t, ["a", "b"]) && !NonNull(Get(t, ["a", "b"]))
                && Get(Put(t, ["a", "b"], Num(1)), ["a"]) != Some(Str("x"))
  {
    var t: Tree := map["a" := Str("x")];
    assert ["a", "b"][..1] == ["a"];
    assert Get(t, ["a"]) == Some(Str("x"));
    assert Destroys(t, ["a", "b"]);
    ReportIsLeafOnly(t, ["a", "b"]);
  }
}
