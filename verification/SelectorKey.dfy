/** The comparison key of a node-label selector: sorted `k=v;` entries. Both the
    FCFS grouping and the offering index compare selectors through it. */
module SelectorKey {
  import opened Text

  type Selector = map<string, string>

  ghost predicate Ascending(s: seq<string>) {
    forall i, j :: 0 <= i < j < |s| ==> Before(s[i], s[j])
  }

  function Members(s: seq<string>): set<string> {
    set k | k in s
  }

  lemma NoMembers(s: seq<string>)
    ensures Members(s) == {} <==> s == []
  {
    if s != [] {
      assert s[0] in Members(s);
    }
  }

  /** A set of keys has only one ascending listing. */
  lemma {:induction false} AscendingUnique(a: seq<string>, b: seq<string>)
    requires Ascending(a) && Ascending(b) && Members(a) == Members(b)
    ensures a == b
  {
    NoMembers(a);
    NoMembers(b);
    if a != [] && b != [] {
      HeadIsFirst(a, b);
      HeadIsFirst(b, a);
      BeforeAntisymmetric(a[0], b[0]);
      TailMembers(a);
      TailMembers(b);
      AscendingUnique(a[1..], b[1..]);
    }
  }

  lemma HeadIsFirst(a: seq<string>, b: seq<string>)
    requires a != [] && b != [] && Ascending(a) && Members(a) == Members(b)
    ensures a[0] == b[0] || Before(a[0], b[0])
  {
    assert b[0] in Members(a);
    var i :| 0 <= i < |a| && a[i] == b[0];
  }

  lemma BeforeAntisymmetric(a: string, b: string)
    requires a == b || Before(a, b)
    requires a == b || Before(b, a)
    ensures a == b
  {
  }

  lemma TailMembers(a: seq<string>)
    requires a != [] && Ascending(a)
    ensures Ascending(a[1..]) && Members(a[1..]) == Members(a) - {a[0]}
  {
    BeforeIrreflexive(a[0]);
    assert forall k :: k in a[1..] ==> k in a && k != a[0] by {
      forall k | k in a[1..] ensures k in a && k != a[0] {
        var i :| 0 <= i < |a[1..]| && a[1..][i] == k;
        assert a[i + 1] == k;
      }
    }
    assert forall k :: k in a && k != a[0] ==> k in a[1..] by {
      forall k | k in a && k != a[0] ensures k in a[1..] {
        var i :| 0 <= i < |a| && a[i] == k;
        assert a[1..][i - 1] == k;
      }
    }
  }

  function Insert(k: string, s: seq<string>): (r: seq<string>) {
    if s == [] then [k]
    else if Before(k, s[0]) then [k] + s
    else [s[0]] + Insert(k, s[1..])
  }

  lemma {:induction false} InsertAscending(k: string, s: seq<string>)
    requires Ascending(s) && k !in s
    ensures Ascending(Insert(k, s)) && Members(Insert(k, s)) == Members(s) + {k}
  {
    if s == [] {
    } else if Before(k, s[0]) {
      forall j | 0 <= j < |s| ensures Before(k, s[j]) {
        if j > 0 { BeforeTransitive(k, s[0], s[j]); }
      }
    } else {
      var t := Insert(k, s[1..]);
      BeforeTotal(k, s[0]);
      TailMembers(s);
      InsertAscending(k, s[1..]);
      forall j | 0 <= j < |t| ensures Before(s[0], t[j]) {
        assert t[j] in Members(t);
        if t[j] != k {
          assert t[j] in s[1..];
          var i :| 0 <= i < |s[1..]| && s[1..][i] == t[j];
          assert s[i + 1] == t[j];
        }
      }
      assert Members([s[0]] + t) == {s[0]} + Members(t);
    }
  }

  /** The keys of a set in ascending order. */
  ghost function Listing(keys: set<string>): (r: seq<string>)
    ensures Ascending(r) && Members(r) == keys
    decreases |keys|
  {
    if keys == {} then []
    else
      var k :| k in keys;
      var rest := Listing(keys - {k});
      assert k !in rest by { assert k !in Members(rest); }
      InsertAscending(k, rest);
      Insert(k, rest)
  }

  function Entry(k: string, v: string): string {
    k + "=" + v + ";"
  }

  function Render(keys: seq<string>, sel: Selector): string
    requires forall k :: k in keys ==> k in sel
  {
    if keys == [] then "" else Entry(keys[0], sel[keys[0]]) + Render(keys[1..], sel)
  }

  /** What both serializers compute: the sorted rendering of a selector. */
  ghost function Key(sel: Selector): string {
    var keys := Listing(sel.Keys);
    assert forall k :: k in keys ==> k in Members(keys);
    Render(keys, sel)
  }

  /** Go's map iteration: the keys, once each, in an order the caller cannot
      choose. */
  method CollectKeys(sel: Selector) returns (keys: seq<string>)
    ensures Members(keys) == sel.Keys
    ensures forall i, j :: 0 <= i < j < |keys| ==> keys[i] != keys[j]
  {
    keys := [];
    var rest := sel.Keys;
    while rest != {}
      invariant rest <= sel.Keys
      invariant Members(keys) == sel.Keys - rest
      invariant forall i, j :: 0 <= i < j < |keys| ==> keys[i] != keys[j]
      decreases |rest|
    {
      var k :| k in rest;
      assert k !in Members(keys);
      assert Members(keys + [k]) == Members(keys) + {k};
      keys := keys + [k];
      rest := rest - {k};
    }
  }

  /** `sort.Strings` on distinct keys. */
  method SortStrings(keys: seq<string>) returns (sorted: seq<string>)
    requires forall i, j :: 0 <= i < j < |keys| ==> keys[i] != keys[j]
    ensures sorted == Listing(Members(keys))
  {
    sorted := [];
    for i := 0 to |keys|
      invariant Ascending(sorted) && Members(sorted) == Members(keys[..i])
    {
      assert keys[i] !in Members(sorted);
      InsertAscending(keys[i], sorted);
      sorted := Insert(keys[i], sorted);
      assert keys[..i + 1] == keys[..i] + [keys[i]];
    }
    assert keys[..|keys|] == keys;
    AscendingUnique(sorted, Listing(Members(keys)));
  }

  lemma RenderStep(b: string, keys: seq<string>, i: nat, sel: Selector)
    requires i < |keys| && forall k :: k in keys ==> k in sel
    ensures b + Render(keys[i..], sel)
         == b + Entry(keys[i], sel[keys[i]]) + Render(keys[i + 1..], sel)
  {
  }

  method WriteEntries(keys: seq<string>, sel: Selector) returns (b: string)
    requires forall k :: k in keys ==> k in sel
    ensures b == Render(keys, sel)
  {
    b := "";
    for i := 0 to |keys|
      invariant b + Render(keys[i..], sel) == Render(keys, sel)
    {
      RenderStep(b, keys, i, sel);
      b := b + Entry(keys[i], sel[keys[i]]);
    }
    assert keys[|keys|..] == [];
  }

  /** `selectorKey` / `selectorIdentity`: the map is walked in any order Go
      chooses, yet the result is always the one key of the selector. */
  method Serialize(sel: Selector) returns (key: string)
    ensures key == Key(sel)
  {
    var keys := CollectKeys(sel);
    var sorted := SortStrings(keys);
    assert forall k :: k in sorted ==> k in Members(sorted);
    key := WriteEntries(sorted, sel);
  }

  /** Kubernetes label syntax: no `=` in a key, no `;` in a value. */
  predicate LabelSyntax(sel: Selector) {
    forall k :: k in sel ==> '=' !in k && ';' !in sel[k]
  }

  lemma {:induction false} RenderInjective(ka: seq<string>, a: Selector, kb: seq<string>, b: Selector)
    requires forall k :: k in ka ==> k in a
    requires forall k :: k in kb ==> k in b
    requires LabelSyntax(a) && LabelSyntax(b)
    requires Render(ka, a) == Render(kb, b)
    ensures ka == kb
    ensures forall k :: k in ka ==> a[k] == b[k]
  {
    if ka != [] && kb != [] {
      var x, y := ka[0], kb[0];
      var ra, rb := Render(ka[1..], a), Render(kb[1..], b);
      var va, vb := a[x] + ";" + ra, b[y] + ";" + rb;
      assert Render(ka, a) == x + "=" + va && Render(kb, b) == y + "=" + vb;
      CutUnique(x, va, y, vb, '=');
      CutUnique(a[x], ra, b[y], rb, ';');
      RenderInjective(ka[1..], a, kb[1..], b);
      assert ka == [x] + ka[1..] && kb == [y] + kb[1..];
    }
  }

  /** Equal keys mean equal selectors, so grouping by key groups by selector. */
  lemma KeyInjective(a: Selector, b: Selector)
    requires LabelSyntax(a) && LabelSyntax(b)
    ensures Key(a) == Key(b) <==> a == b
  {
    if Key(a) == Key(b) {
      var ka, kb := Listing(a.Keys), Listing(b.Keys);
      assert forall k :: k in ka <==> k in Members(ka);
      assert forall k :: k in kb <==> k in Members(kb);
      RenderInjective(ka, a, kb, b);
    }
  }

  /** Outside label syntax the key is ambiguous: here a `=` inside a name. */
  lemma KeyAmbiguous()
    ensures var a: Selector := map["=" := ""]; var b: Selector := map["" := "="]; a != b && Key(a) == Key(b)
  {
    var a: Selector := map["=" := ""];
    assert "=" in a;
    KeySingle("=", "");
    KeySingle("", "=");
    assert Entry("=", "") == Entry("", "=");
  }

  /** Any ascending listing of the keys yields the key. */
  lemma KeyOf(keys: seq<string>, sel: Selector)
    requires Ascending(keys) && Members(keys) == sel.Keys
    requires forall k :: k in keys ==> k in sel
    ensures Key(sel) == Render(keys, sel)
  {
    AscendingUnique(keys, Listing(sel.Keys));
  }

  /** A single-entry selector renders as `k=v;`. */
  lemma KeySingle(k: string, v: string)
    ensures Key(map[k := v]) == k + "=" + v + ";" == Entry(k, v)
  {
    var sel: Selector := map[k := v];
    assert Members([k]) == sel.Keys;
    KeyOf([k], sel);
    assert [k][1..] == [];
    assert Render([k], sel) == Entry(k, v) + "";
  }

  /** Two entries come in the order of their names. */
  lemma KeyPair(k: string, v: string, k': string, v': string)
    requires Before(k, k')
    ensures Key(map[k := v, k' := v']) == (k + "=" + v + ";") + (k' + "=" + v' + ";")
  {
    BeforeIrreflexive(k);
    var sel: Selector := map[k := v, k' := v'];
    assert Members([k, k']) == sel.Keys;
    KeyOf([k, k'], sel);
    RenderPair(k, k', sel);
  }

  lemma RenderPair(k: string, k': string, sel: Selector)
    requires k in sel && k' in sel
    ensures Render([k, k'], sel) == Entry(k, sel[k]) + Entry(k', sel[k'])
  {
    assert [k, k'][1..] == [k'] && [k'][1..] == [];
    assert Render([k'], sel) == Entry(k', sel[k']) + "";
  }

  /** Single-entry keys: `=`-free names are recoverable, whatever the values. */
  lemma SingleKeyInjective(k: string, v: string, k': string, v': string)
    requires '=' !in k && '=' !in k'
    ensures Key(map[k := v]) == Key(map[k' := v']) <==> k == k' && v == v'
    ensures Key(map[k := v]) != Key(map[])
  {
    KeySingle(k, v);
    KeySingle(k', v');
    KeyOf([], map[]);
    var r, r' := v + ";", v' + ";";
    assert Entry(k, v) == k + "=" + r && Entry(k', v') == k' + "=" + r';
    if Entry(k, v) == Entry(k', v') {
      CutUnique(k, r, k', r', '=');
      assert v == r[..|v|] && v' == r'[..|v'|];
    }
  }
}
