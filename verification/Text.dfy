/** Strings as the operator compares them: strict lexicographic order, which is
    what Go's `<` on strings and `sort.Strings` use. */
module Text {

  datatype Option<+T> = None | Some(value: T)

  /** What an API server answers to a Get. */
  datatype Fetch<+T> = Got(item: T) | NotFound | Unavailable

  /** What it answers to a Create or an Update; only a Create finds that someone
      was faster. */
  datatype Creation = Written | AlreadyExists | Refused

  predicate Before(a: string, b: string) {
    && b != ""
    && (a == "" || a[0] < b[0] || (a[0] == b[0] && Before(a[1..], b[1..])))
  }

  lemma {:induction false} BeforeIrreflexive(a: string)
    ensures !Before(a, a)
  {
    if a != "" {
      BeforeIrreflexive(a[1..]);
    }
  }

  lemma {:induction false} BeforeTransitive(a: string, b: string, c: string)
    requires Before(a, b) && Before(b, c)
    ensures Before(a, c)
  {
    if a != "" && a[0] == b[0] == c[0] {
      BeforeTransitive(a[1..], b[1..], c[1..]);
    }
  }

  lemma {:induction false} BeforeTotal(a: string, b: string)
    ensures a == b || Before(a, b) || Before(b, a)
  {
    if a != "" && b != "" && a[0] == b[0] {
      BeforeTotal(a[1..], b[1..]);
      assert a == [a[0]] + a[1..] && b == [b[0]] + b[1..];
    }
  }

  /** The order is decided at the first difference, by the smaller character or by
      the shorter string. */
  lemma {:induction false} BeforeDecides(p: string, x: char, s: string, y: char, t: string)
    requires x != y
    ensures Before(p + [x] + s, p + [y] + t) <==> x < y
    ensures Before(p, p + [y] + t) && !Before(p + [y] + t, p)
  {
    if p != "" {
      var c := p[0];
      BeforeDecides(p[1..], x, s, y, t);
      assert (p + [x] + s)[1..] == p[1..] + [x] + s && (p + [y] + t)[1..] == p[1..] + [y] + t;
    }
  }

  /** A separator absent from both heads cuts a string in only one place. */
  lemma {:induction false} CutUnique(a: string, ra: string, b: string, rb: string, c: char)
    requires c !in a && c !in b
    requires a + [c] + ra == b + [c] + rb
    ensures a == b && ra == rb
  {
    var s, t := a + [c] + ra, b + [c] + rb;
    assert s[|a|] == c && t[|b|] == c;
    assert forall i :: 0 <= i < |a| ==> s[i] == a[i];
    assert forall i :: 0 <= i < |b| ==> t[i] == b[i];
    assert |a| == |b|;
    assert a == s[..|a|] && b == t[..|b|];
    assert ra == s[|a| + 1..] && rb == t[|b| + 1..];
  }
}
