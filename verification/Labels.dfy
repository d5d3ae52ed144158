/** Labels of a namespace, and bringing them up to what the operator wants. */
module Labels {

  /** Go's `labels[k]`: a missing label reads as "". */
  function Lookup(labels: map<string, string>, k: string): string {
    if k in labels then labels[k] else ""
  }

  /** The labels that are absent or have another value. */
  function Differing(labels: map<string, string>, desired: map<string, string>): map<string, string> {
    map k | k in desired && Lookup(labels, k) != desired[k] :: desired[k]
  }

  /** `applyMissingLabels`: a label is written where its value differs. */
  function Healed(labels: map<string, string>, desired: map<string, string>): map<string, string> {
    labels + Differing(labels, desired)
  }

  /** Afterwards every desired label reads as desired, every other one as before. */
  lemma HealedReads(labels: map<string, string>, desired: map<string, string>, k: string)
    ensures Lookup(Healed(labels, desired), k) == if k in desired then desired[k] else Lookup(labels, k)
  {
  }

  /** `applyMissingLabels`. */
  method ApplyMissingLabels(labels: map<string, string>, desired: map<string, string>)
      returns (healed: map<string, string>, changed: bool)
    ensures healed == Healed(labels, desired) && (changed <==> Differing(labels, desired) != map[])
  {
    healed, changed := labels, false;
    var keys := desired.Keys;
    ghost var done: map<string, string>, written: map<string, string> := map[], map[];
    while keys != {}
      invariant keys !! done.Keys && done.Keys + keys == desired.Keys && forall k :: k in done ==> done[k] == desired[k]
      invariant written == Differing(labels, done) && healed == labels + written && (changed <==> written != map[])
    {
      var k :| k in keys;
      DifferingNext(labels, done, k, desired[k]);
      if Lookup(healed, k) != desired[k] {
        OverlayNext(labels, written, k, desired[k]);
        healed, changed, written := healed[k := desired[k]], true, written[k := desired[k]];
        assert k in written;
      }
      keys, done := keys - {k}, done[k := desired[k]];
    }
    assert done == desired;
  }

  lemma DifferingNext(labels: map<string, string>, done: map<string, string>, k: string, v: string)
    requires k !in done
    ensures var d := Differing(labels, done);
            && k !in d && Lookup(labels + d, k) == Lookup(labels, k)
            && Differing(labels, done[k := v]) == if Lookup(labels, k) != v then d[k := v] else d
  {
  }

  lemma OverlayNext(m: map<string, string>, w: map<string, string>, k: string, v: string)
    ensures (m + w)[k := v] == m + w[k := v]
  {
  }
}
