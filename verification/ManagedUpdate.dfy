/** The colony controller's update of a ClusterDeployment that others also write:
    read, overlay the managed fields, compare-and-set, retry on conflict. */
module ManagedUpdate {
  import opened Text

  type Labels = map<string, string>

  /** A JSON document: its bytes, and what they decode to, if anything. */
  datatype Json = Json(raw: string, decoded: Option<string>)

  /** A decoded service spec, as a tree. An empty list is not an absent one. */
  datatype Doc = Scalar(text: string) | Absent | List(items: seq<Doc>) | Record(fields: seq<Doc>)

  /** What the API server returns for it: empty lists are not encoded. */
  function Returned(d: Doc): Doc {
    match d
    case Scalar(_) => d
    case Absent => d
    case List(items) => if items == [] then Absent else List(AllReturned(items))
    case Record(fields) => Record(AllReturned(fields))
  }

  function AllReturned(ds: seq<Doc>): (rs: seq<Doc>)
    ensures |rs| == |ds|
  {
    if ds == [] then [] else [Returned(ds[0])] + AllReturned(ds[1..])
  }

  lemma {:induction false} ReturnedTwice(d: Doc)
    ensures Returned(Returned(d)) == Returned(d)
  {
    match d
    case Scalar(_) =>
    case Absent =>
    case List(items) => AllReturnedTwice(items);
    case Record(fields) => AllReturnedTwice(fields);
  }

  lemma {:induction false} AllReturnedTwice(ds: seq<Doc>)
    ensures AllReturned(AllReturned(ds)) == AllReturned(ds)
  {
    if ds != [] {
      ReturnedTwice(ds[0]);
      AllReturnedTwice(ds[1..]);
    }
  }

  /** A ClusterDeployment: the five managed spec fields, the two merged maps (nil
      when absent), and everything else. */
  datatype Object = Object(
    config: Option<Json>, credential: string, template: string, services: Doc, propagate: bool,
    labels: Option<Labels>, annotations: Option<Labels>, others: map<string, string>)

  datatype Desired = Desired(
    config: Option<Json>, credential: string, template: string, services: Doc, propagate: bool,
    labels: Labels, annotations: Labels)

  /** One object on the API server, with its resource version. */
  datatype Store = Store(item: Option<Object>, version: nat)

  /** `jsonConfigsEqual`: equal decoded values; malformed JSON equals nothing. */
  predicate ConfigsEqual(a: Option<Json>, b: Option<Json>) {
    if a.None? || b.None? then a == b
    else a.value.decoded.Some? && a.value.decoded == b.value.decoded
  }

  function Entries(m: Option<Labels>): Labels {
    if m.Some? then m.value else map[]
  }

  /** What one attempt writes, given the object it read. */
  function Overlay(o: Object, d: Desired): Object {
    Object(
      if ConfigsEqual(o.config, d.config) then o.config else d.config,
      d.credential, d.template, d.services, d.propagate,
      Some(Entries(o.labels) + d.labels), Some(Entries(o.annotations) + d.annotations), o.others)
  }

  /** The `changed` flag: a nil map differs from an empty one. */
  predicate Changed(o: Object, d: Desired) {
    || !ConfigsEqual(o.config, d.config) || o.credential != d.credential || o.template != d.template
    || o.services != d.services || o.propagate != d.propagate
    || o.labels != Some(Entries(o.labels) + d.labels) || o.annotations != Some(Entries(o.annotations) + d.annotations)
  }

  function NonEmpty(m: Option<Labels>): Option<Labels> {
    if m == Some(map[]) then None else m
  }

  /** The API server keeps no empty map and no empty list. */
  function Stored(o: Object): Object {
    o.(labels := NonEmpty(o.labels), annotations := NonEmpty(o.annotations), services := Returned(o.services))
  }

  /** A write that changes nothing keeps the version. */
  function Write(s: Store, o: Object): Store {
    if s.item == Some(Stored(o)) then s else Store(Some(Stored(o)), s.version + 1)
  }

  // ---- what an update means -------------------------------------------------

  /** The very same configuration, or one that decodes to the same value. */
  ghost predicate SameConfig(a: Option<Json>, b: Option<Json>) {
    || a == b
    || (a.Some? && b.Some? && a.value.decoded.Some? && b.value.decoded.Some?
        && a.value.decoded.value == b.value.decoded.value)
  }

  /** The object carries what the colony wants. */
  ghost predicate Carries(o: Object, d: Desired) {
    && SameConfig(o.config, d.config)
    && o.credential == d.credential && o.template == d.template
    && Returned(o.services) == Returned(d.services) && o.propagate == d.propagate
    && (forall k :: k in d.labels ==> k in Entries(o.labels) && Entries(o.labels)[k] == d.labels[k])
    && (forall k :: k in d.annotations ==> k in Entries(o.annotations) && Entries(o.annotations)[k] == d.annotations[k])
  }

  /** What is left of an object once the managed fields and keys are taken away. */
  ghost function Unmanaged(o: Object, labels: set<string>, annotations: set<string>): (map<string, string>, Labels,
                           Labels) {
    (o.others, Entries(o.labels) - labels, Entries(o.annotations) - annotations)
  }

  /** An overlay brings every managed field and key to the desired value and
      leaves everything else. */
  lemma OverlayMeans(o: Object, d: Desired, labels: set<string>, annotations: set<string>)
    requires d.labels.Keys <= labels && d.annotations.Keys <= annotations
    ensures Carries(Stored(Overlay(o, d)), d)
    ensures Unmanaged(Stored(Overlay(o, d)), labels, annotations) == Unmanaged(o, labels, annotations)
    ensures NoEmptyList(d.services) ==> Stored(Overlay(o, d)).services == d.services
  {
    ReturnedExactly(d.services);
    var s := Stored(Overlay(o, d));
    ReturnedTwice(d.services);
    assert Entries(s.labels) == Entries(o.labels) + d.labels;
    assert Entries(s.annotations) == Entries(o.annotations) + d.annotations;
    OverlayKeeps(Entries(o.labels), d.labels, labels);
    OverlayKeeps(Entries(o.annotations), d.annotations, annotations);
  }

  lemma OverlayKeeps(m: Labels, extra: Labels, managed: set<string>)
    requires extra.Keys <= managed
    ensures (m + extra) - managed == m - managed
  {
  }

  /** Reporting no change is right: the object already carries everything, and an
      overlay would store the same object. */
  lemma UnchangedMeans(o: Object, d: Desired)
    requires !Changed(o, d)
    ensures Carries(o, d) && Overlay(o, d) == o
  {
  }

  /** An update is reported exactly unless every managed field stands as desired, a
      configuration decodes, and both maps are there with every desired key. */
  lemma ChangedExactly(o: Object, d: Desired)
    ensures !Changed(o, d) <==>
              && SameConfig(o.config, d.config) && (d.config.Some? ==> d.config.value.decoded.Some?)
              && o.credential == d.credential && o.template == d.template
              && o.services == d.services && o.propagate == d.propagate
              && o.labels.Some? && o.annotations.Some?
              && (forall k :: k in d.labels ==> k in o.labels.value && o.labels.value[k] == d.labels[k])
              && (forall k :: k in d.annotations ==>
                    k in o.annotations.value && o.annotations.value[k] == d.annotations[k])
  {
    if o.labels.Some? {
      OverlaidAlready(o.labels.value, d.labels);
    }
    if o.annotations.Some? {
      OverlaidAlready(o.annotations.value, d.annotations);
    }
  }

  lemma OverlaidAlready(m: Labels, extra: Labels)
    ensures m + extra == m <==> forall k :: k in extra ==> k in m && m[k] == extra[k]
  {
    if m + extra == m {
      forall k | k in extra ensures k in m && m[k] == extra[k] {
        assert (m + extra)[k] == extra[k];
      }
    }
  }

  /** No empty list anywhere. */
  ghost predicate NoEmptyList(d: Doc) {
    match d
    case Scalar(_) => true
    case Absent => true
    case List(items) => items != [] && forall i :: 0 <= i < |items| ==> NoEmptyList(items[i])
    case Record(fields) => forall i :: 0 <= i < |fields| ==> NoEmptyList(fields[i])
  }

  /** A service spec comes back as sent exactly when it has no empty list. */
  lemma {:induction false} ReturnedExactly(d: Doc)
    ensures Returned(d) == d <==> NoEmptyList(d)
  {
    match d
    case Scalar(_) =>
    case Absent =>
    case List(items) => AllReturnedExactly(items);
    case Record(fields) => AllReturnedExactly(fields);
  }

  lemma {:induction false} AllReturnedExactly(ds: seq<Doc>)
    ensures AllReturned(ds) == ds <==> forall i :: 0 <= i < |ds| ==> NoEmptyList(ds[i])
  {
    if ds != [] {
      ReturnedExactly(ds[0]);
      AllReturnedExactly(ds[1..]);
      assert ds == [ds[0]] + ds[1..];
    }
  }

  /** A repeated update makes no call exactly when neither merged map is empty, the
      configuration decodes, and the service spec has no empty list. */
  lemma RepeatIsSilent(o: Object, d: Desired)
    ensures !Changed(Stored(Overlay(o, d)), d) <==>
              && Entries(o.labels) + d.labels != map[] && Entries(o.annotations) + d.annotations != map[]
              && (d.config.Some? ==> d.config.value.decoded.Some?)
              && NoEmptyList(d.services)
  {
    ReturnedExactly(d.services);
    var s := Stored(Overlay(o, d));
    var ls, as_ := Entries(o.labels) + d.labels, Entries(o.annotations) + d.annotations;
    assert ls + d.labels == ls && as_ + d.annotations == as_;
    assert Entries(s.labels) == ls && Entries(s.annotations) == as_;
  }

  /** A colony without annotations updates a settled object without annotations
      on every pass. */
  lemma RepeatWrites()
    ensures var o := Object(None, "c", "t", Scalar("s"), true, Some(map["k" := "v"]), None, map[]);
            var d := Desired(None, "c", "t", Scalar("s"), true, map["k" := "v"], map[]);
            Changed(o, d) && Stored(Overlay(o, d)) == o
  {
    var m: Labels := map["k" := "v"];
    var e: Labels := map[];
    assert m + m == m && e + e == e && m["k"] == "v";
    var o := Object(None, "c", "t", Scalar("s"), true, Some(m), None, map[]);
    assert NonEmpty(Some(m)) == Some(m);
  }

  /** So does one whose service spec lists no services, with an empty list. */
  lemma RepeatWritesServices()
    ensures var m: Labels := map["k" := "v"];
            var o := Object(None, "c", "t", Record([Absent]), true, Some(m), Some(m), map[]);
            var d := Desired(None, "c", "t", Record([List([])]), true, m, m);
            Changed(o, d) && Stored(Overlay(o, d)) == o
  {
    var m: Labels := map["k" := "v"];
    assert m + m == m && m["k"] == "v";
    var fields := [List([])];
    assert fields[1..] == [] && AllReturned(fields) == [Absent];
  }

  // ---- the retry loop -------------------------------------------------------

  /** What an attempt meets: its read fails, or between read and write nothing
      happens, others write or delete the object, or the write itself fails. */
  datatype Noise = Unread | Quiet | Overwritten(item: Option<Object>) | Failing

  /** Someone else's write or delete. */
  function Interfere(s: Store, n: Noise): Store {
    if n.Overwritten? then Store(n.item, s.version + 1) else s
  }

  datatype Result = Unchanged | Updated | Exhausted | Failure

  /** The loop as a function of the noise each attempt meets. */
  function Retry(s: Store, d: Desired, noise: seq<Noise>): (Store, Result)
    decreases |noise|
  {
    if noise == [] then (s, Exhausted)
    else if noise[0].Unread? || s.item.None? then (s, Failure)
    else if !Changed(s.item.value, d) then (s, Unchanged)
    else
      var s' := Interfere(s, noise[0]);
      if noise[0].Failing? || s'.item.None? then (s', Failure)
      else if s'.version != s.version then Retry(s', d, noise[1..])
      else (Write(s', Overlay(s.item.value, d)), Updated)
  }

  method MergeLabels(existing: Option<Labels>, extra: Labels) returns (merged: Labels)
    ensures merged == Entries(existing) + extra
  {
    merged := map[];
    var from, keys := Entries(existing), Entries(existing).Keys;
    while keys != {}
      invariant keys <= from.Keys
      invariant merged == map k | k in from && k !in keys :: from[k]
    {
      var k :| k in keys;
      keys := keys - {k};
      merged := merged[k := from[k]];
    }
    assert merged == from;
    keys := extra.Keys;
    while keys != {}
      invariant keys <= extra.Keys
      invariant merged == from + map k | k in extra && k !in keys :: extra[k]
    {
      var k :| k in keys;
      keys := keys - {k};
      merged := merged[k := extra[k]];
    }
    assert (map k | k in extra && k !in keys :: extra[k]) == extra;
  }

  /** The five spec fields. */
  method EditSpec(read: Object, d: Desired) returns (latest: Object, changed: bool)
    ensures latest == Overlay(read, d).(labels := read.labels, annotations := read.annotations)
    ensures !changed <==> ConfigsEqual(read.config, d.config) && latest == read
  {
    latest, changed := read, false;
    if !ConfigsEqual(latest.config, d.config) {
      latest, changed := latest.(config := d.config), true;
    }
    if latest.credential != d.credential {
      latest, changed := latest.(credential := d.credential), true;
    }
    if latest.template != d.template {
      latest, changed := latest.(template := d.template), true;
    }
    if latest.services != d.services {
      latest, changed := latest.(services := d.services), true;
    }
    if latest.propagate != d.propagate {
      latest, changed := latest.(propagate := d.propagate), true;
    }
  }

  /** One attempt's edit of the object it read. */
  method Edit(read: Object, d: Desired) returns (latest: Object, changed: bool)
    ensures latest == Overlay(read, d) && changed == Changed(read, d)
  {
    latest, changed := EditSpec(read, d);
    var labels := MergeLabels(latest.labels, d.labels);
    if latest.labels != Some(labels) {
      latest, changed := latest.(labels := Some(labels)), true;
    }
    var annotations := MergeLabels(latest.annotations, d.annotations);
    if latest.annotations != Some(annotations) {
      latest, changed := latest.(annotations := Some(annotations)), true;
    }
  }

  datatype WriteAnswer = Accepted | Conflict | Rejected

  /** The API server's copy of one ClusterDeployment. */
  class ApiObject {
    var item: Option<Object>
    var version: nat

    ghost function View(): Store
      reads this
    {
      Store(item, version)
    }

    constructor (s: Store)
      ensures View() == s
    {
      item, version := s.item, s.version;
    }

    /** Others write or delete the object. */
    method Disturb(n: Noise)
      modifies this
      ensures View() == Interfere(old(View()), n)
    {
      if n.Overwritten? {
        item, version := n.item, version + 1;
      }
    }

    /** A conditional update: accepted only at the version that was read. */
    method Update(o: Object, readVersion: nat, refused: bool) returns (answer: WriteAnswer)
      modifies this
      ensures answer.Rejected? <==> refused || old(item).None?
      ensures answer.Conflict? <==> !refused && old(item).Some? && old(version) != readVersion
      ensures View() == if answer.Accepted? then Write(old(View()), o) else old(View())
    {
      if refused || item.None? {
        return Rejected;
      }
      if version != readVersion {
        return Conflict;
      }
      if item != Some(Stored(o)) {
        item, version := Some(Stored(o)), version + 1;
      }
      return Accepted;
    }

    /** `updateManagedFields`: `noise` has one entry per allowed attempt. */
    method UpdateManagedFields(d: Desired, noise: seq<Noise>) returns (result: Result)
      requires |noise| == 5
      modifies this
      ensures (View(), result) == Retry(old(View()), d, noise)
    {
      for attempt := 0 to MAX_RETRIES
        invariant Retry(View(), d, noise[attempt..]) == Retry(old(View()), d, noise)
      {
        if noise[attempt].Unread? || item.None? {
          return Failure;
        }
        var readVersion := version;
        var latest, changed := Edit(item.value, d);
        if !changed {
          return Unchanged;
        }
        assert noise[attempt..][1..] == noise[attempt + 1..];
        Disturb(noise[attempt]);
        var answer := Update(latest, readVersion, noise[attempt].Failing?);
        if answer.Conflict? {
          continue;
        }
        if answer.Rejected? {
          return Failure;
        }
        return Updated;
      }
      return Exhausted;
    }
  }

  const MAX_RETRIES := 5

  /** The object attempt `i` reads if every earlier attempt was overtaken. */
  function ReadAt(s: Store, noise: seq<Noise>, i: nat): Option<Object>
    requires i <= |noise|
  {
    if i == 0 then s.item else if noise[i - 1].Overwritten? then noise[i - 1].item else None
  }

  /** Attempt `i` found a difference and lost the race to another writer. */
  ghost predicate Overtaken(s: Store, d: Desired, noise: seq<Noise>, i: nat)
    requires i < |noise|
  {
    && ReadAt(s, noise, i).Some? && Changed(ReadAt(s, noise, i).value, d)
    && noise[i].Overwritten? && noise[i].item.Some?
  }

  /** The attempt that decides: the first that is not overtaken. */
  ghost function Deciding(s: Store, d: Desired, noise: seq<Noise>): (n: nat)
    ensures n <= |noise| && (n < |noise| ==> !Overtaken(s, d, noise, n))
    ensures forall i :: 0 <= i < n ==> Overtaken(s, d, noise, i)
    decreases |noise|
  {
    if noise == [] || !Overtaken(s, d, noise, 0) then 0
    else
      var s1, rest := Interfere(s, noise[0]), noise[1..];
      assert forall i :: 0 <= i < |rest| ==> Overtaken(s1, d, rest, i) == Overtaken(s, d, noise, i + 1) by {
        forall i | 0 <= i < |rest| ensures Overtaken(s1, d, rest, i) == Overtaken(s, d, noise, i + 1) {
          LaterAttempt(s, d, noise, i);
        }
      }
      var n := Deciding(s1, d, rest);
      assert forall i :: 0 < i <= n ==> Overtaken(s, d, noise, i) by {
        forall i | 0 < i <= n ensures Overtaken(s, d, noise, i) {
          assert Overtaken(s1, d, rest, i - 1);
        }
      }
      1 + n
  }

  lemma LaterAttempt(s: Store, d: Desired, noise: seq<Noise>, i: nat)
    requires i + 1 < |noise| && noise[0].Overwritten?
    ensures ReadAt(Interfere(s, noise[0]), noise[1..], i) == ReadAt(s, noise, i + 1)
    ensures Overtaken(Interfere(s, noise[0]), d, noise[1..], i) == Overtaken(s, d, noise, i + 1)
  {
  }

  /** What the caller can rely on: exhaustion exactly when every attempt was
      overtaken; no change or an update exactly as the deciding attempt finds;
      success means the object is what the deciding attempt read,
      overlaid, and carries everything desired. */
  lemma {:induction false} RetryMeans(s: Store, d: Desired, noise: seq<Noise>)
    ensures var (s', r) := Retry(s, d, noise);
            var n := Deciding(s, d, noise);
            var read := ReadAt(s, noise, n);
            && (r.Exhausted? <==> n == |noise|)
            && (r.Unchanged? <==> n < |noise| && !noise[n].Unread? && read.Some? && !Changed(read.value, d))
            && (r.Updated? <==> n < |noise| && noise[n].Quiet? && read.Some? && Changed(read.value, d))
            && (r.Updated? || r.Unchanged? ==>
                  && s'.item == Some(if r.Updated? then Stored(Overlay(read.value, d)) else read.value)
                  && Carries(s'.item.value, d))
    decreases |noise|
  {
    if noise != [] {
      if Overtaken(s, d, noise, 0) {
        var s1, rest := Interfere(s, noise[0]), noise[1..];
        RetryMeans(s1, d, rest);
        var n := Deciding(s1, d, rest);
        if n < |rest| {
          LaterAttempt(s, d, noise, n);
        }
      } else if s.item.Some? {
        if !Changed(s.item.value, d) {
          UnchangedMeans(s.item.value, d);
        } else {
          OverlayMeans(s.item.value, d, d.labels.Keys, d.annotations.Keys);
        }
      }
    }
  }

  // ---- every interleaving ---------------------------------------------------

  /** Where one updater stands: about to read, or holding what it read. */
  datatype Updater =
    | Ready(attempt: nat)
    | Holding(attempt: nat, base: Object, version: nat)
    | Finished(result: Result)

  datatype World = World(store: Store, updaters: seq<Updater>)

  datatype Step = Read(p: nat, refused: bool) | Commit(p: nat, refused: bool) | Foreign(item: Option<Object>)

  ghost predicate Enabled(w: World, s: Step) {
    match s
    case Read(p, _) => p < |w.updaters| && w.updaters[p].Ready?
    case Commit(p, _) => p < |w.updaters| && w.updaters[p].Holding?
    case Foreign(_) => true
  }

  function AfterRead(store: Store, u: Updater, d: Desired, refused: bool): Updater
    requires u.Ready?
  {
    if u.attempt >= MAX_RETRIES then Finished(Exhausted)
    else if refused || store.item.None? then Finished(Failure)
    else if !Changed(store.item.value, d) then Finished(Unchanged)
    else Holding(u.attempt, store.item.value, store.version)
  }

  function AfterCommit(store: Store, u: Updater, refused: bool): Updater
    requires u.Holding?
  {
    if refused || store.item.None? then Finished(Failure)
    else if store.version != u.version then Ready(u.attempt + 1)
    else Finished(Updated)
  }

  /** One step of one updater, or of anybody else. */
  ghost function Next(w: World, s: Step, ds: seq<Desired>): World
    requires Enabled(w, s) && |ds| == |w.updaters|
  {
    match s
    case Read(p, refused) => w.(updaters := w.updaters[p := AfterRead(w.store, w.updaters[p], ds[p], refused)])
    case Commit(p, refused) =>
      var u := AfterCommit(w.store, w.updaters[p], refused);
      World(if u.Finished? && u.result.Updated? then Write(w.store, Overlay(w.updaters[p].base, ds[p])) else w.store,
            w.updaters[p := u])
    case Foreign(item) => w.(store := Store(item, w.store.version + 1))
  }

  ghost predicate Run(ws: seq<World>, steps: seq<Step>, ds: seq<Desired>) {
    && |ws| == |steps| + 1
    && |ws[0].updaters| == |ds| && (forall p :: 0 <= p < |ds| ==> ws[0].updaters[p] == Ready(0))
    && forall i :: 0 <= i < |steps| ==>
        Enabled(ws[i], steps[i]) && |ws[i].updaters| == |ds| && ws[i + 1] == Next(ws[i], steps[i], ds)
  }

  /** An updater whose version is current holds the current object. */
  ghost predicate Inv(w: World) {
    forall p :: 0 <= p < |w.updaters| && w.updaters[p].Holding? ==>
      && w.updaters[p].version <= w.store.version
      && (w.updaters[p].version == w.store.version ==> w.store.item == Some(w.updaters[p].base))
  }

  lemma StepKeepsInv(w: World, s: Step, ds: seq<Desired>)
    requires Inv(w) && Enabled(w, s) && |ds| == |w.updaters|
    ensures Inv(Next(w, s, ds))
  {
  }

  lemma {:induction false} RunKeepsInv(ws: seq<World>, steps: seq<Step>, ds: seq<Desired>, i: nat)
    requires Run(ws, steps, ds) && i < |ws|
    ensures Inv(ws[i])
  {
    if i > 0 {
      RunKeepsInv(ws, steps, ds, i - 1);
      StepKeepsInv(ws[i - 1], steps[i - 1], ds);
      assert ws[i - 1 + 1] == Next(ws[i - 1], steps[i - 1], ds);
    }
  }

  /** The serial reference: updates are atomic. */
  datatype Op = Nothing | AtomicUpdate(d: Desired) | ForeignWrite(item: Option<Object>)

  function Atomically(s: Store, op: Op): Store {
    match op
    case Nothing => s
    case AtomicUpdate(d) => if s.item.Some? then Write(s, Overlay(s.item.value, d)) else s
    case ForeignWrite(item) => Store(item, s.version + 1)
  }

  /** The atomic operation a step amounts to: an accepted commit is a whole update
      at that moment, everything else an updater does is invisible. */
  ghost function Meaning(w: World, s: Step, ds: seq<Desired>): Op
    requires Enabled(w, s) && |ds| == |w.updaters|
  {
    match s
    case Read(_, _) => Nothing
    case Commit(p, refused) => if AfterCommit(w.store, w.updaters[p],
        refused) == Finished(Updated) then AtomicUpdate(ds[p]) else Nothing
    case Foreign(item) => ForeignWrite(item)
  }

  /** Every interleaving is a serial run of atomic updates and foreign writes. */
  lemma RunIsSerial(ws: seq<World>, steps: seq<Step>, ds: seq<Desired>, i: nat)
    requires Run(ws, steps, ds) && i < |steps|
    ensures ws[i + 1].store == Atomically(ws[i].store, Meaning(ws[i], steps[i], ds))
  {
    RunKeepsInv(ws, steps, ds, i);
  }

  /** Success, whenever it comes, leaves the object carrying what was desired. */
  lemma SuccessCarries(ws: seq<World>, steps: seq<Step>, ds: seq<Desired>, i: nat, p: nat)
    requires Run(ws, steps, ds) && i < |steps| && p < |ds|
    requires |ws[i + 1].updaters| == |ds| && !ws[i].updaters[p].Finished?
    requires ws[i + 1].updaters[p] == Finished(Updated) || ws[i + 1].updaters[p] == Finished(Unchanged)
    ensures ws[i + 1].store.item.Some? && Carries(ws[i + 1].store.item.value, ds[p])
  {
    RunIsSerial(ws, steps, ds, i);
    var o := ws[i].store.item.value;
    if ws[i + 1].updaters[p] == Finished(Updated) {
      OverlayMeans(o, ds[p], ds[p].labels.Keys, ds[p].annotations.Keys);
    } else {
      UnchangedMeans(o, ds[p]);
    }
  }

  ghost predicate Covers(ds: seq<Desired>, labels: set<string>, annotations: set<string>) {
    forall p :: 0 <= p < |ds| ==> ds[p].labels.Keys <= labels && ds[p].annotations.Keys <= annotations
  }

  ghost predicate NoForeign(steps: seq<Step>, i: nat, j: nat)
    requires i <= j <= |steps|
  {
    forall h :: i <= h < j ==> !steps[h].Foreign?
  }

  /** No foreign write to an unmanaged field or key is ever lost: until someone
      else writes again, it is still there, whatever the updaters do meanwhile. */
  lemma {:induction false} ForeignWritesSurvive(ws: seq<World>, steps: seq<Step>, ds: seq<Desired>, i: nat, j: nat,
                                                labels: set<string>, annotations: set<string>)
    requires Run(ws, steps, ds) && i <= j < |ws| && NoForeign(steps, i, j)
    requires Covers(ds, labels, annotations) && ws[i].store.item.Some?
    ensures ws[j].store.item.Some?
    ensures Unmanaged(ws[j].store.item.value, labels, annotations) == Unmanaged(ws[i].store.item.value, labels,
        annotations)
    decreases j - i
  {
    if i < j {
      ForeignWritesSurvive(ws, steps, ds, i, j - 1, labels, annotations);
      RunIsSerial(ws, steps, ds, j - 1);
      assert ws[j - 1 + 1] == ws[j];
      var op := Meaning(ws[j - 1], steps[j - 1], ds);
      if op.AtomicUpdate? {
        assert op.d == ds[steps[j - 1].p];
        OverlayMeans(ws[j - 1].store.item.value, op.d, labels, annotations);
      }
    }
  }

  /** Updaters that agree never undo each other: once one has succeeded, the
      object carries the desired state until someone else writes. */
  lemma {:induction false} AgreementStands(ws: seq<World>, steps: seq<Step>, ds: seq<Desired>, i: nat, j: nat,
                                           d: Desired)
    requires Run(ws, steps, ds) && i <= j < |ws| && NoForeign(steps, i, j)
    requires forall p :: 0 <= p < |ds| ==> ds[p] == d
    requires ws[i].store.item.Some? && Carries(ws[i].store.item.value, d)
    ensures ws[j].store.item.Some? && Carries(ws[j].store.item.value, d)
    decreases j - i
  {
    if i < j {
      var k := j - 1;
      AgreementStands(ws, steps, ds, i, k, d);
      RunIsSerial(ws, steps, ds, k);
      OverlayCarries(ws[k].store, Meaning(ws[k], steps[k], ds), d);
      assert ws[k + 1] == ws[j];
    }
  }

  lemma OverlayCarries(s: Store, op: Op, d: Desired)
    requires s.item.Some? && Carries(s.item.value, d) && !op.ForeignWrite? && (op.AtomicUpdate? ==> op.d == d)
    ensures Atomically(s, op).item.Some? && Carries(Atomically(s, op).item.value, d)
  {
    OverlayMeans(s.item.value, d, d.labels.Keys, d.annotations.Keys);
  }

  // ---- the updaters run the loop --------------------------------------------

  ghost predicate AllOvertaken(s: Store, d: Desired, noise: seq<Noise>, n: nat) {
    n <= |noise| && forall i :: 0 <= i < n ==> Overtaken(s, d, noise, i)
  }

  /** Attempts that were overtaken leave the loop where the next one starts. */
  lemma {:induction false} RetrySkips(s: Store, d: Desired, noise: seq<Noise>, n: nat)
    requires AllOvertaken(s, d, noise, n)
    ensures Retry(s, d, noise) == Retry(Store(ReadAt(s, noise, n), s.version + n), d, noise[n..])
    decreases n
  {
    if n == 0 {
      assert noise[0..] == noise;
    } else {
      var s1, rest := Interfere(s, noise[0]), noise[1..];
      assert Overtaken(s, d, noise, 0);
      forall i | 0 <= i < n - 1 ensures Overtaken(s1, d, rest, i) {
        assert Overtaken(s, d, noise, i + 1);
        LaterAttempt(s, d, noise, i);
      }
      RetrySkips(s1, d, rest, n - 1);
      assert rest[n - 1..] == noise[n..];
      assert ReadAt(s1, rest, n - 1) == ReadAt(s, noise, n);
    }
  }

  /** Whether an attempt is overtaken depends on the noise up to it. */
  lemma SamePast(s: Store, d: Desired, a: seq<Noise>, b: seq<Noise>, n: nat)
    requires n <= |a| && n <= |b| && a[..n] == b[..n]
    ensures AllOvertaken(s, d, a, n) <==> AllOvertaken(s, d, b, n)
    ensures ReadAt(s, a, n) == ReadAt(s, b, n)
  {
    assert forall i :: 0 <= i < n ==> a[i] == a[..n][i] && b[i] == b[..n][i];
    assert forall i :: 0 <= i < n ==> ReadAt(s, a, i) == ReadAt(s, b, i);
    assert forall i :: 0 <= i < n ==> Overtaken(s, d, a, i) == Overtaken(s, d, b, i);
  }

  /** What one updater has met: the object its first attempt read, and for each
      attempt since what others made of the object before it read again. */
  datatype Met = Met(start: Store, noise: seq<Noise>)

  /** A read that comes back replaces what the attempt before met. */
  function Refreshed(m: Met, u: Updater, store: Store): Met
    requires u.Ready?
  {
    if u.attempt == 0 then Met(store, [])
    else if m.noise == [] then m
    else Met(m.start, m.noise[..|m.noise| - 1] + [Overwritten(store.item)])
  }

  function MeetRead(m: Met, u: Updater, store: Store, d: Desired, refused: bool): Met
    requires u.Ready?
  {
    if u.attempt >= MAX_RETRIES then m
    else if refused then Met(if u.attempt == 0 then store else m.start,
        (if u.attempt == 0 then [] else m.noise) + [Unread])
    else
      var r := Refreshed(m, u, store);
      if store.item.Some? && !Changed(store.item.value, d) then Met(r.start, r.noise + [Quiet]) else r
  }

  function MeetCommit(m: Met, u: Updater, store: Store, refused: bool): Met
    requires u.Holding?
  {
    Met(m.start, m.noise + [
      if refused then Failing
      else if store.item.None? || store.version != u.version then Overwritten(store.item)
      else Quiet])
  }

  /** Read off the run. */
  ghost function Meets(ws: seq<World>, steps: seq<Step>, ds: seq<Desired>, p: nat, i: nat): Met
    requires Run(ws, steps, ds) && i < |ws| && p < |ds|
  {
    if i == 0 then Met(ws[0].store, [])
    else
      var m, w, s := Meets(ws, steps, ds, p, i - 1), ws[i - 1], steps[i - 1];
      if s.Read? && s.p == p then MeetRead(m, w.updaters[p], w.store, ds[p], s.refused)
      else if s.Commit? && s.p == p then MeetCommit(m, w.updaters[p], w.store, s.refused)
      else m
  }

  /** An updater stands where the loop stands after meeting `m`. */
  ghost predicate Tracked(u: Updater, m: Met, d: Desired) {
    match u
    case Ready(n) => n == |m.noise| <= MAX_RETRIES && AllOvertaken(m.start, d, m.noise, n)
    case Holding(n, base, _) =>
      && n == |m.noise| < MAX_RETRIES && AllOvertaken(m.start, d, m.noise, n)
      && ReadAt(m.start, m.noise, n) == Some(base) && Changed(base, d)
    case Finished(r) =>
      && |m.noise| <= MAX_RETRIES
      && forall rest :: |m.noise + rest| == MAX_RETRIES ==> Retry(m.start, d, m.noise + rest).1 == r
  }

  /** After overtaken attempts, the loop goes on with the object at hand. */
  lemma LoopFrom(m: Met, d: Desired, rest: seq<Noise>)
    requires AllOvertaken(m.start, d, m.noise, |m.noise|)
    ensures Retry(m.start, d, m.noise + rest) == Retry(Store(ReadAt(m.start, m.noise, |m.noise|),
        m.start.version + |m.noise|), d, rest)
  {
    var n, all := |m.noise|, m.noise + rest;
    assert all[..n] == m.noise[..n];
    SamePast(m.start, d, all, m.noise, n);
    RetrySkips(m.start, d, all, n);
    assert all[n..] == rest;
  }

  /** Reading again replaces what the last attempt met. */
  lemma Reread(m: Met, d: Desired, item: Option<Object>)
    requires m.noise != [] && AllOvertaken(m.start, d, m.noise, |m.noise|)
    ensures var e := |m.noise| - 1;
            var m' := Met(m.start, m.noise[..e] + [Overwritten(item)]);
            && AllOvertaken(m.start, d, m'.noise, e) && (item.Some? ==> AllOvertaken(m.start, d, m'.noise, e + 1))
            && ReadAt(m.start, m'.noise, e).Some? && Changed(ReadAt(m.start, m'.noise, e).value, d)
            && ReadAt(m.start, m'.noise, e + 1) == item
  {
    var e := |m.noise| - 1;
    var noise' := m.noise[..e] + [Overwritten(item)];
    assert Overtaken(m.start, d, m.noise, e);
    assert noise'[..e] == m.noise[..e];
    SamePast(m.start, d, noise', m.noise, e);
    if item.Some? {
      assert Overtaken(m.start, d, noise', e);
    }
  }

  /** The object has vanished when the updater reads again. */
  lemma VanishedFails(m: Met, d: Desired, rest: seq<Noise>)
    requires m.noise != [] && m.noise[|m.noise| - 1] == Overwritten(None)
    requires var e := |m.noise| - 1;
             AllOvertaken(m.start, d, m.noise, e) && ReadAt(m.start, m.noise, e).Some?
                 && Changed(ReadAt(m.start, m.noise, e).value, d)
    ensures Retry(m.start, d, m.noise + rest).1 == Failure
  {
    var e, all := |m.noise| - 1, m.noise + rest;
    assert all[..e] == m.noise[..e];
    SamePast(m.start, d, all, m.noise, e);
    RetrySkips(m.start, d, all, e);
    assert all[e..][0] == Overwritten(None);
  }

  /** The read of the next attempt fails. */
  lemma UnreadFails(m: Met, d: Desired, rest: seq<Noise>)
    requires AllOvertaken(m.start, d, m.noise, |m.noise|)
    ensures Retry(m.start, d, m.noise + [Unread] + rest).1 == Failure
  {
    assert m.noise + [Unread] + rest == m.noise + ([Unread] + rest);
    LoopFrom(m, d, [Unread] + rest);
  }

  /** The read comes back: the loop stands at the next attempt, with that object. */
  lemma ReadRefreshes(u: Updater, m: Met, d: Desired, store: Store)
    requires u.Ready? && Tracked(u, m, d) && u.attempt < MAX_RETRIES && store.item.Some?
    ensures var r := Refreshed(m, u, store);
            && |r.noise| == u.attempt && AllOvertaken(r.start, d, r.noise, u.attempt)
            && ReadAt(r.start, r.noise, u.attempt) == store.item
  {
    if u.attempt > 0 {
      Reread(m, d, store.item);
    }
  }

  lemma SilentRead(u: Updater, m: Met, d: Desired, store: Store, rest: seq<Noise>)
    requires u.Ready? && Tracked(u, m, d) && AfterRead(store, u, d, false) == Finished(Unchanged)
    ensures var m' := MeetRead(m, u, store, d, false);
            Retry(m'.start, d, m'.noise + rest).1 == Unchanged
                && Retry(m'.start, d, m'.noise + rest).0.item == store.item
  {
    ReadRefreshes(u, m, d, store);
    var r := Refreshed(m, u, store);
    assert r.noise + [Quiet] + rest == r.noise + ([Quiet] + rest);
    LoopFrom(r, d, [Quiet] + rest);
  }

  lemma ReadTracks(u: Updater, m: Met, d: Desired, store: Store, refused: bool)
    requires u.Ready? && Tracked(u, m, d)
    ensures Tracked(AfterRead(store, u, d, refused), MeetRead(m, u, store, d, refused), d)
  {
    var m', u' := MeetRead(m, u, store, d, refused), AfterRead(store, u, d, refused);
    if u'.Finished? {
      if u.attempt < MAX_RETRIES && !refused && store.item.Some? {
        ReadRefreshes(u, m, d, store);
      }
      forall rest | |m'.noise + rest| == MAX_RETRIES ensures Retry(m'.start, d, m'.noise + rest).1 == u'.result {
        if u.attempt >= MAX_RETRIES {
          LoopFrom(m, d, rest);
        } else if refused {
          UnreadFails(Met(m'.start, if u.attempt == 0 then [] else m.noise), d, rest);
        } else if store.item.Some? {
          SilentRead(u, m, d, store, rest);
        } else if u.attempt > 0 {
          Reread(m, d, store.item);
          VanishedFails(m', d, rest);
        }
      }
    } else {
      ReadRefreshes(u, m, d, store);
    }
  }

  lemma CommitTracks(u: Updater, m: Met, d: Desired, store: Store, refused: bool)
    requires u.Holding? && Tracked(u, m, d)
    ensures Tracked(AfterCommit(store, u, refused), MeetCommit(m, u, store, refused), d)
  {
    var m', u' := MeetCommit(m, u, store, refused), AfterCommit(store, u, refused);
    var n := |m.noise|;
    assert m'.noise[..n] == m.noise[..n];
    SamePast(m.start, d, m'.noise, m.noise, n);
    if u'.Finished? {
      forall rest | |m'.noise + rest| == MAX_RETRIES ensures Retry(m'.start, d, m'.noise + rest).1 == u'.result {
        assert m'.noise + rest == m.noise + ([m'.noise[n]] + rest);
        LoopFrom(m, d, [m'.noise[n]] + rest);
      }
    } else {
      assert Overtaken(m.start, d, m'.noise, n);
    }
  }

  lemma {:induction false} UpdaterIsTracked(ws: seq<World>, steps: seq<Step>, ds: seq<Desired>, p: nat, i: nat)
    requires Run(ws, steps, ds) && i < |ws| && p < |ds|
    ensures |ws[i].updaters| == |ds| && Tracked(ws[i].updaters[p], Meets(ws, steps, ds, p, i), ds[p])
  {
    if i > 0 {
      var b := i - 1;
      UpdaterIsTracked(ws, steps, ds, p, b);
      var m, w, s := Meets(ws, steps, ds, p, b), ws[b], steps[b];
      assert ws[b + 1] == Next(w, s, ds);
      if s.Read? && s.p == p {
        ReadTracks(w.updaters[p], m, ds[p], w.store, s.refused);
      } else if s.Commit? && s.p == p {
        CommitTracks(w.updaters[p], m, ds[p], w.store, s.refused);
      }
    }
  }

  /** In every interleaving, an updater that finishes finishes with the result of
      the retry loop on what it met. */
  lemma UpdaterIsRetry(ws: seq<World>, steps: seq<Step>, ds: seq<Desired>, p: nat, i: nat, rest: seq<Noise>)
    requires Run(ws, steps, ds) && i < |ws| && p < |ds| && |ws[i].updaters| == |ds| && ws[i].updaters[p].Finished?
    requires var m := Meets(ws, steps, ds, p, i); |m.noise + rest| == 5
    ensures var m := Meets(ws, steps, ds, p, i); Retry(m.start, ds[p], m.noise + rest).1 == ws[i].updaters[p].result
  {
    UpdaterIsTracked(ws, steps, ds, p, i);
  }

  /** And when it succeeds, the object at that moment is the one the loop leaves. */
  lemma UpdaterLeavesRetrysObject(ws: seq<World>, steps: seq<Step>, ds: seq<Desired>, p: nat, i: nat, rest: seq<Noise>)
    requires Run(ws, steps, ds) && i < |steps| && p < |ds| && |ws[i + 1].updaters| == |ds|
    requires !ws[i].updaters[p].Finished?
    requires ws[i + 1].updaters[p] == Finished(Updated) || ws[i + 1].updaters[p] == Finished(Unchanged)
    requires |Meets(ws, steps, ds, p, i + 1).noise + rest| == 5
    ensures var m := Meets(ws, steps, ds, p, i + 1);
            Retry(m.start, ds[p], m.noise + rest).0.item == ws[i + 1].store.item
  {
    UpdaterIsTracked(ws, steps, ds, p, i);
    RunKeepsInv(ws, steps, ds, i);
    var m, w := Meets(ws, steps, ds, p, i), ws[i];
    assert ws[i + 1] == Next(w, steps[i], ds);
    if steps[i].Read? {
      SilentRead(w.updaters[p], m, ds[p], w.store, rest);
    } else {
      CommitLeaves(w.updaters[p], m, ds[p], w.store, rest);
    }
  }

  lemma CommitLeaves(u: Updater, m: Met, d: Desired, store: Store, rest: seq<Noise>)
    requires u.Holding? && Tracked(u, m, d) && store.item == Some(u.base) && store.version == u.version
    ensures var m' := MeetCommit(m, u, store, false);
            Retry(m'.start, d, m'.noise + rest).0.item == Write(store, Overlay(u.base, d)).item
  {
    var m' := MeetCommit(m, u, store, false);
    assert m'.noise + rest == m.noise + ([Quiet] + rest);
    LoopFrom(m, d, [Quiet] + rest);
  }
}
