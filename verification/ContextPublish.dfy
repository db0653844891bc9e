/**
 * Publishing a Business Context refresh: source blobs, then the snapshot blob, then the definition
 * rows, then the manifest.  A worker may stop after any single write and the run be tried again.
 * The operation lease keeps other writers out meanwhile.
 */
module ContextPublish {
  import opened Options

  /** Subscription to value. */
  type Mapping = map<string, string>

  /** sources/<key>/<revision>-<run>: equal names have equal parts. */
  datatype SourceName = SourceName(key: string, revision: nat, run: string)

  datatype Definition = Definition(
    key: string, name: string, enabled: bool, sourceType: string, revision: nat,
    source: Option<SourceName>, resolvedAt: int, expiresAt: Option<int>)

  datatype FieldInfo = FieldInfo(name: string, enabled: bool, revision: nat, sourceType: string, resolvedAt: int,
      expiresAt: Option<int>)

  /** subscriptions: subscription to field key to value. */
  datatype Snapshot = Snapshot(generation: string, fields: map<string, FieldInfo>,
      subscriptions: map<string, map<string, string>>)

  /** defs: the definition rows in listing order, by name and key, neither of which a refresh changes. */
  datatype Store = Store(
    defs: seq<Definition>,
    sources: map<SourceName, Mapping>,
    snapshots: map<string, Snapshot>,
    manifest: Option<string>)

  datatype Write =
    | PutSource(source: SourceName, mapping: Mapping)
    | PutSnapshot(snapshot: Snapshot)
    | PutDefinition(definition: Definition)
    | PutManifest(generation: string)

  function Apply(s: Store, w: Write): Store {
    match w
    case PutSource(source, mapping) => s.(sources := s.sources[source := mapping])
    case PutSnapshot(snapshot) => s.(snapshots := s.snapshots[snapshot.generation := snapshot])
    case PutDefinition(d) => s.(defs := seq(|s.defs|, i requires 0 <= i < |s.defs| => if s.defs[i].key == d.key then d
        else s.defs[i]))
    case PutManifest(generation) => s.(manifest := Some(generation))
  }

  function ApplyAll(s: Store, writes: seq<Write>): Store {
    if writes == [] then s else Apply(ApplyAll(s, writes[..|writes| - 1]), writes[|writes| - 1])
  }

  ghost predicate DistinctKeys(defs: seq<Definition>) {
    forall i, j | 0 <= i < j < |defs| :: defs[i].key != defs[j].key
  }

  ghost predicate WellFormed(s: Store) {
    && DistinctKeys(s.defs)
    && (forall g | g in s.snapshots :: s.snapshots[g].generation == g)
  }

  /** What readers resolve against. */
  function Served(s: Store): Option<Snapshot> {
    if s.manifest.Some? && s.manifest.value in s.snapshots then Some(s.snapshots[s.manifest.value]) else None
  }

  // ---- one attempt ----

  datatype Request = Request(run: string, updates: map<string, Mapping>, expected: map<string, nat>)

  datatype Outcome = AlreadyPublished | Conflict | Unreadable | Crashed | Finished

  function NameOf(d: Definition, q: Request): SourceName {
    SourceName(d.key, d.revision, q.run)
  }

  function Updated(d: Definition, q: Request, at: int): Definition {
    if d.key in q.updates then d.(source := Some(NameOf(d, q)), resolvedAt := at, expiresAt := None) else d
  }

  function AllUpdated(defs: seq<Definition>, q: Request, at: int): seq<Definition> {
    seq(|defs|, i requires 0 <= i < |defs| => Updated(defs[i], q, at))
  }

  predicate Stale(defs: seq<Definition>, q: Request) {
    exists key | key in q.expected ::
      !exists i | 0 <= i < |defs| :: defs[i].key == key && defs[i].revision == q.expected[key]
  }

  /** None: the attempt writes. */
  function Stops(s: Store, q: Request): Option<Outcome> {
    if s.manifest.Some? && Served(s).None? then Some(Unreadable)
    else if Served(s).Some? && Served(s).value.generation == q.run then Some(AlreadyPublished)
    else if Stale(s.defs, q) then Some(Conflict)
    else None
  }

  function SourceWrites(defs: seq<Definition>, q: Request): seq<Write> {
    if defs == [] then []
    else
      var d := defs[|defs| - 1];
      SourceWrites(defs[..|defs| - 1], q) + if d.key in q.updates then [PutSource(NameOf(d, q), q.updates[d.key])]
          else []
  }

  function DefinitionWrites(updated: seq<Definition>, q: Request): seq<Write> {
    if updated == [] then []
    else
      var d := updated[|updated| - 1];
      DefinitionWrites(updated[..|updated| - 1], q) + if d.key in q.updates then [PutDefinition(d)] else []
  }

  /** The source blobs the request writes. */
  function Layer(defs: seq<Definition>, q: Request): map<SourceName, Mapping> {
    if defs == [] then map[]
    else
      var before, d := Layer(defs[..|defs| - 1], q), defs[|defs| - 1];
      if d.key in q.updates then before[NameOf(d, q) := q.updates[d.key]] else before
  }

  function SourceOf(d: Definition, q: Request): Option<SourceName> {
    if d.key in q.updates then Some(NameOf(d, q)) else d.source
  }

  /** Every definition's mapping, the new ones included, can be read. */
  predicate Ready(defs: seq<Definition>, written: map<SourceName, Mapping>, q: Request) {
    forall i | 0 <= i < |defs| :: SourceOf(defs[i], q).Some? ==> SourceOf(defs[i], q).value in written
  }

  function MappingOf(d: Definition, sources: map<SourceName, Mapping>): Mapping {
    if d.source.Some? && d.source.value in sources then sources[d.source.value] else map[]
  }

  function Info(d: Definition): FieldInfo {
    FieldInfo(d.name, d.enabled, d.revision, d.sourceType, d.resolvedAt, d.expiresAt)
  }

  function Fields(defs: seq<Definition>): map<string, FieldInfo> {
    if defs == [] then map[] else Fields(defs[..|defs| - 1])[defs[|defs| - 1].key := Info(defs[|defs| - 1])]
  }

  function Row(rows: map<string, map<string, string>>, subscription: string): map<string, string> {
    if subscription in rows then rows[subscription] else map[]
  }

  function Column(rows: map<string, map<string, string>>, key: string, mapping: Mapping)
    : map<string, map<string, string>>
  {
    map subscription | subscription in rows.Keys + mapping.Keys ::
      if subscription in mapping then Row(rows, subscription)[key := mapping[subscription]] else rows[subscription]
  }

  function Values(defs: seq<Definition>, sources: map<SourceName, Mapping>): map<string, map<string, string>> {
    if defs == [] then map[]
    else
      var d := defs[|defs| - 1];
      Column(Values(defs[..|defs| - 1], sources), d.key, MappingOf(d, sources))
  }

  function Build(defs: seq<Definition>, sources: map<SourceName, Mapping>, generation: string): Snapshot {
    Snapshot(generation, Fields(defs), Values(defs, sources))
  }

  function Rest(snapshot: Snapshot, updated: seq<Definition>, q: Request): seq<Write> {
    [PutSnapshot(snapshot)] + DefinitionWrites(updated, q) + [PutManifest(q.run)]
  }

  function PlanFrom(defs: seq<Definition>, sources: map<SourceName, Mapping>, q: Request, at: int): seq<Write> {
    var updated, written := AllUpdated(defs, q, at), sources + Layer(defs, q);
    if Ready(defs, written, q)
    then SourceWrites(defs, q) + Rest(Build(updated, written, q.run), updated, q)
    else SourceWrites(defs, q)
  }

  /** Every write of an attempt, in order. */
  function Plan(s: Store, q: Request, at: int): seq<Write> {
    if Stops(s, q).Some? then [] else PlanFrom(s.defs, s.sources, q, at)
  }

  /** The store after an attempt that nothing interrupts. */
  function Effect(s: Store, q: Request, at: int): Store {
    if Stops(s, q).Some? then s
    else
      var updated, written := AllUpdated(s.defs, q, at), s.sources + Layer(s.defs, q);
      if Ready(s.defs, written, q)
      then Store(updated, written, s.snapshots[q.run := Build(updated, written, q.run)], Some(q.run))
      else s.(sources := written)
  }

  // ---- when an attempt stops ----

  /** The manifest names a snapshot that cannot be read. */
  ghost predicate Broken(s: Store) {
    s.manifest.Some? && s.manifest.value !in s.snapshots
  }

  /** Readers are already served this run's generation. */
  ghost predicate ServesRun(s: Store, q: Request) {
    s.manifest.Some? && s.manifest.value in s.snapshots && s.snapshots[s.manifest.value].generation == q.run
  }

  /** A field the refresh was planned for is gone or has another revision. */
  ghost predicate Changed(s: Store, q: Request) {
    exists key :: key in q.expected && forall d | d in s.defs && d.key == key :: d.revision != q.expected[key]
  }

  /** An attempt writes nothing exactly if the manifest is broken, the run is served, or a field changed meanwhile. */
  lemma StopsExactly(s: Store, q: Request, at: int)
    ensures Stops(s, q) == Some(Unreadable) <==> Broken(s)
    ensures Stops(s, q) == Some(AlreadyPublished) <==> ServesRun(s, q)
    ensures Stops(s, q) == Some(Conflict) <==> !Broken(s) && !ServesRun(s, q) && Changed(s, q)
    ensures Stops(s, q).Some? ==> Stops(s, q).value in {Unreadable, AlreadyPublished, Conflict}
    ensures Stops(s, q).Some? ==> Plan(s, q, at) == [] && Effect(s, q, at) == s
  {
    forall key | key in q.expected
      ensures (exists i | 0 <= i < |s.defs| :: s.defs[i].key == key && s.defs[i].revision == q.expected[key]) <==>
              exists d :: d in s.defs && d.key == key && d.revision == q.expected[key]
    {
    }
    if Changed(s, q) {
      var key :| key in q.expected && forall d | d in s.defs && d.key == key :: d.revision != q.expected[key];
      assert forall i | 0 <= i < |s.defs| :: s.defs[i] in s.defs;
    }
  }

  // ---- the writes add up to the effect ----

  lemma {:induction false} ApplySplits(s: Store, a: seq<Write>, b: seq<Write>)
    ensures ApplyAll(s, a + b) == ApplyAll(ApplyAll(s, a), b)
  {
    if b == [] {
      assert a + b == a;
    } else {
      assert (a + b)[..|a + b| - 1] == a + b[..|b| - 1];
      ApplySplits(s, a, b[..|b| - 1]);
    }
  }

  lemma OverlayOne(sources: map<SourceName, Mapping>, layer: map<SourceName, Mapping>, name: SourceName,
      mapping: Mapping)
    ensures sources + layer[name := mapping] == (sources + layer)[name := mapping]
  {
  }

  lemma ApplyOne(s: Store, w: Write)
    ensures ApplyAll(s, [w]) == Apply(s, w)
  {
    assert [w][..0] == [];
    assert ApplyAll(s, []) == s;
  }

  lemma {:induction false} SourceWritesAdd(s: Store, defs: seq<Definition>, q: Request)
    ensures ApplyAll(s, SourceWrites(defs, q)) == s.(sources := s.sources + Layer(defs, q))
  {
    if defs == [] {
      assert s.sources + Layer(defs, q) == s.sources;
    } else {
      var before, d := defs[..|defs| - 1], defs[|defs| - 1];
      SourceWritesAdd(s, before, q);
      if d.key in q.updates {
        var w := PutSource(NameOf(d, q), q.updates[d.key]);
        OverlayOne(s.sources, Layer(before, q), NameOf(d, q), q.updates[d.key]);
        ApplySplits(s, SourceWrites(before, q), [w]);
        ApplyOne(ApplyAll(s, SourceWrites(before, q)), w);
      } else {
        assert SourceWrites(before, q) + [] == SourceWrites(before, q);
      }
    }
  }

  /** The first n rows are the updated ones, the rest are as before. */
  function Rows(defs: seq<Definition>, q: Request, at: int, n: nat): seq<Definition>
    requires n <= |defs|
  {
    seq(|defs|, i requires 0 <= i < |defs| => if i < n then Updated(defs[i], q, at) else defs[i])
  }

  lemma PutOneRow(s: Store, rows: seq<Definition>, q: Request, at: int, n: nat)
    requires DistinctKeys(s.defs) && 0 < n <= |s.defs| && rows == Rows(s.defs, q, at, n - 1)
    ensures Apply(s.(defs := rows), PutDefinition(Updated(s.defs[n - 1], q, at))).defs == Rows(s.defs, q, at, n)
  {
    forall i | 0 <= i < |rows|
      ensures rows[i].key == s.defs[i].key && (rows[i].key == s.defs[n - 1].key <==> i == n - 1)
    {
    }
  }

  lemma DefinitionWritesSnoc(updated: seq<Definition>, q: Request, n: nat)
    requires 0 < n <= |updated|
    ensures DefinitionWrites(updated[..n], q) ==
            if updated[n - 1].key in q.updates
            then DefinitionWrites(updated[..n - 1], q) + [PutDefinition(updated[n - 1])]
            else DefinitionWrites(updated[..n - 1], q)
  {
    assert updated[..n][..n - 1] == updated[..n - 1];
    assert DefinitionWrites(updated[..n - 1], q) + [] == DefinitionWrites(updated[..n - 1], q);
  }

  lemma SameRow(defs: seq<Definition>, q: Request, at: int, n: nat)
    requires 0 < n <= |defs| && defs[n - 1].key !in q.updates
    ensures Rows(defs, q, at, n) == Rows(defs, q, at, n - 1)
  {
  }

  lemma {:induction false} DefinitionWritesReplace(s: Store, q: Request, at: int, n: nat)
    requires DistinctKeys(s.defs) && n <= |s.defs|
    ensures ApplyAll(s, DefinitionWrites(AllUpdated(s.defs, q, at)[..n], q)) == s.(defs := Rows(s.defs, q, at, n))
  {
    var updated := AllUpdated(s.defs, q, at);
    if n == 0 {
      assert Rows(s.defs, q, at, 0) == s.defs;
    } else {
      var d := updated[n - 1];
      DefinitionWritesReplace(s, q, at, n - 1);
      DefinitionWritesSnoc(updated, q, n);
      if d.key in q.updates {
        ApplySnoc(s, DefinitionWrites(updated[..n - 1], q), PutDefinition(d));
        PutOneRow(s, Rows(s.defs, q, at, n - 1), q, at, n);
      } else {
        SameRow(s.defs, q, at, n);
      }
    }
  }

  lemma RestHasTheEffect(s: Store, q: Request, at: int, snapshot: Snapshot)
    requires WellFormed(s) && snapshot.generation == q.run
    ensures ApplyAll(s, Rest(snapshot, AllUpdated(s.defs, q, at), q)) ==
            s.(defs := AllUpdated(s.defs, q, at), snapshots := s.snapshots[q.run := snapshot], manifest := Some(q.run))
  {
    var updated := AllUpdated(s.defs, q, at);
    var s1 := s.(snapshots := s.snapshots[q.run := snapshot]);
    ApplySplits(s, [PutSnapshot(snapshot)], DefinitionWrites(updated, q));
    ApplyOne(s, PutSnapshot(snapshot));
    DefinitionWritesReplace(s1, q, at, |s.defs|);
    assert updated[..|s.defs|] == updated && Rows(s.defs, q, at, |s.defs|) == updated;
    ApplySplits(s, [PutSnapshot(snapshot)] + DefinitionWrites(updated, q), [PutManifest(q.run)]);
    ApplyOne(s1.(defs := updated), PutManifest(q.run));
  }

  lemma PlanHasTheEffect(s: Store, q: Request, at: int)
    requires WellFormed(s)
    ensures ApplyAll(s, Plan(s, q, at)) == Effect(s, q, at)
  {
    if Stops(s, q).None? {
      var updated, written := AllUpdated(s.defs, q, at), s.sources + Layer(s.defs, q);
      SourceWritesAdd(s, s.defs, q);
      if Ready(s.defs, written, q) {
        var s1, snapshot := s.(sources := written), Build(updated, written, q.run);
        ApplySplits(s, SourceWrites(s.defs, q), Rest(snapshot, updated, q));
        RestHasTheEffect(s1, q, at, snapshot);
      }
    }
  }

  // ---- stopping anywhere ----

  /** s1 is what some of the writes before the manifest can leave of s. */
  ghost predicate Partway(s: Store, s1: Store, q: Request) {
    && s1.manifest == s.manifest
    && |s1.defs| == |s.defs|
    && (forall i | 0 <= i < |s.defs| :: s1.defs[i] == s.defs[i] || exists at :: s1.defs[i] == Updated(s.defs[i], q, at))
    && s.sources.Keys <= s1.sources.Keys <= s.sources.Keys + Layer(s.defs, q).Keys
    && (forall name | name in s.sources && name !in Layer(s.defs, q) :: s1.sources[name] == s.sources[name])
    && s.snapshots.Keys <= s1.snapshots.Keys <= s.snapshots.Keys + {q.run}
    && (forall g | g in s.snapshots && g != q.run :: s1.snapshots[g] == s.snapshots[g])
    && (q.run in s1.snapshots ==> s1.snapshots[q.run].generation == q.run)
    && (!CanBuild(s, q) ==> s1.defs == s.defs && s1.snapshots == s.snapshots)
  }

  ghost predicate CanBuild(s: Store, q: Request) {
    Ready(s.defs, s.sources + Layer(s.defs, q), q)
  }

  ghost predicate Early(s: Store, q: Request, w: Write) {
    match w
    case PutSource(name, _) => name in Layer(s.defs, q)
    case PutSnapshot(snapshot) => CanBuild(s, q) && snapshot.generation == q.run
    case PutDefinition(d) => CanBuild(s, q) && exists i, at :: 0 <= i < |s.defs| && d == Updated(s.defs[i], q, at)
    case PutManifest(_) => false
  }

  lemma EarlyWriteStaysPartway(s: Store, s1: Store, q: Request, w: Write)
    requires WellFormed(s) && Partway(s, s1, q) && Early(s, q, w)
    ensures Partway(s, Apply(s1, w), q)
  {
    if w.PutDefinition? {
      var i, at :| 0 <= i < |s.defs| && w.definition == Updated(s.defs[i], q, at);
      var s2 := Apply(s1, w);
      forall j | 0 <= j < |s.defs|
        ensures s2.defs[j] == s.defs[j] || exists at :: s2.defs[j] == Updated(s.defs[j], q, at)
      {
        assert s1.defs[j].key == s.defs[j].key;
        if s.defs[j].key == w.definition.key { assert i == j; }
      }
    }
  }

  lemma {:induction false} EarlyWritesStayPartway(s: Store, s1: Store, q: Request, writes: seq<Write>)
    requires WellFormed(s) && Partway(s, s1, q) && forall w | w in writes :: Early(s, q, w)
    ensures Partway(s, ApplyAll(s1, writes), q)
  {
    if writes != [] {
      EarlyWritesStayPartway(s, s1, q, writes[..|writes| - 1]);
      assert writes[|writes| - 1] in writes;
      EarlyWriteStaysPartway(s, ApplyAll(s1, writes[..|writes| - 1]), q, writes[|writes| - 1]);
    }
  }

  lemma {:induction false} SourceWritesAreInLayer(defs: seq<Definition>, q: Request)
    ensures forall w | w in SourceWrites(defs, q) :: w.PutSource? && w.source in Layer(defs, q)
  {
    if defs != [] { SourceWritesAreInLayer(defs[..|defs| - 1], q); }
  }

  lemma {:induction false} DefinitionWritesAreEarly(s: Store, q: Request, at: int, n: nat)
    requires n <= |s.defs| && CanBuild(s, q)
    ensures forall w | w in DefinitionWrites(AllUpdated(s.defs, q, at)[..n], q) :: Early(s, q, w)
  {
    var updated := AllUpdated(s.defs, q, at);
    if n > 0 {
      DefinitionWritesAreEarly(s, q, at, n - 1);
      assert updated[..n][..n - 1] == updated[..n - 1];
      assert updated[n - 1] == Updated(s.defs[n - 1], q, at);
    }
  }

  /** Every write but a final one of the manifest. */
  lemma PlanIsEarlyThenManifest(s: Store, q: Request, at: int, k: nat)
    requires Stops(s, q).None? && k < |Plan(s, q, at)|
    ensures forall w | w in Plan(s, q, at)[..k] :: Early(s, q, w)
  {
    var plan := Plan(s, q, at);
    var updated, written := AllUpdated(s.defs, q, at), s.sources + Layer(s.defs, q);
    SourceWritesAreInLayer(s.defs, q);
    if CanBuild(s, q) { DefinitionWritesAreEarly(s, q, at, |s.defs|); }
    assert s.defs[..|s.defs|] == s.defs && updated[..|s.defs|] == updated;
    if Ready(s.defs, written, q) {
      var early := SourceWrites(s.defs, q) + [PutSnapshot(Build(updated, written, q.run))]
          + DefinitionWrites(updated, q);
      assert plan == early + [PutManifest(q.run)] && plan[..k] == early[..k];
    }
  }

  lemma StoppedIsPartway(s: Store, q: Request, at: int, k: nat)
    requires WellFormed(s) && k <= |Plan(s, q, at)|
    ensures k < |Plan(s, q, at)| || Stops(s, q).Some? ==> Partway(s, ApplyAll(s, Plan(s, q, at)[..k]), q)
  {
    if k < |Plan(s, q, at)| {
      PlanIsEarlyThenManifest(s, q, at, k);
      EarlyWritesStayPartway(s, s, q, Plan(s, q, at)[..k]);
    }
  }

  lemma PartwayIsWellFormed(s: Store, s1: Store, q: Request)
    requires WellFormed(s) && Partway(s, s1, q)
    ensures WellFormed(s1)
  {
    assert forall i | 0 <= i < |s.defs| :: s1.defs[i].key == s.defs[i].key;
  }

  lemma PartwayKeepsTheParts(s: Store, s1: Store, q: Request)
    requires Partway(s, s1, q)
    ensures forall i | 0 <= i < |s.defs| :: s1.defs[i].key == s.defs[i].key && s1.defs[i].revision == s.defs[i].revision
    ensures Layer(s1.defs, q) == Layer(s.defs, q) && s1.sources + Layer(s1.defs, q) == s.sources + Layer(s.defs, q)
    ensures forall at :: AllUpdated(s1.defs, q, at) == AllUpdated(s.defs, q, at)
  {
    assert forall i | 0 <= i < |s.defs| :: s1.defs[i].key == s.defs[i].key && s1.defs[i].revision == s.defs[i].revision;
    SameLayer(s.defs, s1.defs, q);
  }

  lemma {:induction false} SameLayer(a: seq<Definition>, b: seq<Definition>, q: Request)
    requires |a| == |b| && forall i | 0 <= i < |a| :: a[i].key == b[i].key && a[i].revision == b[i].revision
    ensures Layer(a, q) == Layer(b, q)
  {
    if a != [] {
      SameLayer(a[..|a| - 1], b[..|b| - 1], q);
      assert NameOf(a[|a| - 1], q) == NameOf(b[|b| - 1], q);
    }
  }

  lemma PartwayDoesNotStop(s: Store, s1: Store, q: Request)
    requires WellFormed(s) && Stops(s, q).None? && Partway(s, s1, q)
    ensures Stops(s1, q).None?
  {
    PartwayKeepsTheParts(s, s1, q);
    StaleIsKept(s.defs, s1.defs, q);
    if s.manifest.Some? { assert s.manifest.value != q.run; }
  }

  lemma PartwayBuildsTheSame(s: Store, s1: Store, q: Request, v: Snapshot)
    requires Partway(s, s1, q)
    ensures CanBuild(s1, q) <==> CanBuild(s, q)
    ensures s1.snapshots[q.run := v] == s.snapshots[q.run := v]
  {
    PartwayKeepsTheParts(s, s1, q);
    assert forall i | 0 <= i < |s.defs| :: SourceOf(s1.defs[i], q) == SourceOf(s.defs[i], q);
  }

  /** Nothing a retry reads has changed, but for what the retry itself writes again. */
  lemma PartwayChangesNoOutcome(s: Store, s1: Store, q: Request, at: int)
    requires WellFormed(s) && Stops(s, q).None? && Partway(s, s1, q)
    ensures Stops(s1, q).None? && Effect(s1, q, at) == Effect(s, q, at)
  {
    PartwayDoesNotStop(s, s1, q);
    PartwayKeepsTheParts(s, s1, q);
    PartwayBuildsTheSame(s, s1, q, Build(AllUpdated(s.defs, q, at), s.sources + Layer(s.defs, q), q.run));
  }

  lemma StaleIsKept(a: seq<Definition>, b: seq<Definition>, q: Request)
    requires |a| == |b| && forall i | 0 <= i < |a| :: a[i].key == b[i].key && a[i].revision == b[i].revision
    ensures Stale(a, q) <==> Stale(b, q)
  {
  }

  // ---- what survives a crash ----

  /**
   * Stop after any k writes and run again: the store ends as an uninterrupted run leaves it.  If the
   * manifest had been written the retry changes nothing, and what counts is the attempt that wrote it.
   */
  lemma CrashThenRerun(s: Store, q: Request, at: int, k: nat, again: int)
    requires WellFormed(s) && k <= |Plan(s, q, at)|
    ensures var s1 := ApplyAll(s, Plan(s, q, at)[..k]);
      && WellFormed(s1)
      && (k < |Plan(s, q, at)| ==> ApplyAll(s1, Plan(s1, q, again)) == ApplyAll(s, Plan(s, q, again)))
      && (k == |Plan(s, q, at)| ==> s1 == Effect(s, q, at) && ApplyAll(s1, Plan(s1, q, again)) == s1)
  {
    var plan := Plan(s, q, at);
    var s1 := ApplyAll(s, plan[..k]);
    PlanHasTheEffect(s, q, at);
    if k < |plan| {
      StoppedIsPartway(s, q, at, k);
      PartwayIsWellFormed(s, s1, q);
      PartwayChangesNoOutcome(s, s1, q, again);
      PlanHasTheEffect(s, q, again);
      PlanHasTheEffect(s1, q, again);
    } else {
      assert plan[..k] == plan;
      EffectIsFinal(s, q, at, again);
      EffectIsWellFormed(s, q, at);
      PlanHasTheEffect(s1, q, again);
    }
  }

  lemma EffectIsWellFormed(s: Store, q: Request, at: int)
    requires WellFormed(s)
    ensures WellFormed(Effect(s, q, at))
  {
    assert forall i | 0 <= i < |s.defs| :: AllUpdated(s.defs, q, at)[i].key == s.defs[i].key;
  }

  lemma EffectIsFinal(s: Store, q: Request, at: int, again: int)
    requires WellFormed(s)
    ensures Effect(Effect(s, q, at), q, again) == Effect(s, q, at)
  {
    if Stops(s, q).None? && !CanBuild(s, q) {
      assert s.sources + Layer(s.defs, q) + Layer(s.defs, q) == s.sources + Layer(s.defs, q);
    }
  }

  datatype Attempt = Attempt(at: int, writes: nat)

  /** Every attempt stops before its last write. */
  ghost predicate AllCrash(s: Store, q: Request, attempts: seq<Attempt>)
    decreases |attempts|
  {
    attempts == [] ||
    (attempts[0].writes < |Plan(s, q, attempts[0].at)| &&
     AllCrash(ApplyAll(s, Plan(s, q, attempts[0].at)[..attempts[0].writes]), q, attempts[1..]))
  }

  ghost function Crashes(s: Store, q: Request, attempts: seq<Attempt>): Store
    requires AllCrash(s, q, attempts)
    decreases |attempts|
  {
    if attempts == [] then s
    else Crashes(ApplyAll(s, Plan(s, q, attempts[0].at)[..attempts[0].writes]), q, attempts[1..])
  }

  /** Any number of crashed attempts change neither what readers are served nor where a full run ends. */
  lemma {:induction false} AnyNumberOfCrashes(s: Store, q: Request, attempts: seq<Attempt>, at: int)
    requires WellFormed(s) && AllCrash(s, q, attempts)
    ensures var s1 := Crashes(s, q, attempts);
      WellFormed(s1) && Served(s1) == Served(s) && ApplyAll(s1, Plan(s1, q, at)) == ApplyAll(s, Plan(s, q, at))
    decreases |attempts|
  {
    if attempts != [] {
      var s1 := ApplyAll(s, Plan(s, q, attempts[0].at)[..attempts[0].writes]);
      CrashThenRerun(s, q, attempts[0].at, attempts[0].writes, at);
      ReadersSeeOldOrNew(s, q, attempts[0].at, attempts[0].writes);
      AnyNumberOfCrashes(s1, q, attempts[1..], at);
    }
  }

  /**
   * After each single write readers resolve the whole old snapshot, until the last one gives them the whole new one.
   */
  lemma ReadersSeeOldOrNew(s: Store, q: Request, at: int, k: nat)
    requires WellFormed(s) && k <= |Plan(s, q, at)|
    ensures var s1 := ApplyAll(s, Plan(s, q, at)[..k]);
      Served(s1) == if k == |Plan(s, q, at)| && Stops(s, q).None? && CanBuild(s, q)
                    then Some(Build(AllUpdated(s.defs, q, at), s.sources + Layer(s.defs, q), q.run))
                    else Served(s)
  {
    var plan := Plan(s, q, at);
    if k < |plan| {
      StoppedIsPartway(s, q, at, k);
      if s.manifest.Some? { assert s.manifest.value != q.run; }
    } else {
      assert plan[..k] == plan;
      PlanHasTheEffect(s, q, at);
    }
  }

  // ---- what is published ----

  /** Sources are stored under their own field's key. */
  ghost predicate OwnSources(s: Store) {
    forall i | 0 <= i < |s.defs| :: s.defs[i].source.Some? ==> s.defs[i].source.value.key == s.defs[i].key
  }

  lemma {:induction false} LayerAt(defs: seq<Definition>, q: Request, i: nat)
    requires DistinctKeys(defs) && i < |defs|
    ensures defs[i].key in q.updates ==>
        NameOf(defs[i], q) in Layer(defs, q) && Layer(defs, q)[NameOf(defs[i], q)] == q.updates[defs[i].key]
  {
    if i < |defs| - 1 { LayerAt(defs[..|defs| - 1], q, i); }
  }

  lemma {:induction false} LayerHasOnlyUpdates(defs: seq<Definition>, q: Request, name: SourceName)
    requires name in Layer(defs, q)
    ensures name.key in q.updates
  {
    var d := defs[|defs| - 1];
    if !(d.key in q.updates && name == NameOf(d, q)) { LayerHasOnlyUpdates(defs[..|defs| - 1], q, name); }
  }

  lemma {:induction false} ValuesAt(defs: seq<Definition>, sources: map<SourceName, Mapping>, i: nat,
      subscription: string)
    requires DistinctKeys(defs) && i < |defs|
    ensures var m := MappingOf(defs[i], sources);
      && (defs[i].key in Row(Values(defs, sources), subscription) <==> subscription in m)
      && (subscription in m ==> Row(Values(defs, sources), subscription)[defs[i].key] == m[subscription])
      && defs[i].key in Fields(defs) && Fields(defs)[defs[i].key] == Info(defs[i])
  {
    var before, d := defs[..|defs| - 1], defs[|defs| - 1];
    var m := MappingOf(d, sources);
    assert Row(Values(defs, sources), subscription) ==
           if subscription in m then Row(Values(before, sources), subscription)[d.key := m[subscription]]
               else Row(Values(before, sources), subscription);
    if i < |defs| - 1 {
      ValuesAt(before, sources, i, subscription);
    } else {
      NoSuchColumn(before, sources, d.key, subscription);
    }
  }

  lemma {:induction false} NoSuchColumn(defs: seq<Definition>, sources: map<SourceName, Mapping>, key: string,
      subscription: string)
    requires forall i | 0 <= i < |defs| :: defs[i].key != key
    ensures key !in Row(Values(defs, sources), subscription) && key !in Fields(defs)
  {
    if defs != [] {
      var before, d := defs[..|defs| - 1], defs[|defs| - 1];
      NoSuchColumn(before, sources, key, subscription);
      var m := MappingOf(d, sources);
      assert Row(Values(defs, sources), subscription) ==
             if subscription in m then Row(Values(before, sources), subscription)[d.key := m[subscription]]
                 else Row(Values(before, sources), subscription);
    }
  }

  /** A definition's stored mapping. */
  ghost predicate Maps(d: Definition, sources: map<SourceName, Mapping>, m: Mapping) {
    m == if d.source.Some? && d.source.value in sources then sources[d.source.value] else map[]
  }

  /** What a snapshot says of a definition: its own data, and for each subscription what its source says. */
  ghost predicate ServesField(snapshot: Snapshot, d: Definition, sources: map<SourceName, Mapping>) {
    && d.key in snapshot.fields
    && (var f := snapshot.fields[d.key];
        && f.name == d.name && f.enabled == d.enabled && f.sourceType == d.sourceType && f.revision == d.revision
        && f.resolvedAt == d.resolvedAt && f.expiresAt == d.expiresAt)
    && forall m, subscription | Maps(d, sources, m) ::
      && (d.key in Row(snapshot.subscriptions, subscription) <==> subscription in m)
      && (subscription in m ==> Row(snapshot.subscriptions, subscription)[d.key] == m[subscription])
  }

  lemma BuildServesTheFields(defs: seq<Definition>, sources: map<SourceName, Mapping>, generation: string)
    requires DistinctKeys(defs)
    ensures forall d | d in defs :: ServesField(Build(defs, sources, generation), d, sources)
  {
    forall d | d in defs ensures ServesField(Build(defs, sources, generation), d, sources) {
      var i :| 0 <= i < |defs| && defs[i] == d;
      forall subscription: string { ValuesAt(defs, sources, i, subscription); }
      ValuesAt(defs, sources, i, "");
    }
  }

  /** What the run makes of a field: its updates if it has any, and otherwise what is stored. */
  ghost predicate NewMapping(s: Store, q: Request, d: Definition, m: Mapping) {
    if d.key in q.updates then m == q.updates[d.key] else Maps(d, s.sources, m)
  }

  lemma UpdatedMapping(s: Store, q: Request, at: int, i: nat, m: Mapping)
    requires WellFormed(s) && OwnSources(s) && i < |s.defs| && NewMapping(s, q, s.defs[i], m)
    ensures MappingOf(Updated(s.defs[i], q, at), s.sources + Layer(s.defs, q)) == m
  {
    var d := s.defs[i];
    LayerAt(s.defs, q, i);
    if d.key !in q.updates && d.source.Some? && d.source.value in Layer(s.defs, q) {
      LayerHasOnlyUpdates(s.defs, q, d.source.value);
    }
  }

  /**
   * A finished run serves, for every field it updated, exactly the new mapping at the time of the
   * attempt, and for every other field exactly what its stored source says; the field's own name,
   * enabled flag, source type and revision stay.
   */
  lemma FinishedRunServesTheUpdates(s: Store, q: Request, at: int, i: nat, subscription: string, m: Mapping)
    requires WellFormed(s) && OwnSources(s) && Stops(s, q).None? && CanBuild(s, q) && i < |s.defs|
    requires NewMapping(s, q, s.defs[i], m)
    ensures var served := Served(Effect(s, q, at));
      var d := s.defs[i];
      && served.Some? && served.value.generation == q.run
      && (d.key in Row(served.value.subscriptions, subscription) <==> subscription in m)
      && (subscription in m ==> Row(served.value.subscriptions, subscription)[d.key] == m[subscription])
      && d.key in served.value.fields
      && var f := served.value.fields[d.key];
      && f.name == d.name && f.enabled == d.enabled && f.sourceType == d.sourceType && f.revision == d.revision
      && f.resolvedAt == (if d.key in q.updates then at else d.resolvedAt)
      && f.expiresAt == (if d.key in q.updates then None else d.expiresAt)
  {
    var updated, written := AllUpdated(s.defs, q, at), s.sources + Layer(s.defs, q);
    assert forall j | 0 <= j < |updated| :: updated[j].key == s.defs[j].key;
    ValuesAt(updated, written, i, subscription);
    UpdatedMapping(s, q, at, i, m);
  }

  /** It serves nothing but the fields there are. */
  lemma FinishedRunServesNoOthers(s: Store, q: Request, at: int, key: string, subscription: string)
    requires WellFormed(s) && Stops(s, q).None? && CanBuild(s, q) && forall d | d in s.defs :: d.key != key
    ensures var served := Served(Effect(s, q, at));
      && served.Some? && key !in served.value.fields && key !in Row(served.value.subscriptions, subscription)
  {
    var updated, written := AllUpdated(s.defs, q, at), s.sources + Layer(s.defs, q);
    forall j | 0 <= j < |updated| ensures updated[j].key != key { assert s.defs[j] in s.defs; }
    NoSuchColumn(updated, written, key, subscription);
  }

  /** And it stores the updated fields' new sources, keeping everything else of the rows. */
  lemma FinishedRunStoresTheUpdates(s: Store, q: Request, at: int, i: nat)
    requires WellFormed(s) && Stops(s, q).None? && CanBuild(s, q) && i < |s.defs|
    ensures var after := Effect(s, q, at);
      var d := s.defs[i];
      && |after.defs| == |s.defs| && after.manifest == Some(q.run)
      && (d.key !in q.updates ==> after.defs[i] == d)
      && (d.key in q.updates ==>
            && after.defs[i] == d.(source := Some(SourceName(d.key, d.revision, q.run)), resolvedAt := at,
                                   expiresAt := None)
            && SourceName(d.key, d.revision, q.run) in after.sources
            && after.sources[SourceName(d.key, d.revision, q.run)] == q.updates[d.key])
      && (forall name | name in s.sources && name.run != q.run ::
            name in after.sources && after.sources[name] == s.sources[name])
      && (forall g | g in s.snapshots && g != q.run :: g in after.snapshots && after.snapshots[g] == s.snapshots[g])
  {
    LayerAt(s.defs, q, i);
    forall name | name in Layer(s.defs, q) ensures name.run == q.run { LayerIsOfTheRun(s.defs, q, name); }
  }

  lemma {:induction false} LayerIsOfTheRun(defs: seq<Definition>, q: Request, name: SourceName)
    requires name in Layer(defs, q)
    ensures name.run == q.run
  {
    var d := defs[|defs| - 1];
    if !(d.key in q.updates && name == NameOf(d, q)) { LayerIsOfTheRun(defs[..|defs| - 1], q, name); }
  }

  /** What a reader gets for one subscription: a value or none for each field, of the enabled ones or of all. */
  function Resolve(s: Store, subscription: string, includeDisabled: bool): map<string, Option<string>> {
    if Served(s).None? then map[]
    else
      var snapshot := Served(s).value;
      var row := Row(snapshot.subscriptions, subscription);
      map key | key in snapshot.fields && (includeDisabled || snapshot.fields[key].enabled) ::
        if key in row then Some(row[key]) else None
  }

  /** After a finished run a reader gets exactly the enabled fields, or all of them, with their new mappings' values. */
  lemma FinishedRunResolves(s: Store, q: Request, at: int, subscription: string, includeDisabled: bool, key: string)
    requires WellFormed(s) && OwnSources(s) && Stops(s, q).None? && CanBuild(s, q)
    ensures var got := Resolve(Effect(s, q, at), subscription, includeDisabled);
      && (key in got <==> exists d :: d in s.defs && d.key == key && (includeDisabled || d.enabled))
      && (forall d, m | d in s.defs && d.key == key && key in got && NewMapping(s, q, d, m) ::
            got[key] == if subscription in m then Some(m[subscription]) else None)
  {
    var got := Resolve(Effect(s, q, at), subscription, includeDisabled);
    forall d, m | d in s.defs && d.key == key && NewMapping(s, q, d, m)
      ensures key in got <==> includeDisabled || d.enabled
      ensures key in got ==> got[key] == if subscription in m then Some(m[subscription]) else None
    {
      var i :| 0 <= i < |s.defs| && s.defs[i] == d;
      FinishedRunServesTheUpdates(s, q, at, i, subscription, m);
    }
    if d :| d in s.defs && d.key == key {
      var m := if d.key in q.updates then q.updates[d.key]
               else if d.source.Some? && d.source.value in s.sources then s.sources[d.source.value] else map[];
      assert NewMapping(s, q, d, m);
      forall e | e in s.defs && e.key == key ensures e == d {}
    } else {
      FinishedRunServesNoOthers(s, q, at, key, subscription);
    }
  }

  // ---- the store ----

  class ContextStore {
    var defs: seq<Definition>
    var sources: map<SourceName, Mapping>
    var snapshots: map<string, Snapshot>
    var manifest: Option<string>

    function Now(): Store
      reads this
    {
      Store(defs, sources, snapshots, manifest)
    }

    /** One upload or row update. */
    method Put(w: Write)
      modifies this
      ensures Now() == Apply(old(Now()), w)
    {
      match w
      case PutSource(source, mapping) => sources := sources[source := mapping];
      case PutSnapshot(snapshot) => snapshots := snapshots[snapshot.generation := snapshot];
      case PutDefinition(d) => defs :=
          seq(|defs|, i requires 0 <= i < |defs| reads this => if defs[i].key == d.key then d else defs[i]);
      case PutManifest(generation) => manifest := Some(generation);
    }

    static method AddColumn(rows: map<string, map<string, string>>, key: string, mapping: Mapping)
      returns (r: map<string, map<string, string>>)
      ensures r == Column(rows, key, mapping)
    {
      r := rows;
      var left := mapping.Keys;
      assert rows == Column(rows, key, map[]);
      assert (map x | x in mapping && x !in left :: mapping[x]) == map[];
      while left != {}
        invariant left <= mapping.Keys
        invariant r == Column(rows, key, map x | x in mapping && x !in left :: mapping[x])
      {
        var subscription :| subscription in left;
        ColumnOne(rows, key, mapping, left, subscription);
        r := r[subscription := Row(r, subscription)[key := mapping[subscription]]];
        left := left - {subscription};
      }
      assert (map x | x in mapping && x !in left :: mapping[x]) == mapping;
    }

    /** The next generation's content; None when a definition's source blob is missing. */
    method Generate(updated: seq<Definition>, generation: string) returns (snapshot: Option<Snapshot>)
      ensures snapshot == if (forall i | 0 <= i < |updated| :: updated[i].source.Some? ==>
          updated[i].source.value in sources)
                          then Some(Build(updated, sources, generation)) else None
      ensures snapshot.Some? && DistinctKeys(updated) ==>
                snapshot.value.generation == generation
                  && forall d | d in updated :: ServesField(snapshot.value, d, sources)
    {
      var fields: map<string, FieldInfo> := map[];
      var values: map<string, map<string, string>> := map[];
      for i := 0 to |updated|
        invariant fields == Fields(updated[..i]) && values == Values(updated[..i], sources)
        invariant forall j | 0 <= j < i :: updated[j].source.Some? ==> updated[j].source.value in sources
      {
        var d := updated[i];
        assert updated[..i + 1][..i] == updated[..i];
        fields := fields[d.key := Info(d)];
        if d.source.Some? && d.source.value !in sources { return None; }
        var mapping := MappingOf(d, sources);
        values := AddColumn(values, d.key, mapping);
      }
      assert updated[..|updated|] == updated;
      if DistinctKeys(updated) { BuildServesTheFields(updated, sources, generation); }
      return Some(Snapshot(generation, fields, values));
    }

    /** budget: how many writes the worker lives to make. */
    method PublishRefreshBatch(q: Request, at: int, budget: nat) returns (outcome: Outcome)
      requires WellFormed(Now())
      modifies this
      ensures var plan := Plan(old(Now()), q, at);
        Now() == ApplyAll(old(Now()), if budget < |plan| then plan[..budget] else plan)
      ensures outcome ==
        if Stops(old(Now()), q).Some? then Stops(old(Now()), q).value
        else if budget < |Plan(old(Now()), q, at)| then Crashed
        else if CanBuild(old(Now()), q) then Finished
        else Unreadable
      ensures outcome == Conflict <==>
                !Broken(old(Now())) && !ServesRun(old(Now()), q) && Changed(old(Now()), q)
      ensures outcome == AlreadyPublished <==> ServesRun(old(Now()), q)
      ensures outcome in {Conflict, AlreadyPublished} ==> Now() == old(Now())
    {
      StopsExactly(Now(), q, at);
      if manifest.Some? && manifest.value !in snapshots { return Unreadable; }
      if manifest.Some? && snapshots[manifest.value].generation == q.run { return AlreadyPublished; }
      if Stale(defs, q) { return Conflict; }

      outcome := WriteBatch(q, at, budget);
    }

    method WriteBatch(q: Request, at: int, budget: nat) returns (outcome: Outcome)
      requires WellFormed(Now())
      modifies this
      ensures var plan := PlanFrom(old(defs), old(sources), q, at);
        && Now() == ApplyAll(old(Now()), if budget < |plan| then plan[..budget] else plan)
        && outcome == if budget < |plan| then Crashed else if CanBuild(old(Now()), q) then Finished else Unreadable
    {
      ghost var start := Now();
      ghost var first := SourceWrites(defs, q);
      PlanParts(start, q, at);
      var ok, updated, left := WriteSources(q, at, budget);
      if !ok {
        Cut(first, PlanFrom(start.defs, start.sources, q, at)[|first|..], budget);
        return Crashed;
      }
      SourcesAreWritten(start, Now(), q);
      var next := Generate(updated, q.run);
      if next.None? { return Unreadable; }
      outcome := WriteRest(q, updated, next.value, left);
      ghost var rest := Rest(next.value, updated, q);
      ApplySplits(start, first, if left < |rest| then rest[..left] else rest);
      Cut(first, rest, budget);
    }

    method WriteRest(q: Request, updated: seq<Definition>, snapshot: Snapshot, budget: nat) returns (outcome: Outcome)
      modifies this
      ensures var writes := Rest(snapshot, updated, q);
        && Now() == ApplyAll(old(Now()), if budget < |writes| then writes[..budget] else writes)
        && outcome == if budget < |writes| then Crashed else Finished
    {
      ghost var start := Now();
      ghost var rows := DefinitionWrites(updated, q);
      ghost var writes := Rest(snapshot, updated, q);
      if budget == 0 {
        assert writes[..0] == [];
        return Crashed;
      }
      Put(PutSnapshot(snapshot));
      ApplyOne(start, PutSnapshot(snapshot));
      var ok, left := WriteDefinitions(updated, q, budget - 1);
      if !ok {
        assert writes[..budget] == [PutSnapshot(snapshot)] + rows[..budget - 1];
        ApplySplits(start, [PutSnapshot(snapshot)], rows[..budget - 1]);
        return Crashed;
      }
      ApplySplits(start, [PutSnapshot(snapshot)], rows);
      if left == 0 {
        assert writes[..budget] == [PutSnapshot(snapshot)] + rows;
        return Crashed;
      }
      Put(PutManifest(q.run));
      ApplySnoc(start, [PutSnapshot(snapshot)] + rows, PutManifest(q.run));
      return Finished;
    }

    /** left: the writes still to live for. */
    method WriteSources(q: Request, at: int, budget: nat) returns (ok: bool, updated: seq<Definition>, left: nat)
      modifies this
      ensures var writes := SourceWrites(old(defs), q);
        && ok == (|writes| <= budget)
        && Now() == ApplyAll(old(Now()), if ok then writes else writes[..budget])
        && (ok ==> left == budget - |writes| && updated == AllUpdated(old(defs), q, at))
    {
      var definitions := defs;
      updated, left := [], budget;
      for i := 0 to |definitions|
        invariant Written(Now(), old(Now()), definitions, q, i)
        invariant left == budget - |SourceWrites(definitions[..i], q)|
        invariant updated == AllUpdated(definitions[..i], q, at)
      {
        var d := definitions[i];
        SourceStep(definitions, q, i);
        UpdatedSnoc(definitions, q, at, i);
        if d.key in q.updates {
          if left == 0 { return false, updated, 0; }
          OneSourceMore(Now(), old(Now()), definitions, q, i);
          Put(PutSource(NameOf(d, q), q.updates[d.key]));
          left := left - 1;
        }
        updated := updated + [Updated(d, q, at)];
      }
      assert definitions[..|definitions|] == definitions;
      return true, updated, left;
    }

    method WriteDefinitions(updated: seq<Definition>, q: Request, budget: nat) returns (ok: bool, left: nat)
      modifies this
      ensures var writes := DefinitionWrites(updated, q);
        && ok == (|writes| <= budget)
        && Now() == ApplyAll(old(Now()), if ok then writes else writes[..budget])
        && (ok ==> left == budget - |writes|)
    {
      left := budget;
      for i := 0 to |updated|
        invariant Now() == ApplyAll(old(Now()), DefinitionWrites(updated[..i], q))
        invariant left == budget - |DefinitionWrites(updated[..i], q)|
      {
        var d := updated[i];
        assert updated[..i + 1][..i] == updated[..i];
        DefinitionWritesPrefix(updated, q, i + 1);
        if d.key in q.updates {
          if left == 0 {
            assert DefinitionWrites(updated, q)[..budget] == DefinitionWrites(updated[..i], q);
            return false, 0;
          }
          ApplySnoc(old(Now()), DefinitionWrites(updated[..i], q), PutDefinition(d));
          Put(PutDefinition(d));
          left := left - 1;
        }
        assert DefinitionWrites(updated[..i], q) + [] == DefinitionWrites(updated[..i], q);
      }
      assert updated[..|updated|] == updated;
      return true, left;
    }
  }

  lemma PlanParts(s: Store, q: Request, at: int)
    ensures var updated, written := AllUpdated(s.defs, q, at), s.sources + Layer(s.defs, q);
      PlanFrom(s.defs, s.sources, q, at) ==
      SourceWrites(s.defs, q) + if CanBuild(s, q) then Rest(Build(updated, written, q.run), updated, q) else []
    ensures forall i | 0 <= i < |s.defs| :: AllUpdated(s.defs, q, at)[i].source == SourceOf(s.defs[i], q)
  {
  }

  lemma UpdatedSnoc(defs: seq<Definition>, q: Request, at: int, i: nat)
    requires i < |defs|
    ensures AllUpdated(defs[..i + 1], q, at) == AllUpdated(defs[..i], q, at) + [Updated(defs[i], q, at)]
  {
  }

  lemma Cut(a: seq<Write>, b: seq<Write>, n: nat)
    ensures n <= |a| ==> (a + b)[..n] == a[..n]
    ensures |a| <= n <= |a + b| ==> (a + b)[..n] == a + b[..n - |a|]
    ensures (a + b)[|a|..] == b
  {
  }

  lemma SourcesAreWritten(s: Store, s1: Store, q: Request)
    requires s1 == ApplyAll(s, SourceWrites(s.defs, q))
    ensures s1.sources == s.sources + Layer(s.defs, q)
  {
    SourceWritesAdd(s, s.defs, q);
  }

  lemma SourceStep(defs: seq<Definition>, q: Request, i: nat)
    requires i < |defs|
    ensures var sofar := SourceWrites(defs[..i], q);
      && SourceWrites(defs[..i + 1], q) ==
           (if defs[i].key in q.updates then sofar + [PutSource(NameOf(defs[i], q), q.updates[defs[i].key])] else sofar)
      && |SourceWrites(defs[..i + 1], q)| <= |SourceWrites(defs, q)|
      && SourceWrites(defs, q)[..|sofar|] == sofar
  {
    assert defs[..i + 1][..i] == defs[..i];
    SourceWritesPrefix(defs, q, i + 1);
    SourceWritesPrefix(defs, q, i);
  }

  ghost predicate Written(s: Store, start: Store, defs: seq<Definition>, q: Request, i: nat)
    requires i <= |defs|
  {
    s == ApplyAll(start, SourceWrites(defs[..i], q))
  }

  lemma OneSourceMore(s: Store, start: Store, defs: seq<Definition>, q: Request, i: nat)
    requires i < |defs| && Written(s, start, defs, q, i) && defs[i].key in q.updates
    ensures Written(Apply(s, PutSource(NameOf(defs[i], q), q.updates[defs[i].key])), start, defs, q, i + 1)
  {
    SourceStep(defs, q, i);
    ApplySnoc(start, SourceWrites(defs[..i], q), PutSource(NameOf(defs[i], q), q.updates[defs[i].key]));
  }

  lemma ApplySnoc(s: Store, a: seq<Write>, w: Write)
    ensures ApplyAll(s, a + [w]) == Apply(ApplyAll(s, a), w)
  {
    assert (a + [w])[..|a|] == a;
  }

  lemma {:induction false} SourceWritesPrefix(defs: seq<Definition>, q: Request, n: nat)
    requires n <= |defs|
    ensures SourceWrites(defs[..n], q) <= SourceWrites(defs, q)
  {
    if n < |defs| {
      SourceWritesPrefix(defs[..|defs| - 1], q, n);
      assert defs[..|defs| - 1][..n] == defs[..n];
    } else {
      assert defs[..n] == defs;
    }
  }

  lemma {:induction false} DefinitionWritesPrefix(defs: seq<Definition>, q: Request, n: nat)
    requires n <= |defs|
    ensures DefinitionWrites(defs[..n], q) <= DefinitionWrites(defs, q)
  {
    if n < |defs| {
      DefinitionWritesPrefix(defs[..|defs| - 1], q, n);
      assert defs[..|defs| - 1][..n] == defs[..n];
    } else {
      assert defs[..n] == defs;
    }
  }

  /** Setting one more cell of a column. */
  lemma ColumnOne(rows: map<string, map<string, string>>, key: string, mapping: Mapping, left: set<string>,
      subscription: string)
    requires subscription in left && left <= mapping.Keys
    ensures var before: Mapping := map x | x in mapping && x !in left :: mapping[x];
      var after: Mapping := map x | x in mapping && x !in left - {subscription} :: mapping[x];
      var column := Column(rows, key, before);
      Column(rows, key, after) == column[subscription := Row(column, subscription)[key := mapping[subscription]]]
  {
  }
}
