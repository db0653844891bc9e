/**
 * Immutable snapshots behind one manifest blob, read through a process-wide cache keyed by the
 * manifest's ETag.  Threads of the process interleave between any two storage calls, and other
 * processes publish and delete at any moment.  An ETag is an index into the history of the manifest,
 * so none is ever used twice; a manifest version is absent or points at one immutable snapshot.
 */
module SnapshotCache {
  import opened Options

  datatype Snapshot = Snapshot(generation: string, content: string)

  /** Timed: a cached answer is served unasked until it expires, and absence is cached too. */
  datatype Flavour = Timed(ttl: nat) | Untimed

  /** version, start and installed are history: the version held, and the fill or renewal that installed it. */
  datatype Entry = Entry(value: Option<Snapshot>, etag: Option<nat>, expires: int, version: nat, start: nat,
      installed: nat)

  datatype Phase =
    | Idle
    | Asking(start: nat)
    | Missing(start: nat, version: nat)
    | Tagged(start: nat, etag: nat)
    | Fetching(start: nat, etag: nat)
    | Holding(start: nat, etag: nat, version: nat)
    | Uploading(start: nat, snapshot: Snapshot)
    | Published(start: nat, version: nat)
    | Served(start: nat, value: Option<Snapshot>, version: nat)
    | Hit(at: nat, entry: Entry)

  /** Which version was current after each step, and when. */
  datatype Instant = Instant(version: nat, clock: int)

  datatype System = System(
    manifest: seq<Option<Snapshot>>,
    cache: Option<Entry>,
    threads: map<nat, Phase>,
    clock: int,
    log: seq<Instant>)

  datatype Action =
    | Begin
    | AskProperties
    | Compare
    | DownloadManifest
    | InstallDownloaded
    | UploadSnapshot(snapshot: Snapshot)
    | UploadManifest
    | KeepOwn(etagKnown: bool)
    | GiveUp
    | OthersPublish(snapshot: Snapshot)
    | Delete
    | Forget
    | Elapse(d: nat)

  predicate Init(s: System) {
    s.manifest == [None] && s.cache == None && s.threads == map[] && s.log == [Instant(0, s.clock)]
  }

  function PhaseOf(s: System, thread: nat): Phase {
    if thread in s.threads then s.threads[thread] else Idle
  }

  function Ttl(f: Flavour): nat { if f.Timed? then f.ttl else 0 }

  function At(s: System, thread: nat, phase: Phase): System {
    s.(threads := s.threads[thread := phase])
  }

  /** The version current now; it was current already at the instant |log| - 1. */
  function Current(s: System): nat
    requires |s.manifest| > 0
  {
    |s.manifest| - 1
  }

  predicate Fresh(f: Flavour, s: System) {
    f.Timed? && s.cache.Some? && s.cache.value.expires > s.clock
  }

  predicate Matches(s: System, etag: nat) {
    s.cache.Some? && s.cache.value.value.Some? && s.cache.value.etag == Some(etag)
  }

  // Each step below is one call of one thread to storage or to the locked cache; a thread elsewhere is left as it is.

  function BeginRead(f: Flavour, s: System, thread: nat): System
    requires |s.log| > 0
  {
    if !(PhaseOf(s, thread).Idle? || PhaseOf(s, thread).Served? || PhaseOf(s, thread).Hit?) then s
    else if Fresh(f, s) then At(s, thread, Hit(|s.log| - 1, s.cache.value))
    else At(s, thread, Asking(|s.log| - 1))
  }

  function Ask(f: Flavour, s: System, thread: nat): System
    requires |s.manifest| > 0
  {
    match PhaseOf(s, thread)
    case Asking(start) =>
      if s.manifest[Current(s)].Some? then At(s, thread, Tagged(start, Current(s)))
      else if f.Timed? then At(s, thread, Missing(start, Current(s)))
      else At(s, thread, Served(start, None, Current(s)))
    case _ => s
  }

  /** An equal ETag renews a timed entry; of an untimed one only the history of when it was last confirmed changes. */
  function CompareTag(f: Flavour, s: System, thread: nat): System {
    match PhaseOf(s, thread)
    case Tagged(start, etag) =>
      if Matches(s, etag) && start < |s.log| then
        var kept := s.cache.value;
        At(s.(cache := Some(kept.(expires := s.log[start].clock + Ttl(f), start := start, installed := |s.log|))),
           thread, Served(start, kept.value, kept.version))
      else At(s, thread, Fetching(start, etag))
    case _ => s
  }

  function Download(s: System, thread: nat): System
    requires |s.manifest| > 0
  {
    match PhaseOf(s, thread)
    case Fetching(start, etag) =>
      if s.manifest[Current(s)].Some? then At(s, thread, Holding(start, etag, Current(s))) else At(s, thread, Idle)
    case _ => s
  }

  function Install(f: Flavour, s: System, thread: nat): System {
    match PhaseOf(s, thread)
    case Holding(start, etag, version) =>
      At(s.(cache := Some(Filled(f, s, Some(etag), version, start))), thread,
          Served(start, Content(s, version), version))
    case Missing(start, version) =>
      At(s.(cache := Some(Filled(f, s, None, version, start))), thread, Served(start, Content(s, version), version))
    case _ => s
  }

  function Content(s: System, version: nat): Option<Snapshot> {
    if version < |s.manifest| then s.manifest[version] else None
  }

  function Filled(f: Flavour, s: System, etag: Option<nat>, version: nat, start: nat): Entry {
    Entry(Content(s, version), etag, s.clock + Ttl(f), version, start, |s.log|)
  }

  function Upload(s: System, thread: nat): System {
    match PhaseOf(s, thread)
    case Uploading(start, snapshot) =>
        At(s.(manifest := s.manifest + [Some(snapshot)]), thread, Published(start, |s.manifest|))
    case _ => s
  }

  function KeepPublished(f: Flavour, s: System, thread: nat, etagKnown: bool): System {
    match PhaseOf(s, thread)
    case Published(start, version) =>
      At(s.(cache := Some(Filled(f, s, if etagKnown then Some(version) else None, version, start))), thread, Idle)
    case _ => s
  }

  function Act(f: Flavour, s: System, thread: nat, a: Action): (r: System)
    requires |s.manifest| > 0 && |s.log| > 0
  {
    match a
    case Begin => BeginRead(f, s, thread)
    case AskProperties => Ask(f, s, thread)
    case Compare => CompareTag(f, s, thread)
    case DownloadManifest => Download(s, thread)
    case InstallDownloaded => Install(f, s, thread)
    case UploadSnapshot(snapshot) => if PhaseOf(s, thread).Idle? then At(s, thread, Uploading(|s.log| - 1, snapshot))
        else s
    case UploadManifest => Upload(s, thread)
    case KeepOwn(etagKnown) => KeepPublished(f, s, thread, etagKnown)
    case GiveUp => At(s, thread, Idle)
    case OthersPublish(snapshot) => s.(manifest := s.manifest + [Some(snapshot)])
    case Delete => s.(manifest := s.manifest + [None])
    case Forget => s.(cache := None)
    case Elapse(d) => s.(clock := s.clock + d)
  }

  function Step(f: Flavour, s: System, thread: nat, a: Action): (r: System)
    requires |s.manifest| > 0 && |s.log| > 0
    ensures |r.manifest| > 0 && |r.log| > 0
  {
    Logged(s, Act(f, s, thread, a))
  }

  function Logged(s: System, r: System): System {
    r.(log := s.log + [Instant(if |r.manifest| > 0 then |r.manifest| - 1 else 0, r.clock)])
  }

  // ---- the invariant ----

  /** Version v was current at some instant of a..b. */
  ghost predicate Seen(log: seq<Instant>, v: nat, a: nat, b: nat) {
    exists t: nat :: a <= t <= b < |log| && log[t].version == v
  }

  ghost predicate LogOk(s: System) {
    && |s.manifest| > 0 && |s.log| > 0
    && s.log[|s.log| - 1] == Instant(|s.manifest| - 1, s.clock)
    && (forall i, j | 0 <= i <= j < |s.log| :: s.log[i].version <= s.log[j].version && s.log[i].clock <= s.log[j].clock)
  }

  ghost predicate EntryOk(f: Flavour, s: System, e: Entry) {
    && e.version < |s.manifest| && e.value == s.manifest[e.version]
    && (e.etag.Some? ==> e.etag.value <= e.version)
    && Seen(s.log, e.version, e.start, e.installed)
    && e.expires <= s.log[e.installed].clock + Ttl(f)
  }

  ghost predicate PhaseOk(f: Flavour, s: System, p: Phase)
    requires |s.log| > 0
  {
    var now := |s.log| - 1;
    match p
    case Idle => true
    case Asking(start) => start <= now
    case Missing(start, version) => version < |s.manifest| && s.manifest[version] == None
        && Seen(s.log, version, start, now)
    case Tagged(start, etag) => Seen(s.log, etag, start, now)
    case Fetching(start, etag) => start <= now && etag < |s.manifest|
    case Holding(start, etag, version) => etag <= version < |s.manifest| && Seen(s.log, version, start, now)
    case Uploading(start, _) => start <= now
    case Published(start, version) => version < |s.manifest| && Seen(s.log, version, start, now)
    case Served(start, value, version) => version < |s.manifest| && value == s.manifest[version]
        && Seen(s.log, version, start, now)
    case Hit(at, entry) =>
      f.Timed? && EntryOk(f, s, entry) && entry.installed <= at <= now && s.log[at].clock < entry.expires
  }

  ghost predicate Inv(f: Flavour, s: System) {
    && LogOk(s)
    && (s.cache.Some? ==> EntryOk(f, s, s.cache.value))
    && (forall i | i in s.threads :: PhaseOk(f, s, s.threads[i]))
  }

  /** Versions and instants only grow, so what was seen stays seen. */
  ghost predicate Grows(s: System, r: System) {
    && |s.manifest| <= |r.manifest| && r.manifest[..|s.manifest|] == s.manifest
    && |s.log| < |r.log| && r.log[..|s.log|] == s.log
  }

  lemma SeenStays(log: seq<Instant>, log': seq<Instant>, v: nat, a: nat, b: nat, b': nat)
    requires Seen(log, v, a, b) && |log| <= |log'| && log'[..|log|] == log && b <= b' < |log'|
    ensures Seen(log', v, a, b')
  {
    var t: nat :| a <= t <= b < |log| && log[t].version == v;
    assert log'[t] == log[t];
  }

  lemma EntryStays(f: Flavour, s: System, r: System, e: Entry)
    requires Grows(s, r) && EntryOk(f, s, e)
    ensures EntryOk(f, r, e)
  {
    SeenStays(s.log, r.log, e.version, e.start, e.installed, e.installed);
    assert r.log[e.installed] == s.log[e.installed] && r.manifest[e.version] == s.manifest[e.version];
  }

  lemma PhaseStays(f: Flavour, s: System, r: System, p: Phase)
    requires LogOk(s) && Grows(s, r) && PhaseOk(f, s, p)
    ensures |r.log| > 0 && PhaseOk(f, r, p)
  {
    var now, now' := |s.log| - 1, |r.log| - 1;
    match p
    case Missing(start, version) => SeenStays(s.log, r.log, version, start, now, now');
    case Tagged(start, etag) => SeenStays(s.log, r.log, etag, start, now, now');
    case Holding(start, etag, version) => SeenStays(s.log, r.log, version, start, now, now');
    case Published(start, version) => SeenStays(s.log, r.log, version, start, now, now');
    case Served(start, value, version) => SeenStays(s.log, r.log, version, start, now, now');
    case Hit(at, entry) =>
      EntryStays(f, s, r, entry);
      assert r.log[at] == s.log[at];
    case _ =>
  }

  /** What one thread's call may touch: its own phase, the cache, and the end of the manifest's history. */
  ghost predicate Touches(s: System, r: System, thread: nat) {
    && r.log == s.log && s.clock <= r.clock
    && s.manifest <= r.manifest
    && (forall i | i in r.threads && i != thread :: i in s.threads && r.threads[i] == s.threads[i])
  }

  lemma ActTouches(f: Flavour, s: System, thread: nat, a: Action)
    requires LogOk(s)
    ensures Touches(s, Act(f, s, thread, a), thread)
  {
  }

  lemma StepGrows(s: System, r: System, thread: nat)
    requires LogOk(s) && Touches(s, r, thread)
    ensures Grows(s, Logged(s, r)) && LogOk(Logged(s, r))
  {
  }

  /** A renewal's snapshot was current since the renewing call began, even if a publisher slipped in between. */
  lemma RenewalWasCurrent(f: Flavour, s: System, start: nat, etag: nat)
    requires Inv(f, s) && Matches(s, etag) && Seen(s.log, etag, start, |s.log| - 1)
    ensures Seen(s.log, s.cache.value.version, start, |s.log| - 1)
  {
    var e := s.cache.value;
    var asked: nat :| start <= asked < |s.log| && s.log[asked].version == etag;
    var held: nat :| e.start <= held <= e.installed < |s.log| && s.log[held].version == e.version;
    if e.version != etag { assert asked < held; }
  }

  /** The moving thread's new phase, and the entry it left in the cache. */
  ghost predicate Moved(f: Flavour, r: System, thread: nat) {
    |r.log| > 0 && PhaseOk(f, r, PhaseOf(r, thread)) && (r.cache.Some? ==> EntryOk(f, r, r.cache.value))
  }

  ghost predicate Before(f: Flavour, s: System, r: System, thread: nat) {
    Inv(f, s) && Touches(s, r, thread) && PhaseOk(f, s, PhaseOf(s, thread))
  }

  lemma KeptIsOk(f: Flavour, s: System, r: System, thread: nat)
    requires Before(f, s, r, thread) && r.cache in {s.cache, None} && PhaseOf(r, thread) in {PhaseOf(s, thread), Idle}
    ensures Moved(f, Logged(s, r), thread)
  {
    StepGrows(s, r, thread);
    PhaseStays(f, s, Logged(s, r), PhaseOf(s, thread));
    if s.cache.Some? { EntryStays(f, s, Logged(s, r), s.cache.value); }
  }

  lemma BeginIsOk(f: Flavour, s: System, thread: nat)
    requires |s.manifest| > 0 && |s.log| > 0 && Before(f, s, BeginRead(f, s, thread), thread)
    ensures Moved(f, Logged(s, BeginRead(f, s, thread)), thread)
  {
    var l := Logged(s, BeginRead(f, s, thread));
    StepGrows(s, BeginRead(f, s, thread), thread);
    PhaseStays(f, s, l, PhaseOf(s, thread));
    if s.cache.Some? { EntryStays(f, s, l, s.cache.value); }
    assert l.log[|s.log| - 1] == s.log[|s.log| - 1];
  }

  lemma AskIsOk(f: Flavour, s: System, thread: nat)
    requires |s.manifest| > 0 && |s.log| > 0 && Before(f, s, Ask(f, s, thread), thread)
    ensures Moved(f, Logged(s, Ask(f, s, thread)), thread)
  {
    var l := Logged(s, Ask(f, s, thread));
    StepGrows(s, Ask(f, s, thread), thread);
    PhaseStays(f, s, l, PhaseOf(s, thread));
    if s.cache.Some? { EntryStays(f, s, l, s.cache.value); }
    assert l.log[|s.log| - 1] == s.log[|s.log| - 1];
  }

  lemma DownloadIsOk(f: Flavour, s: System, thread: nat)
    requires |s.manifest| > 0 && |s.log| > 0 && Before(f, s, Download(s, thread), thread)
    ensures Moved(f, Logged(s, Download(s, thread)), thread)
  {
    var l := Logged(s, Download(s, thread));
    StepGrows(s, Download(s, thread), thread);
    PhaseStays(f, s, l, PhaseOf(s, thread));
    if s.cache.Some? { EntryStays(f, s, l, s.cache.value); }
    assert l.log[|s.log| - 1] == s.log[|s.log| - 1];
  }

  lemma CompareIsOk(f: Flavour, s: System, thread: nat)
    requires Before(f, s, CompareTag(f, s, thread), thread)
    ensures Moved(f, Logged(s, CompareTag(f, s, thread)), thread)
  {
    var l := Logged(s, CompareTag(f, s, thread));
    StepGrows(s, CompareTag(f, s, thread), thread);
    PhaseStays(f, s, l, PhaseOf(s, thread));
    if s.cache.Some? { EntryStays(f, s, l, s.cache.value); }
    if PhaseOf(s, thread).Tagged? && Matches(s, PhaseOf(s, thread).etag) {
      var start := PhaseOf(s, thread).start;
      RenewalWasCurrent(f, s, start, PhaseOf(s, thread).etag);
      SeenStays(s.log, l.log, s.cache.value.version, start, |s.log| - 1, |s.log|);
      assert l.log[start] == s.log[start];
    }
  }

  lemma FillIsOk(f: Flavour, s: System, r: System, thread: nat, etagKnown: bool)
    requires Before(f, s, r, thread) && r in {Install(f, s, thread), KeepPublished(f, s, thread, etagKnown)}
    ensures Moved(f, Logged(s, r), thread)
  {
    var l := Logged(s, r);
    StepGrows(s, r, thread);
    PhaseStays(f, s, l, PhaseOf(s, thread));
    if s.cache.Some? { EntryStays(f, s, l, s.cache.value); }
  }

  lemma PublisherIsOk(f: Flavour, s: System, r: System, thread: nat, snapshot: Snapshot)
    requires Before(f, s, r, thread)
    requires r == Upload(s, thread)
        || (PhaseOf(s, thread).Idle? && r == At(s, thread, Uploading(|s.log| - 1, snapshot)))
    ensures Moved(f, Logged(s, r), thread)
  {
    var l := Logged(s, r);
    StepGrows(s, r, thread);
    PhaseStays(f, s, l, PhaseOf(s, thread));
    if s.cache.Some? { EntryStays(f, s, l, s.cache.value); }
    assert l.log[|s.log|].version == |r.manifest| - 1;
  }

  lemma MoverIsOk(f: Flavour, s: System, thread: nat, a: Action)
    requires Inv(f, s)
    ensures Moved(f, Step(f, s, thread, a), thread)
  {
    var r := Act(f, s, thread, a);
    ActTouches(f, s, thread, a);
    match a
    case Begin => BeginIsOk(f, s, thread);
    case AskProperties => AskIsOk(f, s, thread);
    case Compare => CompareIsOk(f, s, thread);
    case DownloadManifest => DownloadIsOk(f, s, thread);
    case InstallDownloaded => FillIsOk(f, s, r, thread, true);
    case UploadSnapshot(snapshot) =>
      if PhaseOf(s, thread).Idle? { PublisherIsOk(f, s, r, thread, snapshot); } else { KeptIsOk(f, s, r, thread); }
    case UploadManifest => PublisherIsOk(f, s, r, thread, Snapshot("", ""));
    case KeepOwn(etagKnown) => FillIsOk(f, s, r, thread, etagKnown);
    case _ => KeptIsOk(f, s, r, thread);
  }

  lemma StepKeepsInv(f: Flavour, s: System, thread: nat, a: Action)
    requires Inv(f, s)
    ensures Inv(f, Step(f, s, thread, a))
  {
    var r := Step(f, s, thread, a);
    ActTouches(f, s, thread, a);
    StepGrows(s, Act(f, s, thread, a), thread);
    MoverIsOk(f, s, thread, a);
    forall i | i in r.threads ensures PhaseOk(f, r, r.threads[i]) {
      if i != thread { PhaseStays(f, s, r, s.threads[i]); }
    }
  }

  // ---- every run ----

  function Run(f: Flavour, s: System, steps: seq<(nat, Action)>): (r: System)
    requires |s.manifest| > 0 && |s.log| > 0
    ensures |r.manifest| > 0 && |r.log| > 0
    decreases |steps|
  {
    if steps == [] then s else Run(f, Step(f, s, steps[0].0, steps[0].1), steps[1..])
  }

  lemma {:induction false} RunKeepsInv(f: Flavour, s: System, steps: seq<(nat, Action)>)
    requires Inv(f, s)
    ensures Inv(f, Run(f, s, steps))
    decreases |steps|
  {
    if steps != [] {
      StepKeepsInv(f, s, steps[0].0, steps[0].1);
      RunKeepsInv(f, Step(f, s, steps[0].0, steps[0].1), steps[1..]);
    }
  }

  lemma InitHoldsInv(f: Flavour, s: System)
    requires Init(s)
    ensures Inv(f, s)
  {
  }

  /** Whenever the manifest's ETag is the cached one, the cached snapshot is the one currently published. */
  lemma EtagAgreesWithStorage(f: Flavour, s: System, steps: seq<(nat, Action)>)
    requires Init(s)
    ensures var r := Run(f, s, steps);
      |r.manifest| > 0 && (r.cache.Some? && r.cache.value.etag == Some(Current(r)) ==>
          r.cache.value.value == r.manifest[Current(r)])
  {
    InitHoldsInv(f, s);
    RunKeepsInv(f, s, steps);
  }

  /** The snapshot, or absence, that was current at instant t. */
  function PublishedAt(r: System, t: nat): Option<Snapshot>
    requires t < |r.log|
  {
    if r.log[t].version < |r.manifest| then r.manifest[r.log[t].version] else None
  }

  /** A read that went to storage answers with what was current at some instant of the call. */
  lemma AnswersWereCurrent(f: Flavour, s: System, steps: seq<(nat, Action)>, thread: nat) returns (t: nat)
    requires Init(s) && |s.manifest| > 0 && |s.log| > 0 && PhaseOf(Run(f, s, steps), thread).Served?
    ensures var r := Run(f, s, steps);
      var call := PhaseOf(r, thread);
      call.start <= t < |r.log| && PublishedAt(r, t) == call.value
  {
    InitHoldsInv(f, s);
    RunKeepsInv(f, s, steps);
    var r := Run(f, s, steps);
    var call := PhaseOf(r, thread);
    t :| call.start <= t < |r.log| && r.log[t].version == call.version;
  }

  /**
   * A read served from the timed cache answers with what was current at some instant between the
   * start of the fill or renewal that installed the entry and that installation, which was less
   * than the time-to-live ago.  An untimed cache never answers unasked.
   */
  lemma HitsAreRecent(f: Flavour, s: System, steps: seq<(nat, Action)>, thread: nat) returns (t: nat)
    requires Init(s) && |s.manifest| > 0 && |s.log| > 0 && PhaseOf(Run(f, s, steps), thread).Hit?
    ensures var r := Run(f, s, steps);
      var hit := PhaseOf(r, thread);
      && f.Timed?
      && hit.entry.start <= t <= hit.entry.installed <= hit.at < |r.log|
      && PublishedAt(r, t) == hit.entry.value
      && r.log[hit.at].clock < r.log[hit.entry.installed].clock + f.ttl
  {
    InitHoldsInv(f, s);
    RunKeepsInv(f, s, steps);
    var r := Run(f, s, steps);
    var hit := PhaseOf(r, thread);
    assert EntryOk(f, r, hit.entry);
    t :| hit.entry.start <= t <= hit.entry.installed && r.log[t].version == hit.entry.version;
  }

  lemma {:induction false} RunSplits(f: Flavour, s: System, a: seq<(nat, Action)>, b: seq<(nat, Action)>)
    requires |s.manifest| > 0 && |s.log| > 0
    ensures Run(f, s, a + b) == Run(f, Run(f, s, a), b)
    decreases |a|
  {
    if a == [] {
      assert a + b == b;
    } else {
      assert (a + b)[1..] == a[1..] + b;
      RunSplits(f, Step(f, s, a[0].0, a[0].1), a[1..], b);
    }
  }

  // ---- a thread nobody interleaves with ----

  /** A read's calls in order; those a read does not come to leave everything as it is. */
  function ReadOf(f: Flavour, s: System, thread: nat): System
    requires |s.manifest| > 0 && |s.log| > 0
  {
    var asked := Step(f, Step(f, s, thread, Begin), thread, AskProperties);
    Step(f, Step(f, Step(f, asked, thread, Compare), thread, DownloadManifest), thread, InstallDownloaded)
  }

  /** A cached answer that has not expired is served as it is, absence included, and only by a timed cache. */
  ghost predicate ServedUnasked(f: Flavour, s: System) {
    f != Untimed && s.cache.Some? && s.clock < s.cache.value.expires
  }

  /** The cache holds a snapshot under the ETag of the manifest. */
  ghost predicate UnderItsTag(s: System)
    requires |s.manifest| > 0
  {
    s.cache.Some? && s.cache.value.value.Some? && s.cache.value.etag == Some(|s.manifest| - 1)
  }

  /**
   * Left alone, a read is served the unexpired entry, or else what the manifest names; and a cached entry is
   * then what it names, good for another time-to-live.
   */
  lemma ReadAlone(f: Flavour, s: System, thread: nat)
    requires Inv(f, s) && PhaseOf(s, thread) == Idle
    ensures var r := ReadOf(f, s, thread);
      var named := s.manifest[|s.manifest| - 1];
      && r.manifest == s.manifest
      && (ServedUnasked(f, s) ==> PhaseOf(r, thread) == Hit(|s.log| - 1, s.cache.value) && r.cache == s.cache)
      && (!ServedUnasked(f, s) ==>
            && PhaseOf(r, thread).Served? && PhaseOf(r, thread).value == named
            && (named.Some? || f != Untimed ==>
                  && r.cache.Some? && r.cache.value.value == named
                  && r.cache.value.expires == s.clock + (if f == Untimed then 0 else f.ttl))
            && (named.None? && f == Untimed ==> r.cache == s.cache))
  {
    if ServedUnasked(f, s) {
      HitAlone(f, s, thread);
    } else if s.manifest[|s.manifest| - 1].None? {
      AbsentAlone(f, s, thread);
    } else {
      PresentAlone(f, s, thread);
    }
  }

  lemma HitAlone(f: Flavour, s: System, thread: nat)
    requires Inv(f, s) && PhaseOf(s, thread) == Idle && ServedUnasked(f, s)
    ensures var r := ReadOf(f, s, thread);
      r.manifest == s.manifest && r.cache == s.cache && PhaseOf(r, thread) == Hit(|s.log| - 1, s.cache.value)
  {
    var s1 := Step(f, s, thread, Begin);
    assert PhaseOf(s1, thread) == Hit(|s.log| - 1, s.cache.value);
  }

  lemma AbsentAlone(f: Flavour, s: System, thread: nat)
    requires Inv(f, s) && PhaseOf(s, thread) == Idle && !ServedUnasked(f, s) && s.manifest[|s.manifest| - 1].None?
    ensures var r := ReadOf(f, s, thread);
      && r.manifest == s.manifest && PhaseOf(r, thread).Served? && PhaseOf(r, thread).value == None
      && (if f == Untimed then r.cache == s.cache
          else r.cache.Some? && r.cache.value.value == None && r.cache.value.expires == s.clock + f.ttl)
  {
    var s1 := Step(f, s, thread, Begin);
    assert PhaseOf(s1, thread) == Asking(|s.log| - 1);
    var s2 := Step(f, s1, thread, AskProperties);
    var s3 := Step(f, s2, thread, Compare);
    var s4 := Step(f, s3, thread, DownloadManifest);
    assert PhaseOf(s4, thread) == PhaseOf(s2, thread) && s4.cache == s.cache && s4.clock == s.clock;
  }

  /** Up to the comparison: the thread has the manifest's ETag, and nothing else has changed. */
  ghost predicate HasTag(s: System, s2: System, thread: nat)
    requires |s.manifest| > 0 && |s.log| > 0
  {
    && s2.manifest == s.manifest && s2.cache == s.cache && s2.clock == s.clock
    && |s.log| <= |s2.log| && s2.log[..|s.log|] == s.log
    && PhaseOf(s2, thread) == Tagged(|s.log| - 1, |s.manifest| - 1)
  }

  lemma TagsAlone(f: Flavour, s: System, thread: nat)
    requires Inv(f, s) && PhaseOf(s, thread) == Idle && !ServedUnasked(f, s) && s.manifest[|s.manifest| - 1].Some?
    ensures HasTag(s, Step(f, Step(f, s, thread, Begin), thread, AskProperties), thread)
  {
    var s1 := Step(f, s, thread, Begin);
    assert PhaseOf(s1, thread) == Asking(|s.log| - 1);
  }

  /** What a read that went to storage ends with. */
  ghost predicate Answered(f: Flavour, s: System, r: System, thread: nat, answer: Option<Snapshot>) {
    && r.manifest == s.manifest && PhaseOf(r, thread).Served? && PhaseOf(r, thread).value == answer
    && r.cache.Some? && r.cache.value.value == answer
    && r.cache.value.expires == s.clock + (if f == Untimed then 0 else f.ttl)
  }

  lemma RenewsAlone(f: Flavour, s: System, s2: System, thread: nat)
    requires Inv(f, s) && HasTag(s, s2, thread) && UnderItsTag(s)
    ensures var r := Step(f, Step(f, Step(f, s2, thread, Compare), thread, DownloadManifest), thread,
                          InstallDownloaded);
      Answered(f, s, r, thread, s.manifest[|s.manifest| - 1])
  {
    assert EntryOk(f, s, s.cache.value);
    assert s2.log[|s.log| - 1] == s.log[|s.log| - 1];
    var s3 := Step(f, s2, thread, Compare);
    assert Answered(f, s, s3, thread, s.manifest[|s.manifest| - 1]);
    var s4 := Step(f, s3, thread, DownloadManifest);
    assert Answered(f, s, s4, thread, s.manifest[|s.manifest| - 1]);
  }

  lemma DownloadsAlone(f: Flavour, s: System, s2: System, thread: nat)
    requires Inv(f, s) && HasTag(s, s2, thread) && !UnderItsTag(s) && s.manifest[|s.manifest| - 1].Some?
    ensures var r := Step(f, Step(f, Step(f, s2, thread, Compare), thread, DownloadManifest), thread,
                          InstallDownloaded);
      Answered(f, s, r, thread, s.manifest[|s.manifest| - 1])
  {
    var current := |s.manifest| - 1;
    var s3 := Step(f, s2, thread, Compare);
    assert PhaseOf(s3, thread) == Fetching(|s.log| - 1, current) && s3.manifest == s.manifest && s3.clock == s.clock;
    var s4 := Step(f, s3, thread, DownloadManifest);
    assert PhaseOf(s4, thread) == Holding(|s.log| - 1, current, current);
    assert s4.manifest == s.manifest && s4.clock == s.clock;
  }

  lemma PresentAlone(f: Flavour, s: System, thread: nat)
    requires Inv(f, s) && PhaseOf(s, thread) == Idle && !ServedUnasked(f, s) && s.manifest[|s.manifest| - 1].Some?
    ensures Answered(f, s, ReadOf(f, s, thread), thread, s.manifest[|s.manifest| - 1])
  {
    var s2 := Step(f, Step(f, s, thread, Begin), thread, AskProperties);
    TagsAlone(f, s, thread);
    if UnderItsTag(s) { RenewsAlone(f, s, s2, thread); } else { DownloadsAlone(f, s, s2, thread); }
  }

  /** It downloads exactly if the cached snapshot is not under the manifest's ETag. */
  lemma DownloadsExactlyOnAnotherTag(f: Flavour, s: System, thread: nat)
    requires Inv(f, s) && PhaseOf(s, thread) == Idle && !ServedUnasked(f, s) && s.manifest[|s.manifest| - 1].Some?
    ensures var compared := Step(f, Step(f, Step(f, s, thread, Begin), thread, AskProperties), thread, Compare);
      if UnderItsTag(s) then PhaseOf(compared, thread).Served? else PhaseOf(compared, thread).Fetching?
  {
    TagsAlone(f, s, thread);
  }

  /** Left alone, a publisher's snapshot becomes the one named, and cached under its own ETag if that is known. */
  lemma PublishAlone(f: Flavour, s: System, thread: nat, snapshot: Snapshot, etagKnown: bool)
    requires Inv(f, s) && PhaseOf(s, thread) == Idle
    ensures var uploaded := Step(f, Step(f, s, thread, UploadSnapshot(snapshot)), thread, UploadManifest);
      var r := Step(f, uploaded, thread, KeepOwn(etagKnown));
      && r.manifest == s.manifest + [Some(snapshot)] && PhaseOf(r, thread) == Idle
      && r.cache.Some? && r.cache.value.value == Some(snapshot)
      && r.cache.value.etag == (if etagKnown then Some(|s.manifest|) else None)
      && r.cache.value.expires == s.clock + (if f == Untimed then 0 else f.ttl)
  {
    var s1 := Step(f, s, thread, UploadSnapshot(snapshot));
    assert PhaseOf(s1, thread) == Uploading(|s.log| - 1, snapshot) && s1.manifest == s.manifest;
    var s2 := Step(f, s1, thread, UploadManifest);
    assert PhaseOf(s2, thread) == Published(|s.log| - 1, |s.manifest|) && s2.clock == s.clock;
  }

  /** A publisher between the property read and the download: the entry holds a newer snapshot than its ETag names. */
  lemma PublisherSlipsIn(f: Flavour, s: System, first: Snapshot, second: Snapshot)
    requires Init(s)
    ensures var asked := [(0, OthersPublish(first)), (1, Begin), (1, AskProperties), (1, Compare)];
      var filled := [(0, OthersPublish(second)), (1, DownloadManifest), (1, InstallDownloaded)];
      var r := Run(f, s, asked + filled);
      r.manifest == [None, Some(first), Some(second)] &&
      r.cache.Some? && r.cache.value.etag == Some(1) && r.cache.value.value == Some(second)
  {
    var asked := [(0, OthersPublish(first)), (1, Begin), (1, AskProperties), (1, Compare)];
    var filled := [(0, OthersPublish(second)), (1, DownloadManifest), (1, InstallDownloaded)];
    RunSplits(f, s, asked, filled);
    UpToTheDownload(f, s, first);
    FromTheDownload(f, Run(f, s, asked), first, second);
  }

  lemma UpToTheDownload(f: Flavour, s: System, first: Snapshot)
    requires Init(s)
    ensures var r := Run(f, s, [(0, OthersPublish(first)), (1, Begin), (1, AskProperties), (1, Compare)]);
      r.manifest == [None, Some(first)] && r.cache == None && PhaseOf(r, 1) == Fetching(1, 1) && |r.log| == 5
  {
    var s1 := Step(f, s, 0, OthersPublish(first));
    var s2 := Step(f, s1, 1, Begin);
    assert PhaseOf(s2, 1) == Asking(1);
    var s3 := Step(f, s2, 1, AskProperties);
    assert PhaseOf(s3, 1) == Tagged(1, 1);
    RunOfFour(f, s, (0, OthersPublish(first)), (1, Begin), (1, AskProperties), (1, Compare));
  }

  lemma RunOfFour(f: Flavour, s: System, a: (nat, Action), b: (nat, Action), c: (nat, Action), d: (nat, Action))
    requires |s.manifest| > 0 && |s.log| > 0
    ensures Run(f, s, [a, b, c, d]) == Step(f, Step(f, Step(f, Step(f, s, a.0, a.1), b.0, b.1), c.0, c.1), d.0, d.1)
  {
    assert [a, b, c, d][1..] == [b, c, d] && [b, c, d][1..] == [c, d] && [c, d][1..] == [d] && |[d][1..]| == 0;
    var s1 := Step(f, s, a.0, a.1);
    var s2 := Step(f, s1, b.0, b.1);
    var s3 := Step(f, s2, c.0, c.1);
    assert Run(f, s2, [c, d]) == Run(f, s3, [d]);
    assert Run(f, s3, [d]) == Step(f, s3, d.0, d.1);
  }

  lemma FromTheDownload(f: Flavour, s: System, first: Snapshot, second: Snapshot)
    requires s.manifest == [None, Some(first)] && PhaseOf(s, 1) == Fetching(1, 1) && |s.log| > 0
    ensures var r := Run(f, s, [(0, OthersPublish(second)), (1, DownloadManifest), (1, InstallDownloaded)]);
      r.manifest == [None, Some(first), Some(second)] &&
      r.cache.Some? && r.cache.value.etag == Some(1) && r.cache.value.value == Some(second)
  {
    var s1 := Step(f, s, 0, OthersPublish(second));
    var s2 := Step(f, s1, 1, DownloadManifest);
    assert PhaseOf(s2, 1) == Holding(1, 1, 2);
    var a: (nat, Action), b: (nat, Action), c: (nat, Action) := (0, OthersPublish(second)), (1, DownloadManifest),
        (1, InstallDownloaded);
    assert [a, b, c][1..] == [b, c] && [b, c][1..] == [c] && |[c][1..]| == 0;
    assert Run(f, s1, [b, c]) == Run(f, s2, [c]);
    assert Run(f, s2, [c]) == Step(f, s2, 1, InstallDownloaded);
  }
}
