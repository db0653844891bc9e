/**
 * Activity Log coverage: which window each subscription is collected over, and what its coverage row
 * may claim afterwards.  Instants are real seconds; stored times are whole seconds.
 */
module ActivityCoverage {
  import opened Options
  import opened Text
  import opened Decimals

  const DAY := 86400.0
  const RETENTION_DAYS := 89
  const MAX_PAGE_THROTTLES: nat := 60

  /** Enabled recipe ids with their versions. */
  type Recipes = map<string, nat>

  datatype Coverage = Coverage(start: Option<int>, end: int, ids: set<string>, versions: Recipes)

  /** The settings functions clamp historicalDays into 1..89 and overlap to be non-negative. */
  datatype Config = Config(recipes: Recipes, historicalDays: nat, overlap: real)

  ghost predicate Valid(c: Config) {
    1 <= c.historicalDays <= RETENTION_DAYS && c.overlap >= 0.0
  }

  datatype Unit = Unit(subscription: string, start: int, end: int, coverage: Coverage)

  datatype Reason = InitialFull | Reconcile | Refresh

  function Fmt(t: real): int { t.Floor }

  function Later(a: real, b: real): real { if a < b then b else a }

  function Earlier(a: real, b: real): real { if b < a then b else a }

  function RetentionStart(cutoff: real): real { cutoff - RETENTION_DAYS as real * DAY }

  function HistoricalStart(c: Config, cutoff: real): real {
    Later(cutoff - c.historicalDays as real * DAY, RetentionStart(cutoff))
  }

  predicate Drift(prior: Coverage, c: Config) {
    prior.versions != c.recipes || prior.ids != c.recipes.Keys
  }

  function StartOf(prior: Option<Coverage>, c: Config, cutoff: real): real {
    if prior.None? || Drift(prior.value, c) then HistoricalStart(c, cutoff)
    else Later(prior.value.end as real - c.overlap, RetentionStart(cutoff))
  }

  function UnitFor(subscription: string, prior: Option<Coverage>, c: Config, cutoff: real): Unit {
    var start := StartOf(prior, c, cutoff);
    var earliest := if prior.Some? && prior.value.start.Some? then Earlier(prior.value.start.value as real, start)
        else start;
    Unit(subscription, Fmt(start), Fmt(cutoff), Coverage(Some(Fmt(earliest)), Fmt(cutoff), c.recipes.Keys, c.recipes))
  }

  /** Never collected, or under other recipes or versions of them. */
  ghost predicate Anew(coverage: map<string, Coverage>, s: string, c: Config) {
    s !in coverage || coverage[s].versions != c.recipes || coverage[s].ids != c.recipes.Keys
  }

  /**
   * The instant a subscription's window is to begin at: the last historicalDays when collected anew, and otherwise
   * the overlap before its row's end, but no more than 89 days back.
   */
  ghost predicate Begins(from: real, coverage: map<string, Coverage>, s: string, c: Config, cutoff: real) {
    if Anew(coverage, s, c) then from == cutoff - c.historicalDays as real * 86400.0
    else
      && from >= coverage[s].end as real - c.overlap && from >= cutoff - 89.0 * 86400.0
      && (from == coverage[s].end as real - c.overlap || from == cutoff - 89.0 * 86400.0)
  }

  predicate InWindow(u: Unit, t: real) {
    u.start as real <= t <= u.end as real
  }

  /** A whole-second window that holds every instant from one to another, and less than a second more. */
  ghost predicate Spans(u: Unit, from: real, to: real) {
    && (forall t: real | from <= t && t + 1.0 <= to :: InWindow(u, t))
    && (forall t: real | InWindow(u, t) :: from < t + 1.0 && t <= to)
    && u.start as real <= from < u.start as real + 1.0 && u.end as real <= to < u.end as real + 1.0
  }

  /** What a unit collects and what its row will claim, in terms of the row it had. */
  lemma WindowIsWhatIsMissing(coverage: map<string, Coverage>, s: string, c: Config, cutoff: real, from: real)
    requires Valid(c) && Begins(from, coverage, s, c, cutoff)
    ensures var u := PlannedUnit(coverage, s, c, cutoff);
      && u.subscription == s && Spans(u, from, cutoff)
      && u.coverage.end == u.end && u.coverage.ids == c.recipes.Keys && u.coverage.versions == c.recipes
      && u.coverage.start == Some(if s in coverage && coverage[s].start.Some? && coverage[s].start.value < u.start
                                  then coverage[s].start.value else u.start)
  {
    var prior := if s in coverage then Some(coverage[s]) else None;
    assert StartOf(prior, c, cutoff) == from;
  }

  method ResolvePlan(coverage: map<string, Coverage>, subscriptions: set<string>, c: Config, cutoff: real)
    returns (units: seq<Unit>, reason: Reason)
    ensures PlannedFor(units, coverage, subscriptions, c, cutoff)
    ensures Valid(c) ==> forall u, from: real | u in units && Begins(from, coverage, u.subscription, c, cutoff) ::
              Spans(u, from, cutoff)
    ensures reason ==
      if coverage == map[] then InitialFull
      else if exists s | s in subscriptions :: Anew(coverage, s, c) then Reconcile
      else Refresh
  {
    forall s ensures Anew(coverage, s, c) <==> s !in coverage || Drift(coverage[s], c) {}
    units := [];
    var added, reconciled := 0, 0;
    var sorted := Sorted(subscriptions);
    for k := 0 to |sorted|
      invariant |units| == k && added >= 0 && reconciled >= 0
      invariant forall i | 0 <= i < k ::
          units[i] == UnitFor(sorted[i], if sorted[i] in coverage then Some(coverage[sorted[i]]) else None, c, cutoff)
      invariant added + reconciled > 0 <==>
          exists i | 0 <= i < k :: sorted[i] !in coverage || Drift(coverage[sorted[i]], c)
    {
      var s := sorted[k];
      var prior := if s in coverage then Some(coverage[s]) else None;
      if prior.None? {
        added := added + 1;
      } else if Drift(prior.value, c) {
        reconciled := reconciled + 1;
      }
      units := units + [UnitFor(s, prior, c, cutoff)];
    }
    assert Names(units) == sorted;
    forall s | s in subscriptions ensures s in sorted { assert s in Elements(sorted); }
    forall i | 0 <= i < |sorted| ensures sorted[i] in subscriptions { assert sorted[i] in Elements(sorted); }
    reason := if coverage == map[] then InitialFull else if reconciled > 0 || added > 0 then Reconcile else Refresh;
    forall u, from: real | Valid(c) && u in units && Begins(from, coverage, u.subscription, c, cutoff)
      ensures Spans(u, from, cutoff)
    {
      WindowIsWhatIsMissing(coverage, u.subscription, c, cutoff, from);
    }
  }

  // ---- what one subscription's coverage row may claim ----

  /** An instant whose whole window was fetched and stored, and the recipes it was filtered with. */
  datatype Point = Point(recipes: Recipes, instant: real)

  ghost function Window(u: Unit): iset<Point> {
    iset p: Point | p.recipes == u.coverage.versions && u.start as real <= p.instant <= u.end as real
  }

  ghost predicate Landed(landed: iset<Point>, t: real) {
    exists recipes :: Point(recipes, t) in landed
  }

  /** Every instant the row claims, and retention still keeps, was collected. */
  ghost predicate Truthful(row: Coverage, landed: iset<Point>, cutoff: real) {
    row.start.Some? ==> forall t: real | Later(row.start.value as real,
        RetentionStart(cutoff)) <= t <= row.end as real :: Landed(landed, t)
  }

  /** Recipes changed while the row ends before the window a changed recipe set is collected over. */
  predicate Gap(prior: Option<Coverage>, c: Config, cutoff: real) {
    prior.Some? && prior.value.start.Some? && Drift(prior.value, c) && c.historicalDays < RETENTION_DAYS
    && prior.value.end < Fmt(HistoricalStart(c, cutoff))
  }

  ghost predicate WellFormed(prior: Option<Coverage>, cutoff: real) {
    prior.Some? ==> prior.value.end as real <= cutoff && (prior.value.start.Some? ==>
        prior.value.start.value <= prior.value.end)
  }

  lemma SuccessWithoutAGapIsTruthful(prior: Option<Coverage>, c: Config, cutoff: real, before: real,
      landed: iset<Point>, t: real)
    requires Valid(c) && WellFormed(prior, before) && before <= cutoff && !Gap(prior, c, cutoff)
    requires prior.Some? ==> Truthful(prior.value, landed, before)
    requires var row := UnitFor("", prior, c, cutoff).coverage;
      Later(row.start.value as real, RetentionStart(cutoff)) <= t <= row.end as real
    ensures Landed(landed + Window(UnitFor("", prior, c, cutoff)), t)
  {
    var u := UnitFor("", prior, c, cutoff);
    if u.start as real <= t {
      assert Point(c.recipes, t) in Window(u);
    } else {
      assert Landed(landed, t);
      var recipes :| Point(recipes, t) in landed;
      assert Point(recipes, t) in landed + Window(u);
    }
  }

  /** Half a second before the new window, if only the old claim had been collected. */
  lemma GapIsMissed(prior: Option<Coverage>, c: Config, cutoff: real) returns (t: real)
    requires Valid(c) && WellFormed(prior, cutoff) && Gap(prior, c, cutoff)
    ensures var u := UnitFor("", prior, c, cutoff);
      && Later(u.coverage.start.value as real, RetentionStart(cutoff)) <= t <= u.coverage.end as real
      && prior.value.end as real < t < u.start as real
  {
    t := Fmt(HistoricalStart(c, cutoff)) as real - 0.5;
    assert HistoricalStart(c, cutoff) >= RetentionStart(cutoff) + DAY;
    assert HistoricalStart(c, cutoff) <= cutoff;
  }

  /**
   * The exact condition: a collected window keeps every truthful row truthful if and only if the
   * recipes did not change while coverage ended before the historical start.
   */
  lemma SuccessIsTruthfulExactlyWithoutAGap(prior: Coverage, c: Config, cutoff: real)
    requires Valid(c) && WellFormed(Some(prior), cutoff)
    ensures !Gap(Some(prior), c, cutoff) <==>
            forall landed, before: real | before <= cutoff && WellFormed(Some(prior), before)
                && Truthful(prior, landed, before) ::
              Truthful(UnitFor("", Some(prior), c, cutoff).coverage,
                  landed + Window(UnitFor("", Some(prior), c, cutoff)), cutoff)
  {
    var u := UnitFor("", Some(prior), c, cutoff);
    if Gap(Some(prior), c, cutoff) {
      var landed := iset p: Point | p.recipes == prior.versions && p.instant <= prior.end as real;
      forall t: real | t <= prior.end as real ensures Landed(landed, t) { assert Point(prior.versions, t) in landed; }
      assert Truthful(prior, landed, cutoff);
      var t := GapIsMissed(Some(prior), c, cutoff);
      assert !Landed(landed + Window(u), t);
    } else {
      forall landed, before: real | before <= cutoff && WellFormed(Some(prior), before)
          && Truthful(prior, landed, before)
        ensures Truthful(u.coverage, landed + Window(u), cutoff)
      {
        forall t: real | Later(u.coverage.start.value as real, RetentionStart(cutoff)) <= t <= u.coverage.end as real
          ensures Landed(landed + Window(u), t)
        {
          SuccessWithoutAGapIsTruthful(Some(prior), c, cutoff, before, landed, t);
        }
      }
    }
  }

  // ---- every run of one subscription ----

  /** since: where the window of the last change of recipes began. */
  datatype World = World(row: Option<Coverage>, landed: iset<Point>, since: int, cutoff: real)

  /** A run may fetch and store any pages before it fails. */
  datatype Event = Collected(config: Config, cutoff: real, success: bool, pages: iset<Point>) | Flushed

  ghost function Happen(w: World, e: Event): World {
    match e
    case Flushed => World(None, iset{}, 0, w.cutoff)
    case Collected(c, cutoff, success, pages) =>
      var u := UnitFor("", w.row, c, cutoff);
      if !success then World(w.row, w.landed + pages, w.since, cutoff)
      else World(Some(u.coverage), w.landed + pages + Window(u),
                 if w.row.None? || Drift(w.row.value, c) || u.start < w.since then u.start else w.since, cutoff)
  }

  /** The clock does not go back; changes of recipes leave no gap. */
  ghost predicate Possible(w: World, e: Event) {
    e.Collected? ==> Valid(e.config) && w.cutoff <= e.cutoff && (e.success ==> !Gap(w.row, e.config, e.cutoff))
  }

  /** Everything since the last change of recipes was collected with the recipes the row records. */
  ghost predicate CurrentSince(w: World) {
    w.row.Some? ==>
      && w.row.value.ids == w.row.value.versions.Keys
      && forall t: real | Later(w.since as real, RetentionStart(w.cutoff)) <= t <= w.row.value.end as real ::
           Point(w.row.value.versions, t) in w.landed
  }

  ghost predicate Inv(w: World) {
    && WellFormed(w.row, w.cutoff)
    && (w.row.Some? ==> w.row.value.start.Some? && Truthful(w.row.value, w.landed, w.cutoff))
  }

  lemma EventKeepsInv(w: World, e: Event)
    requires Inv(w) && Possible(w, e)
    ensures Inv(Happen(w, e))
  {
    if e.Collected? {
      var w' := Happen(w, e);
      if e.success {
        var u := UnitFor("", w.row, e.config, e.cutoff);
        forall t: real | Later(u.coverage.start.value as real, RetentionStart(e.cutoff)) <= t <= u.coverage.end as real
          ensures Landed(w'.landed, t)
        {
          SuccessWithoutAGapIsTruthful(w.row, e.config, e.cutoff, w.cutoff, w.landed, t);
          var recipes :| Point(recipes, t) in w.landed + Window(u);
          assert Point(recipes, t) in w'.landed;
        }
      } else if w.row.Some? {
        forall t: real | Later(w.row.value.start.value as real,
            RetentionStart(e.cutoff)) <= t <= w.row.value.end as real
          ensures Landed(w'.landed, t)
        {
          assert Landed(w.landed, t);
          var recipes :| Point(recipes, t) in w.landed;
          assert Point(recipes, t) in w'.landed;
        }
      }
    }
  }

  /** This half needs no condition on when recipes change. */
  lemma EventKeepsCurrent(w: World, e: Event)
    requires CurrentSince(w) && WellFormed(w.row, w.cutoff)
    requires e.Collected? ==> Valid(e.config) && w.cutoff <= e.cutoff
    ensures CurrentSince(Happen(w, e)) && WellFormed(Happen(w, e).row, Happen(w, e).cutoff)
  {
    if e.Collected? && e.success {
      var w' := Happen(w, e);
      var u := UnitFor("", w.row, e.config, e.cutoff);
      forall t: real | Later(w'.since as real, RetentionStart(e.cutoff)) <= t <= u.coverage.end as real
        ensures Point(e.config.recipes, t) in w'.landed
      {
        if u.start as real <= t { assert Point(e.config.recipes, t) in Window(u); }
      }
    }
  }

  ghost predicate History(w: World, events: seq<Event>)
    decreases |events|
  {
    events == [] || (Possible(w, events[0]) && History(Happen(w, events[0]), events[1..]))
  }

  ghost function Final(w: World, events: seq<Event>): World
    decreases |events|
  {
    if events == [] then w else Final(Happen(w, events[0]), events[1..])
  }

  /**
   * Whatever runs fail and whenever: each instant the row claims and retention keeps was collected,
   * and each since the last change of recipes with the recipes the row records.
   */
  lemma {:induction false} CoverageIsTrue(w: World, events: seq<Event>)
    requires Inv(w) && CurrentSince(w) && History(w, events)
    ensures Inv(Final(w, events)) && CurrentSince(Final(w, events))
    decreases |events|
  {
    if events != [] {
      EventKeepsInv(w, events[0]);
      EventKeepsCurrent(w, events[0]);
      CoverageIsTrue(Happen(w, events[0]), events[1..]);
    }
  }

  // ---- the collection itself ----

  datatype Answer = Page | Throttled | Transient | Error

  /** Each query's nextLink chain is finite; what each request is answered is arbitrary. */
  datatype Service = Service(lastPage: Unit -> nat, answer: (Unit, nat, nat) -> Answer)

  /** Whether every page lands: no error, and never more consecutive waits than allowed. */
  function Lands(service: Service, u: Unit, page: nat, attempts: nat): bool
    requires attempts <= MAX_PAGE_THROTTLES
    decreases if page <= service.lastPage(u) then service.lastPage(u) - page else 0, MAX_PAGE_THROTTLES - attempts
  {
    match service.answer(u, page, attempts)
    case Error => false
    case Page => page >= service.lastPage(u) || Lands(service, u, page + 1, 0)
    case _ => attempts < MAX_PAGE_THROTTLES && Lands(service, u, page, attempts + 1)
  }

  predicate Waits(a: Answer) { a.Throttled? || a.Transient? }

  /** From this many waits on, the request is put off until a page comes, without one wait too many. */
  ghost predicate ComesThrough(service: Service, u: Unit, page: nat, from: nat) {
    exists t: nat :: from <= t <= 60 && PageAt(service, u, page, from, t)
  }

  ghost predicate PageAt(service: Service, u: Unit, page: nat, from: nat, t: nat) {
    service.answer(u, page, t).Page? && forall k: nat | from <= k < t :: Waits(service.answer(u, page, k))
  }

  lemma WaitsOn(service: Service, u: Unit, page: nat, from: nat)
    requires Waits(service.answer(u, page, from))
    ensures ComesThrough(service, u, page, from) <==>
        from < MAX_PAGE_THROTTLES && ComesThrough(service, u, page, from + 1)
  {
    if ComesThrough(service, u, page, from) {
      var t: nat :| from <= t <= MAX_PAGE_THROTTLES && PageAt(service, u, page, from, t);
      assert PageAt(service, u, page, from + 1, t);
    }
    if from < MAX_PAGE_THROTTLES && ComesThrough(service, u, page, from + 1) {
      var t: nat :| from + 1 <= t <= MAX_PAGE_THROTTLES && PageAt(service, u, page, from + 1, t);
      assert PageAt(service, u, page, from, t);
    }
  }

  lemma Answered(service: Service, u: Unit, page: nat, from: nat)
    requires from <= MAX_PAGE_THROTTLES && !Waits(service.answer(u, page, from))
    ensures ComesThrough(service, u, page, from) <==> service.answer(u, page, from).Page?
  {
    if service.answer(u, page, from).Page? { assert PageAt(service, u, page, from, from); }
  }

  /** What landing means: every page up to the last is answered after at most 60 consecutive waits and no error. */
  lemma {:induction false} LandsExactlyWhenEveryPageComes(service: Service, u: Unit, page: nat, attempts: nat)
    requires attempts <= MAX_PAGE_THROTTLES && page <= service.lastPage(u)
    ensures Lands(service, u, page, attempts) <==>
            ComesThrough(service, u, page, attempts)
                && forall p | page < p <= service.lastPage(u) :: ComesThrough(service, u, p, 0)
    decreases service.lastPage(u) - page, MAX_PAGE_THROTTLES - attempts
  {
    match service.answer(u, page, attempts)
    case Error => Answered(service, u, page, attempts);
    case Page =>
      Answered(service, u, page, attempts);
      if page < service.lastPage(u) { LandsExactlyWhenEveryPageComes(service, u, page + 1, 0); }
    case _ =>
      WaitsOn(service, u, page, attempts);
      if attempts < MAX_PAGE_THROTTLES { LandsExactlyWhenEveryPageComes(service, u, page, attempts + 1); }
  }

  class ActivityLogPipeline {
    var coverage: map<string, Coverage>

    /** The row advances only after the last page. */
    method CollectSubscription(u: Unit, service: Service) returns (success: bool, pages: nat)
      modifies this
      ensures success == Lands(service, u, 0, 0)
      ensures success ==> pages == service.lastPage(u) + 1
      ensures coverage == if success then old(coverage)[u.subscription := u.coverage] else old(coverage)
    {
      var attempts: nat := 0;
      pages := 0;
      while true
        invariant attempts <= MAX_PAGE_THROTTLES && pages <= service.lastPage(u) && coverage == old(coverage)
        invariant Lands(service, u, 0, 0) == Lands(service, u, pages, attempts)
        decreases service.lastPage(u) - pages, MAX_PAGE_THROTTLES - attempts
      {
        match service.answer(u, pages, attempts) {
          case Error => return false, pages;
          case Page =>
            attempts := 0;
            pages := pages + 1;
            if pages > service.lastPage(u) { break; }
          case _ =>
            if attempts + 1 > MAX_PAGE_THROTTLES { return false, pages; }
            attempts := attempts + 1;
        }
      }
      coverage := coverage[u.subscription := u.coverage];
      success := true;
    }

    method Refresh(subscriptions: set<string>, c: Config, cutoff: real, service: Service)
      returns (units: seq<Unit>, committed: nat)
      modifies this
      ensures PlannedFor(units, old(coverage), subscriptions, c, cutoff)
      ensures coverage == Commit(old(coverage), units, service)
      ensures committed == |LandedUnits(units, service)|
    {
      var reason;
      units, reason := ResolvePlan(coverage, subscriptions, c, cutoff);
      committed := 0;
      for k := 0 to |units|
        invariant coverage == Commit(old(coverage), units[..k], service) && committed == Count(units[..k], service)
      {
        assert units[..k + 1][..k] == units[..k];
        var success, pages := CollectSubscription(units[k], service);
        if success { committed := committed + 1; }
      }
      assert units[..|units|] == units;
      CountIsTheLanded(units, service);
    }
  }

  ghost function LandedUnits(units: seq<Unit>, service: Service): set<int> {
    set k | 0 <= k < |units| && Lands(service, units[k], 0, 0)
  }

  lemma {:induction false} CountIsTheLanded(units: seq<Unit>, service: Service)
    ensures Count(units, service) == |LandedUnits(units, service)|
  {
    if units != [] {
      var n := |units| - 1;
      var before := units[..n];
      CountIsTheLanded(before, service);
      assert LandedUnits(units, service) ==
          LandedUnits(before, service) + if Lands(service, units[n], 0, 0) then {n} else {};
    }
  }

  function PlannedUnit(coverage: map<string, Coverage>, s: string, c: Config, cutoff: real): Unit {
    UnitFor(s, if s in coverage then Some(coverage[s]) else None, c, cutoff)
  }

  function Names(units: seq<Unit>): seq<string> {
    seq(|units|, i requires 0 <= i < |units| => units[i].subscription)
  }

  ghost predicate PlannedFor(units: seq<Unit>, coverage: map<string, Coverage>, subscriptions: set<string>, c: Config,
      cutoff: real)
  {
    && Increasing(Names(units)) && Elements(Names(units)) == subscriptions
    && forall u | u in units :: u == PlannedUnit(coverage, u.subscription, c, cutoff)
  }

  function Commit(coverage: map<string, Coverage>, units: seq<Unit>, service: Service): map<string, Coverage> {
    if units == [] then coverage
    else
      var before, u := Commit(coverage, units[..|units| - 1], service), units[|units| - 1];
      if Lands(service, u, 0, 0) then before[u.subscription := u.coverage] else before
  }

  function Count(units: seq<Unit>, service: Service): nat {
    if units == [] then 0
    else Count(units[..|units| - 1], service) + if Lands(service, units[|units| - 1], 0, 0) then 1 else 0
  }

  lemma {:induction false} OthersKeepTheirRows(coverage: map<string, Coverage>, units: seq<Unit>, service: Service,
      s: string)
    requires s !in Names(units)
    ensures var after := Commit(coverage, units, service);
      (s in after <==> s in coverage) && (s in after ==> after[s] == coverage[s])
  {
    if units != [] {
      var before := units[..|units| - 1];
      assert Names(units) == Names(before) + [units[|units| - 1].subscription];
      OthersKeepTheirRows(coverage, before, service, s);
    }
  }

  /**
   * A subscription's row is the planned one if all its pages landed, and otherwise as it was, whatever the others did.
   */
  lemma {:induction false} EachSubscriptionStandsAlone(coverage: map<string, Coverage>, units: seq<Unit>,
      service: Service, i: nat)
    requires Increasing(Names(units)) && i < |units|
    ensures var after := Commit(coverage, units, service);
      var s := units[i].subscription;
      if Lands(service, units[i], 0, 0) then s in after && after[s] == units[i].coverage
      else (s in after <==> s in coverage) && (s in after ==> after[s] == coverage[s])
  {
    var before := units[..|units| - 1];
    assert Names(units) == Names(before) + [units[|units| - 1].subscription];
    LessIsStrict(units[i].subscription);
    if i < |units| - 1 {
      assert Less(Names(units)[i], Names(units)[|units| - 1]);
      forall a, b | 0 <= a < b < |before| ensures Less(Names(before)[a], Names(before)[b]) {
        assert Less(Names(units)[a], Names(units)[b]);
      }
      EachSubscriptionStandsAlone(coverage, before, service, i);
    } else {
      forall j | 0 <= j < |before|
        ensures Names(before)[j] != units[i].subscription
      {
        assert Less(Names(units)[j], Names(units)[i]);
      }
      OthersKeepTheirRows(coverage, before, service, units[i].subscription);
    }
  }

  function RowOf(coverage: map<string, Coverage>, s: string): Option<Coverage> {
    if s in coverage then Some(coverage[s]) else None
  }

  /** A refresh of many subscriptions is, for each of them, one event of its own history. */
  lemma RefreshIsOneEventEach(coverage: map<string, Coverage>, units: seq<Unit>, subscriptions: set<string>, c: Config,
      cutoff: real, service: Service, i: nat, w: World, pages: iset<Point>)
    requires PlannedFor(units, coverage, subscriptions, c, cutoff) && i < |units|
        && w.row == RowOf(coverage, units[i].subscription)
    ensures RowOf(Commit(coverage, units, service), units[i].subscription) ==
            Happen(w, Collected(c, cutoff, Lands(service, units[i], 0, 0), pages)).row
  {
    assert units[i] in units;
    EachSubscriptionStandsAlone(coverage, units, service, i);
  }
}
