/**
 * The daily-usage refresh: compare the loaded dataset with the configured scope, delete what left
 * the scope, load what is missing page by page, and advance the state only if everything landed.
 */
module UsageRefresh {
  import opened Options
  import opened Text
  import opened UsageStorage

  datatype CostMethod = PerSubscription | PerBilling

  /** A change of these needs a flush. */
  datatype Structure = Structure(costMethod: CostMethod, account: string, profile: string)

  /** subs None: the whole unfiltered billing profile. */
  datatype Scope = Scope(structure: Structure, subs: Option<set<string>>)

  /** Days are ordinals; current: whether the read projection is of this code's version. */
  datatype State = State(structure: Structure, subs: Option<set<string>>, start: int, end: int, current: bool)

  datatype Reason = Structural | Boundary | InitialFull | ProjectionRebuild | RefreshAll | Reconcile | Refresh |
      UpToDate

  datatype Load = Load(subs: Option<set<string>>, start: int, end: int)

  datatype Plan = Refused(reason: Reason)
                | Loading(loads: seq<Load>, deletions: set<string>, newState: State, reason: Reason)

  function Conflict(state: State, scope: Scope): Option<Reason> {
    if state.structure != scope.structure then Some(Structural)
    else if state.subs.None? != scope.subs.None? then Some(Boundary)
    else None
  }

  function NewState(scope: Scope, start: int, end: int): State {
    State(scope.structure, scope.subs, start, end, true)
  }

  function Max(a: int, b: int): int { if a < b then b else a }

  /** end: the newest finalized day; historical: how many days a first load reaches back. */
  function ResolvePlan(prior: Option<State>, scope: Scope, end: int, historical: nat): Plan {
    if prior.None? then
      var start := end - (historical - 1);
      Loading([Load(scope.subs, start, end)], {}, NewState(scope, start, end), InitialFull)
    else
      var state := prior.value;
      if Conflict(state, scope).Some? then Refused(Conflict(state, scope).value)
      else
        var next := NewState(scope, state.start, Max(state.end, end));
        if !state.current then
          Loading([Load(scope.subs, Max(state.start, end - 29), end)], {}, next, ProjectionRebuild)
        else if state.subs.None? || scope.subs.None? then
          Loading(if state.end >= end then [] else [Load(None, state.end + 1, end)], {}, next, RefreshAll)
        else
          var P, N := state.subs.value, scope.subs.value;
          var added, removed, kept := N - P, P - N, N * P;
          var loads := (if added != {} then [Load(Some(added), state.start, end)] else [])
                     + (if kept != {} && state.end < end then [Load(Some(kept), state.end + 1, end)] else []);
          Loading(loads, removed, next, if added != {} || removed != {} then Reconcile else if loads != [] then Refresh
              else UpToDate)
  }

  // ---- what a plan does to the read projection ----

  /** All days of a load are in their place for writes at horizon end, the newest so far being newest. */
  ghost predicate LoadInPlace(load: Load, newest: nat, end: nat) {
    forall day: nat | load.start <= day <= load.end :: InPlace(day, newest, end)
  }

  /**
   * The exact condition under which every day a plan may load is in its place: the horizon did not move back, or
   * every load starts after it or within the newest 30 days.
   */
  lemma LoadsAreInPlaceExactly(prior: Option<State>, scope: Scope, end: nat, historical: nat, newest: nat)
    requires ResolvePlan(prior, scope, end, historical).Loading? && end >= SUMMARY_DAYS
    ensures var loads := ResolvePlan(prior, scope, end, historical).loads;
      (forall load | load in loads :: LoadInPlace(load, newest, end)) <==>
      newest <= end || forall load | load in loads :: load.start > end || newest < load.start + SUMMARY_DAYS
  {
    var loads := ResolvePlan(prior, scope, end, historical).loads;
    forall load | load in loads
      ensures LoadInPlace(load, newest, end) <==>
              newest <= end || load.start > end || newest < load.start + SUMMARY_DAYS
    {
      assert load.end == end;
      OneLoadInPlaceExactly(load, newest, end);
    }
  }

  lemma OneLoadInPlaceExactly(load: Load, newest: nat, end: nat)
    requires load.end == end && end >= SUMMARY_DAYS
    ensures LoadInPlace(load, newest, end) <==>
            newest <= end || load.start > end || newest < load.start + SUMMARY_DAYS
  {
    if end < newest && load.start <= end && load.start + SUMMARY_DAYS <= newest {
      var day: nat := Max(load.start, end - (SUMMARY_DAYS - 1));
      assert load.start <= day <= load.end;
      assert !InPlace(day, newest, end);
    }
  }

  // ---- work units ----

  datatype Unit = Unit(subs: Option<set<string>>, start: int, end: int)

  /** One unit per subscription, or one filtered (or unfiltered) unit for the billing profile. */
  ghost function UnitsOf(structure: Structure, load: Load): set<Unit> {
    if load.start > load.end then {}
    else if structure.costMethod.PerSubscription? && load.subs.Some?
    then set s | s in load.subs.value :: Unit(Some({s}), load.start, load.end)
    else {Unit(load.subs, load.start, load.end)}
  }

  /** The units of one load: a subscription each, in sorted order, once; or a single unit; or none. */
  ghost predicate UnitsInOrder(structure: Structure, load: Load, units: seq<Unit>) {
    && (forall u :: u in units <==> u in UnitsOf(structure, load))
    && (forall u | u in units :: u.start == load.start && u.end == load.end)
    && if structure.costMethod.PerSubscription? && load.subs.Some?
       then exists sorted :: Increasing(sorted) && OneEach(units, sorted)
       else |units| <= 1
  }

  ghost predicate OneEach(units: seq<Unit>, sorted: seq<string>) {
    |units| == |sorted| && forall k | 0 <= k < |sorted| :: units[k].subs == Some({sorted[k]})
  }

  function Concat(parts: seq<seq<Unit>>): seq<Unit> {
    if parts == [] then [] else Concat(parts[..|parts| - 1]) + parts[|parts| - 1]
  }

  /** Which units, which order, and none twice: load by load. */
  ghost predicate PlansUnits(structure: Structure, loads: seq<Load>, parts: seq<seq<Unit>>) {
    |parts| == |loads| && forall k | 0 <= k < |loads| :: UnitsInOrder(structure, loads[k], parts[k])
  }

  method WorkUnits(structure: Structure, loads: seq<Load>) returns (units: seq<Unit>, ghost parts: seq<seq<Unit>>)
    ensures PlansUnits(structure, loads, parts) && units == Concat(parts)
    ensures forall u :: u in units <==> exists l :: l in loads && u in UnitsOf(structure, l)
  {
    units, parts := [], [];
    for k := 0 to |loads|
      invariant PlansUnits(structure, loads[..k], parts) && units == Concat(parts)
    {
      var some := LoadUnits(structure, loads[k]);
      units, parts := units + some, parts + [some];
      assert parts[..k] + [some] == parts && parts[..|parts| - 1] == parts[..k];
    }
    assert loads[..|loads|] == loads;
    ConcatHolds(structure, loads, parts);
  }

  method LoadUnits(structure: Structure, load: Load) returns (units: seq<Unit>)
    ensures UnitsInOrder(structure, load, units)
  {
    units := [];
    if load.start > load.end {
      assert Increasing([]) && OneEach(units, []);
      return;
    }
    if !(structure.costMethod.PerSubscription? && load.subs.Some?) { return [Unit(load.subs, load.start, load.end)]; }
    var sorted := Sorted(load.subs.value);
    for i := 0 to |sorted|
      invariant |units| == i && forall k | 0 <= k < i :: units[k] == Unit(Some({sorted[k]}), load.start, load.end)
    {
      units := units + [Unit(Some({sorted[i]}), load.start, load.end)];
    }
    SortedUnits(sorted, load, structure);
    assert OneEach(units, sorted);
    forall u ensures u in units <==> u in UnitsOf(structure, load) {
      if u in UnitsOf(structure, load) {
        var k :| 0 <= k < |sorted| && u == Unit(Some({sorted[k]}), load.start, load.end);
        assert units[k] == u;
      }
    }
  }

  lemma {:induction false} ConcatHolds(structure: Structure, loads: seq<Load>, parts: seq<seq<Unit>>)
    requires PlansUnits(structure, loads, parts)
    ensures forall u :: u in Concat(parts) <==> exists l :: l in loads && u in UnitsOf(structure, l)
  {
    if parts != [] {
      var n := |parts| - 1;
      ConcatHolds(structure, loads[..n], parts[..n]);
      assert UnitsInOrder(structure, loads[n], parts[n]);
      assert forall l :: l in loads <==> l in loads[..n] || l == loads[n];
    }
  }

  lemma SortedUnits(sorted: seq<string>, load: Load, structure: Structure)
    requires structure.costMethod.PerSubscription? && load.subs.Some? && Elements(sorted) == load.subs.value
        && load.start <= load.end
    ensures forall u :: u in UnitsOf(structure, load) <==>
        exists j :: 0 <= j < |sorted| && u == Unit(Some({sorted[j]}), load.start, load.end)
  {
    forall u | u in UnitsOf(structure, load)
      ensures exists j :: 0 <= j < |sorted| && u == Unit(Some({sorted[j]}), load.start, load.end)
    {
      var s :| s in load.subs.value && u == Unit(Some({s}), load.start, load.end);
      assert s in Elements(sorted);
    }
    forall j | 0 <= j < |sorted| ensures sorted[j] in Elements(sorted) {}
  }

  // ---- what is loaded, what is claimed ----

  datatype Subject = Whole | One(sub: string)

  datatype Cell = Cell(metric: Metric, subject: Subject, day: int)

  ghost function Subjects(subs: Option<set<string>>): set<Subject> {
    if subs.None? then {Whole} else set s | s in subs.value :: One(s)
  }

  ghost function Block(subs: Option<set<string>>, start: int, end: int): iset<Cell> {
    iset c: Cell | c.subject in Subjects(subs) && start <= c.day <= end
  }

  ghost function Claimed(state: State): iset<Cell> {
    Block(state.subs, state.start, state.end)
  }

  ghost predicate Asked(loads: seq<Load>, c: Cell) {
    exists l :: l in loads && c in Block(l.subs, l.start, l.end)
  }

  ghost function LoadedBy(loads: seq<Load>): iset<Cell> {
    iset c: Cell | Asked(loads, c)
  }

  ghost function Without(loaded: iset<Cell>, gone: set<string>): iset<Cell> {
    iset c: Cell | c in loaded && !(c.subject.One? && c.subject.sub in gone)
  }

  /** The state record is true: every claimed cell is loaded. */
  ghost predicate Truthful(state: State, loaded: iset<Cell>) {
    Claimed(state) <= loaded
  }

  lemma UnitsCoverTheLoad(structure: Structure, load: Load)
    ensures forall c :: c in Block(load.subs, load.start, load.end) <==>
                        exists u :: u in UnitsOf(structure, load) && c in Block(u.subs, u.start, u.end)
  {
    forall c | c in Block(load.subs, load.start, load.end)
      ensures exists u :: u in UnitsOf(structure, load) && c in Block(u.subs, u.start, u.end)
    {
      if structure.costMethod.PerSubscription? && load.subs.Some? {
        var u := Unit(Some({c.subject.sub}), load.start, load.end);
        assert u in UnitsOf(structure, load) && c in Block(u.subs, u.start, u.end);
      } else {
        var u := Unit(load.subs, load.start, load.end);
        assert u in UnitsOf(structure, load) && c in Block(u.subs, u.start, u.end);
      }
    }
  }

  // ---- what a plan asks for ----

  /** The record or scope covers the subject. */
  ghost predicate Covers(subs: Option<set<string>>, x: Subject) {
    match x
    case Whole => subs.None?
    case One(sub) => subs.Some? && sub in subs.value
  }

  /** In the scope, but not in the record. */
  ghost predicate Newcomer(state: State, scope: Scope, x: Subject) {
    Covers(scope.subs, x) && state.subs.Some? && !Covers(state.subs, x)
  }

  /** A plan is refused exactly for another method, account or profile, or one whole profile and one subset. */
  lemma RefusedExactly(state: State, scope: Scope, end: int, historical: nat)
    ensures var plan := ResolvePlan(Some(state), scope, end, historical);
      var same := state.structure.costMethod == scope.structure.costMethod
          && state.structure.account == scope.structure.account && state.structure.profile == scope.structure.profile;
      && (plan.Refused? <==> !same || (state.subs.None? && scope.subs.Some?) || (state.subs.Some? && scope.subs.None?))
      && (plan.Refused? ==> plan.reason == if same then Boundary else Structural)
  {
  }

  ghost predicate InHistory(scope: Scope, end: int, historical: nat, c: Cell) {
    Covers(scope.subs, c.subject) && end - historical < c.day <= end
  }

  /** A first plan loads and claims exactly the last historical days of the scope, in both metrics. */
  lemma FirstPlanLoadsTheHistory(scope: Scope, end: int, historical: nat)
    ensures var plan := ResolvePlan(None, scope, end, historical);
      && plan.Loading? && plan.deletions == {} && plan.reason == InitialFull
      && plan.newState.structure == scope.structure && plan.newState.current
      && (forall c: Cell :: c in LoadedBy(plan.loads) <==> InHistory(scope, end, historical, c))
      && (forall c: Cell :: c in Claimed(plan.newState) <==> InHistory(scope, end, historical, c))
  {
    var plan := ResolvePlan(None, scope, end, historical);
    forall c: Cell ensures c in LoadedBy(plan.loads) <==> InHistory(scope, end, historical, c) {
      AskedOfOne(plan.loads[0], c);
    }
  }

  lemma AskedOfOne(load: Load, c: Cell)
    ensures Asked([load], c) <==> Covers(load.subs, c.subject) && load.start <= c.day <= load.end
  {
    assert load in [load];
  }

  lemma AskedOfTwo(a: Load, b: Load, c: Cell)
    ensures Asked([a, b], c) <==> Asked([a], c) || Asked([b], c)
  {
    assert a in [a, b] && b in [a, b] && a in [a] && b in [b];
  }

  /**
   * With a current record a plan loads, of the subjects in the scope and up to end, the days after the record's
   * end, and for a newcomer those from the record's start on.
   */
  lemma CurrentPlanLoadsExactly(state: State, scope: Scope, end: int, historical: nat, c: Cell)
    requires state.current && ResolvePlan(Some(state), scope, end, historical).Loading?
    ensures c in LoadedBy(ResolvePlan(Some(state), scope, end, historical).loads) <==>
            && Covers(scope.subs, c.subject) && c.day <= end
            && (if Newcomer(state, scope, c.subject) then state.start <= c.day else state.end < c.day)
  {
    var plan := ResolvePlan(Some(state), scope, end, historical);
    if state.subs.None? {
      AskedOfOne(Load(None, state.end + 1, end), c);
    } else {
      var added, kept := scope.subs.value - state.subs.value, scope.subs.value * state.subs.value;
      var first, rest := Load(Some(added), state.start, end), Load(Some(kept), state.end + 1, end);
      AskedOfOne(first, c);
      AskedOfOne(rest, c);
      AskedOfTwo(first, rest, c);
      assert Asked(plan.loads, c) <==> Asked([first], c) || Asked([rest], c);
    }
  }

  /** With a projection to rebuild it loads the newest 30 days of the record, up to end, of the whole scope. */
  lemma RebuildLoadsExactly(state: State, scope: Scope, end: int, historical: nat, c: Cell)
    requires !state.current && ResolvePlan(Some(state), scope, end, historical).Loading?
    ensures c in LoadedBy(ResolvePlan(Some(state), scope, end, historical).loads) <==>
            Covers(scope.subs, c.subject) && state.start <= c.day && end - 30 < c.day <= end
  {
    AskedOfOne(Load(scope.subs, Max(state.start, end - 29), end), c);
  }

  /** What a plan deletes, what its new state is to claim, and why. */
  lemma PlanDeletesAndClaims(state: State, scope: Scope, end: int, historical: nat)
    requires ResolvePlan(Some(state), scope, end, historical).Loading?
    ensures var plan := ResolvePlan(Some(state), scope, end, historical);
      && (forall s :: s in plan.deletions <==>
            state.current && Covers(state.subs, One(s)) && !Covers(scope.subs, One(s)))
      && plan.newState.structure == scope.structure && plan.newState.current
      && (forall c: Cell :: c in Claimed(plan.newState) <==>
            Covers(scope.subs, c.subject) && state.start <= c.day && (c.day <= state.end || c.day <= end))
      && (plan.reason == ProjectionRebuild <==> !state.current)
      && (plan.reason == RefreshAll <==> state.current && scope.subs.None?)
      && (plan.reason == Reconcile <==> state.current && scope.subs.Some? && scope.subs != state.subs)
      && (plan.reason == Refresh <==>
            state.current && scope.subs.Some? && scope.subs == state.subs && scope.subs.value != {} && state.end < end)
      && (plan.reason == UpToDate <==>
            state.current && scope.subs.Some? && scope.subs == state.subs
              && (scope.subs.value == {} || end <= state.end))
  {
    if state.subs.Some? {
      var P, N := state.subs.value, scope.subs.value;
      assert N - P == {} && P - N == {} <==> N == P;
      assert N == P ==> N * P == N;
    }
  }

  // ---- one successful run, from any truthful state ----

  /** Whether a plan that succeeds leaves a true state, in terms a caller can check beforehand. */
  predicate Safe(state: State, scope: Scope, end: int)
    requires Conflict(state, scope).None?
  {
    var newcomers := state.subs.Some? && scope.subs.Some? && !(scope.subs.value <= state.subs.value);
    var stayers := state.subs.None? || scope.subs.None? || scope.subs.value * state.subs.value != {};
    if state.current then
      newcomers ==> state.end <= end
    else
      && (newcomers ==> end - 29 <= state.start && state.end <= end)
      && (stayers ==> end - 29 <= state.end + 1)
  }

  ghost function AfterSuccess(plan: Plan, loaded: iset<Cell>): iset<Cell>
    requires plan.Loading?
  {
    Without(loaded, plan.deletions) + LoadedBy(plan.loads)
  }

  /** What a safe plan adds to the claims, it loads. */
  lemma NewClaimIsLoaded(state: State, scope: Scope, end: int, historical: nat, c: Cell)
    requires Conflict(state, scope).None? && Safe(state, scope, end) && state.start <= state.end
    requires c in Claimed(ResolvePlan(Some(state), scope, end, historical).newState) && c !in Claimed(state)
    ensures c in LoadedBy(ResolvePlan(Some(state), scope, end, historical).loads)
  {
    var plan := ResolvePlan(Some(state), scope, end, historical);
    if state.subs.Some? {
      var s := c.subject.sub;
      assert c.subject == One(s) && s in scope.subs.value;
      if s in state.subs.value {
        assert s in scope.subs.value * state.subs.value;
        var l := plan.loads[|plan.loads| - 1];
        assert l in plan.loads && c in Block(l.subs, l.start, l.end);
      } else {
        assert s in scope.subs.value - state.subs.value;
        var l := plan.loads[0];
        assert l in plan.loads && c in Block(l.subs, l.start, l.end);
      }
    } else {
      var l := plan.loads[0];
      assert l in plan.loads && c in Block(l.subs, l.start, l.end);
    }
  }

  /** What stays claimed is not deleted. */
  lemma ClaimIsKept(state: State, scope: Scope, end: int, historical: nat, c: Cell)
    requires Conflict(state, scope).None?
    requires c in Claimed(ResolvePlan(Some(state), scope, end, historical).newState)
    ensures !(c.subject.One? && c.subject.sub in ResolvePlan(Some(state), scope, end, historical).deletions)
  {
  }

  lemma SafeRunsStayTruthful(state: State, scope: Scope, end: int, historical: nat, loaded: iset<Cell>)
    requires Conflict(state, scope).None? && Safe(state, scope, end) && state.start <= state.end
        && Truthful(state, loaded)
    ensures var plan := ResolvePlan(Some(state), scope, end, historical);
      plan.Loading? && Truthful(plan.newState, AfterSuccess(plan, loaded))
  {
    var plan := ResolvePlan(Some(state), scope, end, historical);
    forall c | c in Claimed(plan.newState) ensures c in AfterSuccess(plan, loaded) {
      if c in Claimed(state) {
        ClaimIsKept(state, scope, end, historical, c);
      } else {
        NewClaimIsLoaded(state, scope, end, historical, c);
      }
    }
  }

  /** A cell the new state claims and an unsafe run leaves out, when only the old claims were loaded. */
  lemma UnsafeRunLeavesAGap(state: State, scope: Scope, end: int, historical: nat) returns (c: Cell)
    requires Conflict(state, scope).None? && !Safe(state, scope, end) && state.start <= state.end
    ensures var plan := ResolvePlan(Some(state), scope, end, historical);
      plan.Loading? && c in Claimed(plan.newState) && c !in AfterSuccess(plan, Claimed(state))
  {
    if state.subs.Some? && !(scope.subs.value <= state.subs.value)
        && (state.end > end || (!state.current && end - 29 > state.start)) {
      var s :| s in scope.subs.value && s !in state.subs.value;
      c := Cell(Hours, One(s), if state.end > end then state.end else state.start);
    } else if state.subs.Some? {
      var s :| s in scope.subs.value && s in state.subs.value;
      c := Cell(Hours, One(s), state.end + 1);
    } else {
      c := Cell(Hours, Whole, state.end + 1);
    }
  }

  /** The exact condition: a successful run keeps every truthful state truthful if and only if it is Safe. */
  lemma SuccessIsTruthfulExactlyWhenSafe(state: State, scope: Scope, end: int, historical: nat)
    requires Conflict(state, scope).None? && state.start <= state.end
    ensures var plan := ResolvePlan(Some(state), scope, end, historical);
      plan.Loading? &&
      (Safe(state, scope, end) <==>
          forall loaded | Truthful(state, loaded) :: Truthful(plan.newState, AfterSuccess(plan, loaded)))
  {
    var plan := ResolvePlan(Some(state), scope, end, historical);
    if Safe(state, scope, end) {
      forall loaded | Truthful(state, loaded) ensures Truthful(plan.newState, AfterSuccess(plan, loaded)) {
        SafeRunsStayTruthful(state, scope, end, historical, loaded);
      }
    } else {
      var c := UnsafeRunLeavesAGap(state, scope, end, historical);
      assert Truthful(state, Claimed(state));
    }
  }

  /** A failed run keeps the old record true exactly when it had nothing to delete. */
  lemma FailureIsTruthfulExactlyWithoutDeletions(state: State, scope: Scope, end: int, historical: nat,
      loaded: iset<Cell>, landed: iset<Cell>)
    requires Conflict(state, scope).None? && state.start <= state.end && Truthful(state, loaded)
    requires landed <= LoadedBy(ResolvePlan(Some(state), scope, end, historical).loads)
    ensures var plan := ResolvePlan(Some(state), scope, end, historical);
      Truthful(state, Without(loaded, plan.deletions) + landed) <==> plan.deletions == {}
  {
    var plan := ResolvePlan(Some(state), scope, end, historical);
    if s :| s in plan.deletions {
      var c := Cell(Hours, One(s), state.start);
      assert c in Claimed(state) && c !in LoadedBy(plan.loads);
    }
  }

  // ---- every run ----

  /** lost: subscriptions a failed run deleted, still claimed, and not wholly loaded again since. */
  datatype World = World(state: Option<State>, loaded: iset<Cell>, lost: set<string>, horizon: int)

  datatype Event =
    | Refreshed(scope: Scope, end: int, landed: iset<Cell>, success: bool)
    | Upgraded
    | Flushed

  /** The finalized day never moves back, a full history is at least a day, and a success meets its exact condition. */
  ghost predicate Possible(w: World, e: Event, historical: nat) {
    e.Refreshed? ==>
      && w.horizon <= e.end && historical >= 1
      && (e.success && w.state.Some? && Conflict(w.state.value, e.scope).None? ==> Safe(w.state.value, e.scope, e.end))
      && (var plan := ResolvePlan(w.state, e.scope, e.end, historical);
          plan.Loading? ==> e.landed <= LoadedBy(plan.loads) && (e.success ==> e.landed == LoadedBy(plan.loads)))
  }

  ghost function Kept(lost: set<string>, subs: Option<set<string>>): set<string> {
    if subs.Some? then lost * subs.value else {}
  }

  ghost function Outstanding(lost: set<string>, state: State, loaded: iset<Cell>): set<string> {
    set s | s in lost && !(Block(Some({s}), state.start, state.end) <= loaded)
  }

  ghost function Happen(w: World, e: Event, historical: nat): World {
    match e
    case Flushed => World(None, iset{}, {}, w.horizon)
    case Upgraded => if w.state.Some? then w.(state := Some(w.state.value.(current := false))) else w
    case Refreshed(scope, end, landed, success) =>
      var plan := ResolvePlan(w.state, scope, end, historical);
      if plan.Refused? then w.(horizon := end)
      else
        var loaded := Without(w.loaded, plan.deletions) + landed;
        if success then World(Some(plan.newState), loaded,
            Outstanding(Kept(w.lost, scope.subs), plan.newState, loaded), end)
        else if w.state.None? then World(None, loaded, {}, end)
        else World(w.state, loaded, Outstanding(w.lost + plan.deletions, w.state.value, loaded), end)
  }

  /** Coverage truth with its exception set, which holds only real exceptions. */
  ghost predicate Inv(w: World) {
    match w.state
    case None => w.lost == {}
    case Some(state) =>
      && state.start <= state.end <= w.horizon
      && w.lost <= (if state.subs.Some? then state.subs.value else {})
      && Without(Claimed(state), w.lost) <= w.loaded
      && w.lost == Outstanding(w.lost, state, w.loaded)
  }

  lemma RunKeepsInv(w: World, e: Event, historical: nat)
    requires Inv(w) && e.Refreshed? && Possible(w, e, historical)
    ensures Inv(Happen(w, e, historical))
  {
    var plan := ResolvePlan(w.state, e.scope, e.end, historical);
    if plan.Loading? {
      var loaded := Without(w.loaded, plan.deletions) + e.landed;
      if e.success {
        forall c | c in Claimed(plan.newState) && !(c.subject.One? && c.subject.sub in Kept(w.lost, e.scope.subs))
          ensures c in loaded
        {
          ClaimHolds(w, e, historical, c);
        }
        OutstandingCovers(Kept(w.lost, e.scope.subs), plan.newState, loaded);
      } else if w.state.Some? {
        OutstandingCovers(w.lost + plan.deletions, w.state.value, loaded);
      }
    }
  }

  lemma ClaimHolds(w: World, e: Event, historical: nat, c: Cell)
    requires Inv(w) && e.Refreshed? && e.success && Possible(w, e, historical)
    requires var plan := ResolvePlan(w.state, e.scope, e.end, historical);
      plan.Loading? && c in Claimed(plan.newState) && !(c.subject.One? && c.subject.sub in Kept(w.lost, e.scope.subs))
    ensures c in Happen(w, e, historical).loaded
  {
    var plan := ResolvePlan(w.state, e.scope, e.end, historical);
    if w.state.None? {
      var l := plan.loads[0];
      assert l in plan.loads && c in Block(l.subs, l.start, l.end);
      assert c in LoadedBy(plan.loads);
    } else if c in Claimed(w.state.value) {
      ClaimIsKept(w.state.value, e.scope, e.end, historical, c);
      assert c in Without(Claimed(w.state.value), w.lost);
    } else {
      NewClaimIsLoaded(w.state.value, e.scope, e.end, historical, c);
    }
  }

  /** Leaving out of the exceptions what is wholly loaded again keeps the coverage claim. */
  lemma OutstandingCovers(lost: set<string>, state: State, loaded: iset<Cell>)
    requires Without(Claimed(state), lost) <= loaded
    ensures Without(Claimed(state), Outstanding(lost, state, loaded)) <= loaded
  {
    forall c | c in Claimed(state) && c.subject.One? && c.subject.sub in lost
        && c.subject.sub !in Outstanding(lost, state, loaded)
      ensures c in loaded
    {
      assert c in Block(Some({c.subject.sub}), state.start, state.end);
    }
  }

  ghost predicate History(w: World, events: seq<Event>, historical: nat)
    decreases |events|
  {
    events == [] || (Possible(w, events[0], historical)
        && History(Happen(w, events[0], historical), events[1..], historical))
  }

  ghost function Final(w: World, events: seq<Event>, historical: nat): World
    decreases |events|
  {
    if events == [] then w else Final(Happen(w, events[0], historical), events[1..], historical)
  }

  /**
   * Over every sequence of refreshes, failed or not, and flushes: every claimed cell of every
   * subscription no failed run deleted is loaded, and the record is wholly true exactly when no
   * deletion of a failed run is outstanding.
   */
  lemma {:induction false} CoverageIsTrueExceptTheLost(w: World, events: seq<Event>, historical: nat)
    requires Inv(w) && History(w, events, historical)
    ensures var f := Final(w, events, historical);
      Inv(f) && (f.state.Some? ==> (Truthful(f.state.value, f.loaded) <==> f.lost == {}))
    decreases |events|
  {
    if events == [] {
      if w.state.Some? {
        var state := w.state.value;
        if s :| s in w.lost {
          assert s in Outstanding(w.lost, state, w.loaded)
              && Block(Some({s}), state.start, state.end) <= Claimed(state);
        } else {
          assert Without(Claimed(state), {}) == Claimed(state);
        }
      }
    } else {
      if events[0].Refreshed? { RunKeepsInv(w, events[0], historical); }
      CoverageIsTrueExceptTheLost(Happen(w, events[0], historical), events[1..], historical);
    }
  }

  ghost predicate SameScopeFailures(events: seq<Event>, scope: Scope) {
    forall e | e in events :: e.Refreshed? && e.scope == scope && !e.success
  }

  /** Failures under one scope lose only what that scope left out. */
  lemma {:induction false} FailuresLoseOnlyTheRemoved(w: World, events: seq<Event>, historical: nat, scope: Scope)
    requires Inv(w) && History(w, events, historical) && SameScopeFailures(events, scope)
    requires Kept(w.lost, scope.subs) == {}
    ensures Inv(Final(w, events, historical)) && Kept(Final(w, events, historical).lost, scope.subs) == {}
    decreases |events|
  {
    if events != [] {
      assert events[0] in events;
      RunKeepsInv(w, events[0], historical);
      var plan := ResolvePlan(w.state, scope, events[0].end, historical);
      assert plan.Loading? && scope.subs.Some? ==> plan.deletions * scope.subs.value == {};
      FailuresLoseOnlyTheRemoved(Happen(w, events[0], historical), events[1..], historical, scope);
    }
  }

  /** With the scope unchanged from the first failure to the next success, nothing stays lost. */
  lemma SuccessUnderTheSameScopeRepairs(w: World, failures: seq<Event>, last: Event, historical: nat)
    requires Inv(w) && w.lost == {} && History(w, failures, historical)
    requires last.Refreshed? && last.success && SameScopeFailures(failures, last.scope)
    requires Possible(Final(w, failures, historical), last, historical)
    requires ResolvePlan(Final(w, failures, historical).state, last.scope, last.end, historical).Loading?
    ensures var f := Happen(Final(w, failures, historical), last, historical);
      f.lost == {} && f.state.Some? && Truthful(f.state.value, f.loaded)
  {
    FailuresLoseOnlyTheRemoved(w, failures, historical, last.scope);
    var before := Final(w, failures, historical);
    RunKeepsInv(before, last, historical);
    CoverageIsTrueExceptTheLost(Happen(before, last, historical), [], historical);
  }

  // ---- the run itself ----

  const MAX_PAGE_THROTTLES: nat := 60

  datatype Stream = HoursStream | CostStream | BothStream

  datatype Agreement = MCA | EA

  function Streams(agreement: Agreement): seq<Stream> {
    if agreement.MCA? then [BothStream] else [HoursStream, CostStream]
  }

  predicate Fills(s: Stream, m: Metric) {
    s.BothStream? || (s.HoursStream? && m.Hours?) || (s.CostStream? && m.Cost?)
  }

  // ---- what a page becomes ----

  datatype QueryRow = QueryRow(resourceId: Option<string>, day: Option<nat>, quantity: Option<real>,
      cost: Option<real>, currency: Option<string>) {
    predicate Usable() { resourceId.Some? && resourceId.value != "" && day.Some? }
    function Amount(m: Metric): real {
      var v := if m.Hours? then quantity else cost;
      if v.Some? then v.value else 0.0
    }
  }

  /** The metrics of a row, and what else is stored with them. */
  datatype PageRecord = PageRecord(usage: Record, subscription: Option<string>, currency: Option<string>)

  /** str.split("/"). */
  function Segments(s: string): (parts: seq<string>)
    ensures parts != []
  {
    if s == [] then [""]
    else
      var rest := Segments(s[1..]);
      if s[0] == '/' then [""] + rest else [[s[0]] + rest[0]] + rest[1..]
  }

  /** The segment after the first "subscriptions". */
  function After(parts: seq<string>, name: string): Option<string> {
    if |parts| < 2 then None else if parts[0] == name then Some(parts[1]) else After(parts[1..], name)
  }

  function SubscriptionOf(resourceId: string): Option<string> {
    After(Segments(Lower(resourceId)), "subscriptions")
  }

  /** A record carries the stream's own metrics and nothing for the others. */
  function RecordOf(row: QueryRow, kind: Stream): Record
    requires row.Usable()
  {
    Record(row.resourceId.value, row.day.value,
           if Fills(kind, Hours) then Some(row.Amount(Hours)) else None,
           if Fills(kind, Cost) then Some(row.Amount(Cost)) else None)
  }

  function PageRecordOf(row: QueryRow, kind: Stream): PageRecord
    requires row.Usable()
  {
    PageRecord(RecordOf(row, kind), SubscriptionOf(row.resourceId.value), row.currency)
  }

  function PageRecords(rows: seq<QueryRow>, kind: Stream): seq<PageRecord> {
    if rows == [] then []
    else
      var last := rows[|rows| - 1];
      PageRecords(rows[..|rows| - 1], kind) + if last.Usable() then [PageRecordOf(last, kind)] else []
  }

  function Records(rows: seq<QueryRow>, kind: Stream): seq<Record> {
    seq(|PageRecords(rows, kind)|, i requires 0 <= i < |PageRecords(rows, kind)| => PageRecords(rows, kind)[i].usage)
  }

  method MapPageRecords(rows: seq<QueryRow>, kind: Stream) returns (records: seq<PageRecord>)
    ensures records == PageRecords(rows, kind)
    ensures forall p :: p in records <==> exists row :: row in rows && IsPageRecordOf(p, row, kind)
  {
    records := [];
    for k := 0 to |rows|
      invariant records == PageRecords(rows[..k], kind)
    {
      var row := rows[k];
      assert rows[..k + 1][..k] == rows[..k];
      if row.Usable() {
        var hours, cost := None, None;
        if kind.BothStream? || kind.HoursStream? { hours := Some(row.Amount(Hours)); }
        if kind.BothStream? || kind.CostStream? { cost := Some(row.Amount(Cost)); }
        var usage := Record(row.resourceId.value, row.day.value, hours, cost);
        records := records + [PageRecord(usage, SubscriptionOf(row.resourceId.value), row.currency)];
      }
    }
    assert rows[..|rows|] == rows;
    forall p ensures p in records <==> exists row :: row in rows && IsPageRecordOf(p, row, kind) {
      PageRecordsAreTheRows(rows, kind, p);
    }
  }

  /** Joining the segments again with slashes gives the string. */
  function Slashed(parts: seq<string>): string
    requires parts != []
  {
    if |parts| == 1 then parts[0] else parts[0] + "/" + Slashed(parts[1..])
  }

  lemma {:induction false} SegmentsAreTheString(s: string)
    ensures Slashed(Segments(s)) == s && forall part | part in Segments(s) :: '/' !in part
  {
    if s != [] {
      SegmentsAreTheString(s[1..]);
      var rest := Segments(s[1..]);
      assert s == [s[0]] + s[1..];
      if s[0] == '/' {
        assert ([""] + rest)[1..] == rest;
      } else {
        assert ([[s[0]] + rest[0]] + rest[1..])[1..] == rest[1..];
      }
    }
  }

  /** A record's subscription is the segment that follows the first one spelled "subscriptions" in any case. */
  lemma {:induction false} AfterIsTheNextSegment(parts: seq<string>, name: string)
    ensures After(parts, name).Some? <==> exists k :: 0 <= k < |parts| - 1 && parts[k] == name
    ensures forall k | 0 <= k < |parts| - 1 && parts[k] == name
        && name !in parts[..k] :: After(parts, name) == Some(parts[k + 1])
  {
    if |parts| >= 2 && parts[0] != name {
      AfterIsTheNextSegment(parts[1..], name);
      if k :| 0 <= k < |parts| - 1 && parts[k] == name { assert parts[1..][k - 1] == name; }
      if k :| 0 <= k < |parts[1..]| - 1 && parts[1..][k] == name { assert parts[k + 1] == name; }
      forall k | 0 <= k < |parts| - 1 && parts[k] == name && name !in parts[..k]
        ensures After(parts, name) == Some(parts[k + 1])
      {
        assert parts[1..][..k - 1] == parts[..k][1..];
        assert parts[1..][k - 1] == name && parts[1..][k] == parts[k + 1];
      }
    }
  }

  lemma {:induction false} PageRecordsAreTheUsableRows(rows: seq<QueryRow>, kind: Stream)
    ensures forall r :: r in PageRecords(rows, kind) <==>
        exists row :: row in rows && row.Usable() && r == PageRecordOf(row, kind)
  {
    if rows != [] {
      var before, last := rows[..|rows| - 1], rows[|rows| - 1];
      PageRecordsAreTheUsableRows(before, kind);
      assert forall row :: row in rows <==> row in before || row == last;
    }
  }

  lemma RecordsAreTheUsableRows(rows: seq<QueryRow>, kind: Stream)
    ensures forall r :: r in Records(rows, kind) <==>
        exists row :: row in rows && row.Usable() && r == RecordOf(row, kind)
  {
    var all := PageRecords(rows, kind);
    PageRecordsAreTheUsableRows(rows, kind);
    forall r
      ensures r in Records(rows, kind) <==> exists row :: row in rows && row.Usable() && r == RecordOf(row, kind)
    {
      if r in Records(rows, kind) {
        var i :| 0 <= i < |all| && all[i].usage == r;
        assert all[i] in all;
      }
      if row :| row in rows && row.Usable() && r == RecordOf(row, kind) {
        assert PageRecordOf(row, kind) in all;
        var i :| 0 <= i < |all| && all[i] == PageRecordOf(row, kind);
        assert Records(rows, kind)[i] == r;
      }
    }
  }

  /**
   * A record in terms of its row: hours from the quantity and cost from the cost, zero without one, each exactly
   * if the stream carries it.
   */
  ghost predicate IsRecordOf(r: Record, row: QueryRow, kind: Stream) {
    && row.resourceId == Some(r.resourceId) && r.resourceId != "" && row.day == Some(r.day)
    && r.hours == (if kind == CostStream then None
                   else if row.quantity.Some? then row.quantity else Some(0.0))
    && r.cost == (if kind == HoursStream then None
                  else if row.cost.Some? then row.cost else Some(0.0))
  }

  /** The subscription is what follows the first path segment spelled "subscriptions" in any case. */
  ghost predicate NamesSubscription(subscription: Option<string>, resourceId: string) {
    var parts := Segments(Lower(resourceId));
    && (subscription.None? <==> forall k | 0 <= k < |parts| - 1 :: parts[k] != "subscriptions")
    && (forall k | 0 <= k < |parts| - 1 && parts[k] == "subscriptions" && "subscriptions" !in parts[..k] ::
          subscription == Some(parts[k + 1]))
  }

  ghost predicate IsPageRecordOf(p: PageRecord, row: QueryRow, kind: Stream) {
    && IsRecordOf(p.usage, row, kind) && NamesSubscription(p.subscription, p.usage.resourceId)
    && p.currency == row.currency
  }

  lemma PageRecordIsOfItsRow(row: QueryRow, kind: Stream, p: PageRecord)
    ensures row.Usable() && p == PageRecordOf(row, kind) <==> IsPageRecordOf(p, row, kind)
  {
    if row.resourceId.Some? {
      var parts := Segments(Lower(row.resourceId.value));
      AfterIsTheNextSegment(parts, "subscriptions");
      FirstSegment(parts, "subscriptions");
      assert NamesSubscription(SubscriptionOf(row.resourceId.value), row.resourceId.value);
      if k :| 0 <= k < |parts| - 1 && parts[k] == "subscriptions" && "subscriptions" !in parts[..k] {
        assert SubscriptionOf(row.resourceId.value) == Some(parts[k + 1]);
      }
    }
  }

  lemma {:induction false} FirstSegment(parts: seq<string>, name: string)
    ensures (exists k :: 0 <= k < |parts| - 1 && parts[k] == name) ==>
              exists k :: 0 <= k < |parts| - 1 && parts[k] == name && name !in parts[..k]
  {
    if |parts| >= 2 {
      if parts[0] == name {
        assert parts[..0] == [];
      } else if k :| 0 <= k < |parts| - 1 && parts[k] == name {
        assert parts[1..][k - 1] == name;
        FirstSegment(parts[1..], name);
        var j :| 0 <= j < |parts[1..]| - 1 && parts[1..][j] == name && name !in parts[1..][..j];
        assert parts[..j + 1] == [parts[0]] + parts[1..][..j];
        assert parts[j + 1] == name;
      }
    }
  }

  /** A page's records are those of its rows with a resource and a day, and no others. */
  lemma PageRecordsAreTheRows(rows: seq<QueryRow>, kind: Stream, p: PageRecord)
    ensures p in PageRecords(rows, kind) <==> exists row :: row in rows && IsPageRecordOf(p, row, kind)
  {
    PageRecordsAreTheUsableRows(rows, kind);
    forall row { PageRecordIsOfItsRow(row, kind, p); }
  }

  lemma RecordsAreTheRows(rows: seq<QueryRow>, kind: Stream, r: Record)
    ensures r in Records(rows, kind) <==> exists row :: row in rows && IsRecordOf(r, row, kind)
  {
    RecordsAreTheUsableRows(rows, kind);
    if row :| row in rows && IsRecordOf(r, row, kind) { assert r == RecordOf(row, kind); }
  }

  /** Under an MCA agreement one stream brings both; under an EA one no record has both, and none zeroes the other. */
  lemma StreamsShareNothing(rows: seq<QueryRow>, r: Record)
    ensures (forall s :: s in Streams(MCA) && r in Records(rows, s) ==> r.hours.Some? && r.cost.Some?)
    ensures (forall s :: s in Streams(EA) && r in Records(rows, s) ==> r.hours.Some? != r.cost.Some?)
  {
    forall s { RecordsAreTheRows(rows, s, r); }
  }

  datatype Landing = Landing(kind: Stream, rows: seq<QueryRow>)

  function AllRecords(pages: seq<Landing>): seq<Record> {
    if pages == [] then []
    else
      var last := pages[|pages| - 1];
      AllRecords(pages[..|pages| - 1]) + Records(last.rows, last.kind)
  }

  /** Every usable row of a page is a row of the full answer of its own stream. */
  ghost predicate FromAnswers(pages: seq<Landing>, answer: map<(Metric, string, nat), real>) {
    forall p, row, m: Metric | p in pages && row in p.rows && row.Usable() && Fills(p.kind, m) ::
      var key := (m, Norm(row.resourceId.value), row.day.value);
      && key in answer
      && answer[key] == match m
         case Hours => if row.quantity.Some? then row.quantity.value else 0.0
         case Cost => if row.cost.Some? then row.cost.value else 0.0
  }

  ghost predicate Landed(pages: seq<Landing>, m: Metric, resource: string, day: nat) {
    exists p, row :: p in pages && row in p.rows && row.Usable() && Fills(p.kind, m)
        && Norm(row.resourceId.value) == resource && row.day.value == day
  }

  lemma {:induction false} RecordsOfPages(pages: seq<Landing>)
    ensures forall r :: r in AllRecords(pages) <==>
        exists p, row :: p in pages && row in p.rows && row.Usable() && r == RecordOf(row, p.kind)
  {
    if pages != [] {
      var before, last := pages[..|pages| - 1], pages[|pages| - 1];
      RecordsOfPages(before);
      RecordsAreTheUsableRows(last.rows, last.kind);
      assert forall p :: p in pages <==> p in before || p == last;
    }
  }

  /**
   * The paged two-stream load: whatever pages of whichever stream landed, in any order and any number
   * of times, each daily cell holds its own stream's answer, and a cell no page of its stream had is as before.
   */
  lemma EachCellIsItsOwnStreams(daily: Daily, pages: seq<Landing>, answer: map<(Metric, string, nat), real>, m: Metric,
      resource: string, day: nat)
    requires FromAnswers(pages, answer)
    ensures Landed(pages, m, resource, day) ==> (m, resource, day) in answer
    ensures DailyValue(DailyAfter(daily, AllRecords(pages)), resource, day, m) ==
            if Landed(pages, m, resource, day) then Some(answer[(m, resource, day)])
                else DailyValue(daily, resource, day, m)
  {
    var records := AllRecords(pages);
    RecordsOfPages(pages);
    forall r, n: Metric | r in records && r.Of(n).Some?
      ensures (n, r.Key(), r.day) in answer && answer[(n, r.Key(), r.day)] == r.Of(n).value
    {
      var p, row :| p in pages && row in p.rows && row.Usable() && r == RecordOf(row, p.kind);
      assert Fills(p.kind, n);
    }
    EachMetricIsItsStreams(daily, records, answer, m, resource, day);
    if Landed(pages, m, resource, day) {
      var p, row :| p in pages && row in p.rows && row.Usable() && Fills(p.kind, m)
          && Norm(row.resourceId.value) == resource && row.day.value == day;
      assert RecordOf(row, p.kind) in records;
    }
    if Carries(records, m, resource, day) {
      var r :| r in records && r.Key() == resource && r.day == day && r.Of(m).Some?;
      var p, row :| p in pages && row in p.rows && row.Usable() && r == RecordOf(row, p.kind);
      assert Fills(p.kind, m);
    }
  }

  // ---- the page loop ----

  datatype Answer = Page | Throttled | Error

  /** Each query's nextLink chain is finite; what each request is answered is arbitrary. */
  datatype Service = Service(lastPage: (Unit, Stream) -> nat, answer: (Unit, Stream, nat, nat) -> Answer)

  /** Whether the page loop gets through: no error, and never more than the allowed consecutive throttles. */
  function Lands(service: Service, u: Unit, s: Stream, page: nat, throttles: nat): bool
    requires throttles <= MAX_PAGE_THROTTLES
    decreases if page <= service.lastPage(u, s) then service.lastPage(u, s) - page
        else 0, MAX_PAGE_THROTTLES - throttles
  {
    match service.answer(u, s, page, throttles)
    case Error => false
    case Throttled => throttles < MAX_PAGE_THROTTLES && Lands(service, u, s, page, throttles + 1)
    case Page => page >= service.lastPage(u, s) || Lands(service, u, s, page + 1, 0)
  }

  /** From this many waits on, the request is throttled until a page comes, without one wait too many. */
  ghost predicate ComesThrough(service: Service, u: Unit, s: Stream, page: nat, from: nat) {
    exists t: nat :: from <= t <= 60 && PageAt(service, u, s, page, from, t)
  }

  ghost predicate PageAt(service: Service, u: Unit, s: Stream, page: nat, from: nat, t: nat) {
    && service.answer(u, s, page, t).Page?
    && forall k: nat | from <= k < t :: service.answer(u, s, page, k).Throttled?
  }

  lemma WaitsOn(service: Service, u: Unit, s: Stream, page: nat, from: nat)
    requires service.answer(u, s, page, from).Throttled?
    ensures ComesThrough(service, u, s, page, from) <==>
        from < MAX_PAGE_THROTTLES && ComesThrough(service, u, s, page, from + 1)
  {
    if ComesThrough(service, u, s, page, from) {
      var t: nat :| from <= t <= MAX_PAGE_THROTTLES && PageAt(service, u, s, page, from, t);
      assert PageAt(service, u, s, page, from + 1, t);
    }
    if from < MAX_PAGE_THROTTLES && ComesThrough(service, u, s, page, from + 1) {
      var t: nat :| from + 1 <= t <= MAX_PAGE_THROTTLES && PageAt(service, u, s, page, from + 1, t);
      assert PageAt(service, u, s, page, from, t);
    }
  }

  lemma Answered(service: Service, u: Unit, s: Stream, page: nat, from: nat)
    requires from <= MAX_PAGE_THROTTLES && !service.answer(u, s, page, from).Throttled?
    ensures ComesThrough(service, u, s, page, from) <==> service.answer(u, s, page, from).Page?
  {
    if service.answer(u, s, page, from).Page? { assert PageAt(service, u, s, page, from, from); }
  }

  /** What landing means: every page up to the last is answered after at most 60 consecutive throttles and no error. */
  lemma {:induction false} LandsExactlyWhenEveryPageComes(service: Service, u: Unit, s: Stream, page: nat,
      throttles: nat)
    requires throttles <= MAX_PAGE_THROTTLES && page <= service.lastPage(u, s)
    ensures Lands(service, u, s, page, throttles) <==>
            ComesThrough(service, u, s, page, throttles)
                && forall p | page < p <= service.lastPage(u, s) :: ComesThrough(service, u, s, p, 0)
    decreases service.lastPage(u, s) - page, MAX_PAGE_THROTTLES - throttles
  {
    match service.answer(u, s, page, throttles)
    case Throttled =>
      WaitsOn(service, u, s, page, throttles);
      if throttles < MAX_PAGE_THROTTLES { LandsExactlyWhenEveryPageComes(service, u, s, page, throttles + 1); }
    case Error => Answered(service, u, s, page, throttles);
    case Page =>
      Answered(service, u, s, page, throttles);
      if page < service.lastPage(u, s) { LandsExactlyWhenEveryPageComes(service, u, s, page + 1, 0); }
  }

  predicate UnitLands(service: Service, u: Unit, streams: seq<Stream>) {
    forall s | s in streams :: Lands(service, u, s, 0, 0)
  }

  ghost predicate UnitsLand(service: Service, units: seq<Unit>, streams: seq<Stream>) {
    forall u | u in units :: UnitLands(service, u, streams)
  }

  ghost predicate NoUnitLands(service: Service, units: seq<Unit>, streams: seq<Stream>) {
    forall u | u in units :: !UnitLands(service, u, streams)
  }

  ghost predicate AllLand(service: Service, structure: Structure, loads: seq<Load>, streams: seq<Stream>) {
    forall l, u | l in loads && u in UnitsOf(structure, l) :: UnitLands(service, u, streams)
  }

  ghost predicate NoneLands(service: Service, structure: Structure, loads: seq<Load>, streams: seq<Stream>) {
    forall l, u | l in loads && u in UnitsOf(structure, l) :: !UnitLands(service, u, streams)
  }

  /** How many units do not land. */
  function Failing(service: Service, units: seq<Unit>, streams: seq<Stream>): nat {
    if units == [] then 0
    else Failing(service, units[..|units| - 1], streams) + if UnitLands(service, units[|units| - 1], streams) then 0
        else 1
  }

  lemma FailingSnoc(service: Service, units: seq<Unit>, u: Unit, streams: seq<Stream>)
    ensures Failing(service, units + [u], streams) ==
            Failing(service, units, streams) + if UnitLands(service, u, streams) then 0 else 1
  {
    assert (units + [u])[..|units|] == units;
  }

  lemma OneMoreUnit(service: Service, units: seq<Unit>, u: Unit, streams: seq<Stream>)
    ensures UnitsLand(service, units + [u], streams) <==>
            UnitsLand(service, units, streams) && UnitLands(service, u, streams)
    ensures NoUnitLands(service, units + [u], streams) <==>
            NoUnitLands(service, units, streams) && !UnitLands(service, u, streams)
  {
    assert u in units + [u] && forall x | x in units :: x in units + [u];
  }

  lemma {:induction false} FailingCounts(service: Service, units: seq<Unit>, streams: seq<Stream>)
    ensures Failing(service, units, streams) <= |units|
    ensures Failing(service, units, streams) == 0 <==> UnitsLand(service, units, streams)
    ensures Failing(service, units, streams) == |units| <==> NoUnitLands(service, units, streams)
  {
    if units != [] {
      var before, last := units[..|units| - 1], units[|units| - 1];
      FailingCounts(service, before, streams);
      OneMoreUnit(service, before, last, streams);
      assert units == before + [last];
    }
  }

  method LoadUnit(service: Service, u: Unit, streams: seq<Stream>) returns (success: bool)
    ensures success == UnitLands(service, u, streams)
  {
    success := true;
    for k := 0 to |streams|
      invariant success == forall s | s in streams[..k] :: Lands(service, u, s, 0, 0)
      invariant success
    {
      assert streams[..k + 1] == streams[..k] + [streams[k]];
      var page: nat, throttles: nat := 0, 0;
      while true
        invariant throttles <= MAX_PAGE_THROTTLES && page <= service.lastPage(u, streams[k])
        invariant Lands(service, u, streams[k], 0, 0) == Lands(service, u, streams[k], page, throttles)
        decreases service.lastPage(u, streams[k]) - page, MAX_PAGE_THROTTLES - throttles
      {
        match service.answer(u, streams[k], page, throttles) {
          case Throttled =>
            if throttles + 1 > MAX_PAGE_THROTTLES {
              assert streams[k] in streams;
              return false;
            }
            throttles := throttles + 1;
          case Error =>
            assert streams[k] in streams;
            return false;
          case Page =>
            throttles := 0;
            if page >= service.lastPage(u, streams[k]) { break; }
            page := page + 1;
        }
      }
    }
    assert streams[..|streams|] == streams;
  }

  datatype Status = Completed | Partial | Failed | RefusedRun(reason: Reason)

  class RefreshPipeline {
    var state: Option<State>
    ghost var loaded: iset<Cell>
    ghost var lost: set<string>
    ghost var horizon: int

    ghost function Now(): World
      reads this
    {
      World(state, loaded, lost, horizon)
    }

    /**
     * One orchestration makes exactly one event of the history, a success exactly when every unit lands.
     * A cell counts as loaded once the whole query of its metric has landed.
     */
    method RunRefresh(scope: Scope, end: int, historical: nat, agreement: Agreement, service: Service)
      returns (status: Status, ghost landed: iset<Cell>)
      modifies this
      ensures Now() == Happen(old(Now()), Refreshed(scope, end, landed, status.Completed?), historical)
      ensures var plan := ResolvePlan(old(state), scope, end, historical);
        && (status.RefusedRun? <==> plan.Refused?)
        && (status.Completed? <==> plan.Loading? && AllLand(service, scope.structure, plan.loads, Streams(agreement)))
        && (plan.Loading? ==> landed <= LoadedBy(plan.loads) && (status.Completed? ==> landed == LoadedBy(plan.loads)))
      ensures var plan := ResolvePlan(old(state), scope, end, historical);
        && (status.RefusedRun? ==> status.reason == plan.reason && loaded == old(loaded))
        && (plan.Loading? ==> forall c: Cell :: c in loaded <==>
              c in landed || (c in old(loaded) && !(c.subject.One? && c.subject.sub in plan.deletions)))
        && state == (if status.Completed? then Some(plan.newState) else old(state))
        && (status.Failed? <==>
              plan.Loading? && !status.Completed?
                && NoneLands(service, scope.structure, plan.loads, Streams(agreement)))
    {
      landed := iset{};
      var plan := ResolvePlan(state, scope, end, historical);
      if plan.Refused? {
        horizon := end;
        return RefusedRun(plan.reason), landed;
      }
      // Deletions run first, whatever becomes of the loads.
      loaded := Without(loaded, plan.deletions);
      var success, none;
      success, none, landed := LoadPlan(scope.structure, plan.loads, agreement, service);
      horizon := end;
      if success {
        state := Some(plan.newState);
        lost := Outstanding(Kept(lost, scope.subs), plan.newState, loaded);
        return Completed, landed;
      }
      lost := if state.Some? then Outstanding(lost + plan.deletions, state.value, loaded) else {};
      return if none then Failed else Partial, landed;
    }

    /** The units of the plan: whether all of them landed, and whether none did. */
    method LoadPlan(structure: Structure, loads: seq<Load>, agreement: Agreement, service: Service)
      returns (success: bool, none: bool, ghost landed: iset<Cell>)
      modifies this`loaded
      ensures loaded == old(loaded) + landed && landed <= LoadedBy(loads)
      ensures success ==> landed == LoadedBy(loads)
      ensures success <==> AllLand(service, structure, loads, Streams(agreement))
      ensures none <==> NoneLands(service, structure, loads, Streams(agreement))
    {
      var units, parts := WorkUnits(structure, loads);
      var failures;
      failures, landed := LoadAll(units, agreement, service);
      UnitsAreTheLoads(structure, loads, units);
      AllUnitsAreAllLoads(service, structure, loads, units, Streams(agreement));
      success, none := failures == 0, failures == |units|;
    }

    /** Every unit is tried, whatever became of the others. */
    method LoadAll(units: seq<Unit>, agreement: Agreement, service: Service)
      returns (failures: nat, ghost landed: iset<Cell>)
      modifies this`loaded
      ensures loaded == old(loaded) + landed && landed <= CellsOf(units)
      ensures failures == 0 <==> UnitsLand(service, units, Streams(agreement))
      ensures failures <= |units|
      ensures failures == |units| <==> NoUnitLands(service, units, Streams(agreement))
      ensures failures == 0 ==> landed == CellsOf(units)
    {
      failures, landed := 0, iset{};
      for k := 0 to |units|
        invariant failures == Failing(service, units[..k], Streams(agreement))
        invariant landed <= CellsOf(units[..k]) && (failures == 0 ==> landed == CellsOf(units[..k]))
        invariant loaded == old(loaded) + landed
      {
        var u := units[k];
        var success := LoadUnit(service, u, Streams(agreement));
        assert units[..k + 1] == units[..k] + [u];
        ghost var block := LandedCells(service, u, Streams(agreement));
        FailingSnoc(service, units[..k], u, Streams(agreement));
        if !success { failures := failures + 1; } else { AllCellsLand(service, u, agreement); }
        CellsGrow(units[..k], u);
        landed := landed + block;
        loaded := loaded + block;
      }
      assert units[..|units|] == units;
      FailingCounts(service, units, Streams(agreement));
    }

    /** Deleting the tables and recreating them, taken as one step. */
    method RunFlush()
      modifies this
      ensures Now() == Happen(old(Now()), Flushed, 1) && Inv(Now())
      ensures state == None && loaded == iset{}
    {
      state, loaded, lost := None, iset{}, {};
    }
  }

  /** The j-th stream was reached and landed: the streams of a unit run one after the other. */
  ghost predicate StreamLanded(service: Service, u: Unit, streams: seq<Stream>, j: nat) {
    j < |streams| && forall i | 0 <= i <= j :: Lands(service, u, streams[i], 0, 0)
  }

  ghost predicate MetricLands(service: Service, u: Unit, streams: seq<Stream>, m: Metric) {
    exists j: nat :: StreamLanded(service, u, streams, j) && Fills(streams[j], m)
  }

  lemma AllMetricsLand(service: Service, u: Unit, agreement: Agreement)
    requires UnitLands(service, u, Streams(agreement))
    ensures forall m: Metric :: MetricLands(service, u, Streams(agreement), m)
  {
    var streams := Streams(agreement);
    forall m: Metric ensures MetricLands(service, u, streams, m) {
      var j := if agreement.EA? && m.Cost? then 1 else 0;
      assert streams[0] in streams && (|streams| > 1 ==> streams[1] in streams);
      assert StreamLanded(service, u, streams, j) && Fills(streams[j], m);
    }
  }

  /** What of a unit is loaded: the cells of the metrics whose query landed. */
  ghost function LandedCells(service: Service, u: Unit, streams: seq<Stream>): (cells: iset<Cell>)
    ensures cells <= Block(u.subs, u.start, u.end)
  {
    iset c: Cell | c in Block(u.subs, u.start, u.end) && MetricLands(service, u, streams, c.metric)
  }

  lemma AllCellsLand(service: Service, u: Unit, agreement: Agreement)
    requires UnitLands(service, u, Streams(agreement))
    ensures LandedCells(service, u, Streams(agreement)) == Block(u.subs, u.start, u.end)
  {
    AllMetricsLand(service, u, agreement);
  }

  ghost predicate InUnits(units: seq<Unit>, c: Cell) {
    exists u :: u in units && c in Block(u.subs, u.start, u.end)
  }

  ghost function CellsOf(units: seq<Unit>): iset<Cell> {
    iset c: Cell | InUnits(units, c)
  }

  lemma CellsGrow(units: seq<Unit>, u: Unit)
    ensures CellsOf(units + [u]) == CellsOf(units) + Block(u.subs, u.start, u.end)
  {
    forall c ensures c in CellsOf(units + [u]) <==> c in CellsOf(units) || c in Block(u.subs, u.start, u.end) {
      if c in CellsOf(units) { var x :| x in units && c in Block(x.subs, x.start, x.end); assert x in units + [u]; }
      if c in Block(u.subs, u.start, u.end) { assert u in units + [u]; }
    }
  }

  lemma UnitIsPlanned(structure: Structure, loads: seq<Load>, units: seq<Unit>, u: Unit)
    requires forall x :: x in units <==> exists l :: l in loads && x in UnitsOf(structure, l)
    requires u in units
    ensures Block(u.subs, u.start, u.end) <= LoadedBy(loads)
  {
    var l :| l in loads && u in UnitsOf(structure, l);
    UnitsCoverTheLoad(structure, l);
  }

  lemma AllUnitsAreAllLoads(service: Service, structure: Structure, loads: seq<Load>, units: seq<Unit>,
      streams: seq<Stream>)
    requires forall x :: x in units <==> exists l :: l in loads && x in UnitsOf(structure, l)
    ensures UnitsLand(service, units, streams) <==> AllLand(service, structure, loads, streams)
    ensures NoUnitLands(service, units, streams) <==> NoneLands(service, structure, loads, streams)
  {
  }

  lemma UnitsAreTheLoads(structure: Structure, loads: seq<Load>, units: seq<Unit>)
    requires forall x :: x in units <==> exists l :: l in loads && x in UnitsOf(structure, l)
    ensures CellsOf(units) == LoadedBy(loads)
  {
    forall c | c in LoadedBy(loads) ensures c in CellsOf(units) {
      var l :| l in loads && c in Block(l.subs, l.start, l.end);
      UnitsCoverTheLoad(structure, l);
      var u :| u in UnitsOf(structure, l) && c in Block(u.subs, u.start, u.end);
      assert u in units;
    }
    forall c | c in CellsOf(units) ensures c in LoadedBy(loads) {
      var u :| u in units && c in Block(u.subs, u.start, u.end);
      UnitIsPlanned(structure, loads, units, u);
    }
  }
}
