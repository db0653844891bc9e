/**
 * The dispatcher's tick: heal dead rows, then start what is due, in priority order, under the
 * per-tick cap and the contention groups.  A tick is taken as one atomic action here; the
 * interleaving of callers is ClaimProtocol's subject.
 */
module Dispatching {
  import opened Options
  import Cadence

  datatype Holder = Placeholder | Instance(id: nat)

  datatype Descriptor = Descriptor(id: string, group: Option<string>, priority: int)

  datatype Config = Config(enabled: bool, frequency: int, anchor: int)

  datatype RunRow = RunRow(active: Option<Holder>, last: Option<nat>)

  /** rows: the run-state table; live: instances Durable reports as not terminal; runs: what each was launched for. */
  datatype Sched = Sched(rows: map<string, RunRow>, runs: map<nat, string>, live: set<nat>, next: nat)

  /** delay: how much later than the tick's own clock reading start() reads the clock for a pipeline. */
  datatype Env = Env(registry: seq<Descriptor>, config: string -> Config, now: nat, delay: string -> nat,
                     failing: set<string>, cap: int)

  function Active(s: Sched, p: string): Option<Holder> {
    if p in s.rows then s.rows[p].active else None
  }

  function Last(s: Sched, p: string): Option<nat> {
    if p in s.rows then s.rows[p].last else None
  }

  predicate Dead(s: Sched, h: Option<Holder>) {
    h.Some? && h.value.Instance? && h.value.id !in s.live
  }

  predicate Busy(s: Sched, p: string) {
    Active(s, p).Some? && !Dead(s, Active(s, p))
  }

  function Heal(s: Sched, p: string): Sched {
    if Dead(s, Active(s, p)) then s.(rows := s.rows[p := s.rows[p].(active := None)]) else s
  }

  function HealAll(s: Sched): Sched {
    s.(rows := map p | p in s.rows :: if Dead(s, s.rows[p].active) then s.rows[p].(active := None) else s.rows[p])
  }

  predicate Due(s: Sched, env: Env, p: string) {
    Cadence.IsDue(env.now, Last(s, p), env.config(p).anchor, env.config(p).frequency)
  }

  predicate Mates(o: Descriptor, d: Descriptor) {
    o.id != d.id && d.group.Some? && o.group == d.group
  }

  function Contend(s: Sched, d: Descriptor, others: seq<Descriptor>): (Sched, bool)
    decreases |others|
  {
    if others == [] then (s, false)
    else if !Mates(others[0], d) then Contend(s, d, others[1..])
    else if Busy(s, others[0].id) then (s, true)
    else Contend(Heal(s, others[0].id), d, others[1..])
  }

  /** A launch that raises gives the claim back, but the recorded dispatch time stays. */
  function Launch(s: Sched, env: Env, p: string): (Sched, bool) {
    var recorded := Some(env.now + env.delay(p));
    if p in env.failing then (s.(rows := s.rows[p := RunRow(None, recorded)]), false)
    else (Sched(s.rows[p := RunRow(Some(Instance(s.next)), recorded)], s.runs[s.next := p], s.live + {s.next},
        s.next + 1), true)
  }

  function DispatchOne(s: Sched, env: Env, d: Descriptor, groups: set<string>): (Sched, bool) {
    if !env.config(d.id).enabled || !Due(s, env, d.id) then (s, false)
    else
      var s1 := Heal(s, d.id);
      if Busy(s, d.id) then (s1, false)
      else if d.group.Some? && d.group.value in groups then (s1, false)
      else
        var (s2, blocked) := Contend(s1, d, env.registry);
        if blocked then (s2, false) else Launch(s2, env, d.id)
  }

  function Sweep(s: Sched, env: Env, ds: seq<Descriptor>, groups: set<string>, count: nat): (Sched, seq<Descriptor>)
    decreases |ds|
  {
    if ds == [] || (env.cap > 0 && count >= env.cap) then (s, [])
    else
      var (s1, started) := DispatchOne(s, env, ds[0], groups);
      if started then
        var (s2, more) := Sweep(s1, env, ds[1..], WithGroup(groups, ds[0]), count + 1);
        (s2, [ds[0]] + more)
      else Sweep(s1, env, ds[1..], groups, count)
  }

  function WithGroup(groups: set<string>, d: Descriptor): set<string> {
    if d.group.Some? then groups + {d.group.value} else groups
  }

  function Tick(s: Sched, env: Env): (Sched, seq<Descriptor>) {
    Sweep(HealAll(s), env, env.registry, {}, 0)
  }

  // ---- the same in terms of the rows ----

  /** The row holds a claim's placeholder, or an instance Durable reports as not terminal. */
  ghost predicate InFlight(rows: map<string, RunRow>, live: set<nat>, p: string) {
    p in rows && match rows[p].active
      case None => false
      case Some(Placeholder) => true
      case Some(Instance(id)) => id in live
  }

  lemma BusyIsInFlight(s: Sched, p: string)
    ensures Busy(s, p) <==> InFlight(s.rows, s.live, p)
  {
  }

  /** The pipelines of d's contention group but d. */
  ghost predicate MateInFlight(s: Sched, env: Env, d: Descriptor) {
    exists o :: o in env.registry && o.id != d.id && d.group != None && o.group == d.group
        && InFlight(s.rows, s.live, o.id)
  }

  /**
   * Enabled, with a grid point since its last dispatch or none at all, and neither it nor a mate in flight; and its
   * launch does not raise.
   */
  ghost predicate MayStart(s: Sched, env: Env, d: Descriptor) {
    var config := env.config(d.id);
    && config.enabled && config.frequency > 0
    && (d.id in s.rows && s.rows[d.id].last.Some? ==>
          Cadence.PointSince(s.rows[d.id].last.value, env.now, config.anchor, config.frequency))
    && !InFlight(s.rows, s.live, d.id) && !MateInFlight(s, env, d)
    && d.id !in env.failing
  }

  lemma StartableExactly(s: Sched, env: Env, d: Descriptor)
    ensures Startable(s, env, d) <==> MayStart(s, env, d)
  {
    var config := env.config(d.id);
    Cadence.DueExactlyWhenAGridPointHasCome(env.now, Last(s, d.id), config.anchor, config.frequency);
    BusyIsInFlight(s, d.id);
    forall o ensures Busy(s, o) <==> InFlight(s.rows, s.live, o) { BusyIsInFlight(s, o); }
  }

  // ---- the code, over the stores ----

  class Dispatcher {
    var rows: map<string, RunRow>
    var runs: map<nat, string>
    var live: set<nat>
    var next: nat

    function State(): Sched
      reads this
    {
      Sched(rows, runs, live, next)
    }

    method ScopeBusy(p: string) returns (busy: bool)
      modifies this`rows
      ensures State() == Heal(old(State()), p) && busy == Busy(old(State()), p)
      ensures busy <==> InFlight(old(rows), live, p)
      ensures busy ==> rows == old(rows)
      ensures !busy ==> forall q :: (q in rows <==> q in old(rows)) && (q in rows ==>
                rows[q] == if q == p then old(rows)[q].(active := None) else old(rows)[q])
    {
      if p !in rows { return false; }
      match rows[p].active
      case None => return false;
      case Some(Placeholder) => return true;
      case Some(Instance(id)) =>
        if id in live { return true; }
        rows := rows[p := rows[p].(active := None)];
        return false;
    }

    method ContentionBlocked(env: Env, d: Descriptor, startedGroups: set<string>) returns (blocked: bool)
      modifies this`rows
      ensures d.group.Some? && d.group.value in startedGroups ==> blocked && State() == old(State())
      ensures !(d.group.Some? && d.group.value in startedGroups) ==>
                (State(), blocked) == Contend(old(State()), d, env.registry)
      ensures blocked <==> (d.group.Some? && d.group.value in startedGroups) || MateInFlight(old(State()), env, d)
    {
      forall p ensures Busy(State(), p) <==> InFlight(rows, live, p) { BusyIsInFlight(State(), p); }
      ContendView(State(), d, env.registry, d.id);
      if d.group.None? {
        UngroupedIsFree(State(), d, env.registry);
        return false;
      }
      if d.group.value in startedGroups { return true; }
      for k := 0 to |env.registry|
        invariant Contend(old(State()), d, env.registry) == Contend(State(), d, env.registry[k..])
      {
        var o := env.registry[k];
        assert env.registry[k..][0] == o && env.registry[k..][1..] == env.registry[k + 1..];
        if o.id != d.id && o.group == d.group {
          var busy := ScopeBusy(o.id);
          if busy { return true; }
        }
      }
      return false;
    }

    /** The single start point: gate, claim, launch, record. */
    method Start(env: Env, p: string) returns (started: bool)
      modifies this
      ensures Busy(old(State()), p) ==> !started && State() == old(State())
      ensures !Busy(old(State()), p) ==> (State(), started) == Launch(Heal(old(State()), p), env, p)
      ensures started <==> !InFlight(old(rows), old(live), p) && p !in env.failing
      ensures !InFlight(old(rows), old(live), p) ==>
                rows == old(rows)[p := RunRow(if started then Some(Instance(old(next))) else None,
                                              Some(env.now + env.delay(p)))]
      ensures live == (if started then old(live) + {old(next)} else old(live))
      ensures runs == (if started then old(runs)[old(next) := p] else old(runs))
    {
      var busy := ScopeBusy(p);
      if busy { return false; }
      var at := env.now + env.delay(p);
      if p in env.failing {
        rows := rows[p := RunRow(None, Some(at))];
        return false;
      }
      rows := rows[p := RunRow(Some(Instance(next)), Some(at))];
      runs, live, next := runs[next := p], live + {next}, next + 1;
      return true;
    }

    method DispatchPipeline(env: Env, d: Descriptor, startedGroups: set<string>) returns (started: bool)
      modifies this
      ensures (State(), started) == DispatchOne(old(State()), env, d, startedGroups)
    {
      var config := env.config(d.id);
      if !config.enabled { return false; }
      var last := if d.id in rows then rows[d.id].last else None;
      if !Cadence.IsDue(env.now, last, config.anchor, config.frequency) { return false; }
      var busy := ScopeBusy(d.id);
      if busy { return false; }
      var s1 := State();
      var blocked := ContentionBlocked(env, d, startedGroups);
      if blocked { return false; }
      ContendView(s1, d, env.registry, d.id);
      started := Start(env, d.id);
    }

    method ReconcileRows()
      modifies this`rows
      ensures State() == HealAll(old(State()))
      ensures forall q :: q in rows <==> q in old(rows)
      ensures forall q | q in rows :: rows[q] ==
                if InFlight(old(rows), live, q) then old(rows)[q] else old(rows)[q].(active := None)
    {
      var left := rows.Keys;
      while left != {}
        invariant left <= rows.Keys == old(rows).Keys
        invariant forall p | p in rows :: rows[p] == if p in left then old(rows)[p] else HealAll(old(State())).rows[p]
      {
        var p :| p in left;
        left := left - {p};
        var busy := ScopeBusy(p);
      }
    }

    method RunTick(env: Env) returns (started: seq<Descriptor>)
      modifies this
      ensures (State(), started) == Tick(old(State()), env)
    {
      ReconcileRows();
      var startedGroups: set<string> := {};
      started := [];
      var k := 0;
      assert env.registry[0..] == env.registry;
      ghost var (_, all) := Tick(old(State()), env);
      assert [] + all == all;
      while k < |env.registry|
        invariant k <= |env.registry|
        invariant var (s, more) := Sweep(State(), env, env.registry[k..], startedGroups, |started|);
          Tick(old(State()), env) == (s, started + more)
      {
        assert started + [] == started;
        if env.cap > 0 && |started| >= env.cap { return; }
        var d := env.registry[k];
        assert env.registry[k..][0] == d && env.registry[k..][1..] == env.registry[k + 1..];
        ghost var before := State();
        var launched := DispatchPipeline(env, d, startedGroups);
        if launched {
          ghost var (s, more) := Sweep(State(), env, env.registry[k + 1..], WithGroup(startedGroups, d), |started| + 1);
          assert started + ([d] + more) == (started + [d]) + more;
          started := started + [d];
          if d.group.Some? { startedGroups := startedGroups + {d.group.value}; }
        }
        k := k + 1;
      }
      assert started + [] == started;
    }
  }

  // ---- what a tick can see ----

  ghost predicate SameView(s: Sched, s': Sched, p: string) {
    Busy(s, p) == Busy(s', p) && Last(s, p) == Last(s', p)
  }

  lemma {:induction false} UngroupedIsFree(s: Sched, d: Descriptor, others: seq<Descriptor>)
    requires d.group.None?
    ensures Contend(s, d, others) == (s, false)
    decreases |others|
  {
    if others != [] { UngroupedIsFree(s, d, others[1..]); }
  }

  /** Looking for a busy mate finds one exactly when there is one, and changes nothing anyone can see. */
  lemma {:induction false} ContendView(s: Sched, d: Descriptor, others: seq<Descriptor>, p: string)
    ensures var (s', blocked) := Contend(s, d, others);
      && SameView(s, s', p) && s'.live == s.live && s'.runs == s.runs && s'.next == s.next
      && (Active(s', p) == Active(s, p) || (Dead(s, Active(s, p)) && Active(s', p).None?))
      && (p == d.id ==> Active(s', p) == Active(s, p))
      && (blocked <==> exists o :: o in others && Mates(o, d) && Busy(s, o.id))
    decreases |others|
  {
    if others != [] {
      var o := others[0];
      var s1 := if Mates(o, d) then Heal(s, o.id) else s;
      assert forall q :: SameView(s, s1, q);
      ContendView(s1, d, others[1..], p);
    }
  }

  // ---- which pipelines a tick starts ----

  ghost predicate Wf(s: Sched) {
    && (forall i | i in s.live :: i in s.runs)
    && (forall i | i in s.runs :: i < s.next)
    && (forall p | p in s.rows && s.rows[p].active.Some?
         && s.rows[p].active.value.Instance? :: s.rows[p].active.value.id < s.next)
  }

  /** Enabled, due, idle, with no busy mate, and its launch does not raise. */
  ghost predicate Startable(s: Sched, env: Env, d: Descriptor) {
    && env.config(d.id).enabled && Due(s, env, d.id) && !Busy(s, d.id) && d.id !in env.failing
    && (forall o | o in env.registry && Mates(o, d) :: !Busy(s, o.id))
  }

  /** Enabled and idle with idle mates: nothing but the due test, the cap and this tick's own starts is in the way. */
  ghost predicate Unblocked(s: Sched, env: Env, d: Descriptor) {
    && env.config(d.id).enabled && !Busy(s, d.id)
    && (forall o | o in env.registry && Mates(o, d) :: !Busy(s, o.id))
  }

  ghost predicate Free(d: Descriptor, groups: set<string>) {
    d.group.None? || d.group.value !in groups
  }

  /** Healing one's own row and looking for a busy mate shows nothing new, and finds one exactly if there is one. */
  lemma PrepareView(s: Sched, env: Env, d: Descriptor, p: string)
    requires Wf(s)
    ensures SameView(s, Heal(s, d.id), p) && Wf(Heal(s, d.id))
    ensures var (s2, blocked) := Contend(Heal(s, d.id), d, env.registry);
      && Wf(s2) && SameView(s, s2, p)
      && (blocked <==> exists o :: o in env.registry && Mates(o, d) && Busy(s, o.id))
  {
    HealView(s, d.id, p);
    var s1 := Heal(s, d.id);
    ContendView(s1, d, env.registry, p);
    ContendKeepsWf(s1, d, env.registry);
    forall o | o in env.registry ensures Busy(s1, o.id) == Busy(s, o.id) { HealView(s, d.id, o.id); }
  }

  lemma LaunchView(s: Sched, env: Env, q: string, p: string)
    requires Wf(s) && !Busy(s, q)
    ensures var (s', started) := Launch(s, env, q);
      && Wf(s') && (started <==> q !in env.failing)
      && (p != q ==> SameView(s, s', p)) && (!started ==> Busy(s', p) == Busy(s, p))
  {
  }

  lemma DispatchView(s: Sched, env: Env, d: Descriptor, groups: set<string>, p: string)
    requires Wf(s)
    ensures var (s', started) := DispatchOne(s, env, d, groups);
      && Wf(s')
      && (started <==> Startable(s, env, d) && Free(d, groups))
      && (p != d.id ==> SameView(s, s', p))
      && (!started ==> Busy(s', p) == Busy(s, p))
  {
    PrepareView(s, env, d, p);
    PrepareView(s, env, d, d.id);
    var s2 := Contend(Heal(s, d.id), d, env.registry).0;
    if !Busy(s, d.id) { LaunchView(s2, env, d.id, p); }
  }

  lemma HealView(s: Sched, h: string, p: string)
    ensures SameView(s, Heal(s, h), p) && (Wf(s) ==> Wf(Heal(s, h)))
    ensures !Busy(s, h) ==> Active(Heal(s, h), h).None?
  {
  }

  lemma {:induction false} ContendKeepsWf(s: Sched, d: Descriptor, others: seq<Descriptor>)
    requires Wf(s)
    ensures Wf(Contend(s, d, others).0)
    decreases |others|
  {
    if others != [] {
      HealView(s, others[0].id, "");
      ContendKeepsWf(if Mates(others[0], d) then Heal(s, others[0].id) else s, d, others[1..]);
    }
  }

  /** The tick's choice, made once and for all in the state it finds. */
  ghost function Chosen(s: Sched, env: Env, ds: seq<Descriptor>, groups: set<string>, count: nat): seq<Descriptor>
    decreases |ds|
  {
    if ds == [] || (env.cap > 0 && count >= env.cap) then []
    else if Startable(s, env, ds[0]) && Free(ds[0], groups)
    then [ds[0]] + Chosen(s, env, ds[1..], WithGroup(groups, ds[0]), count + 1)
    else Chosen(s, env, ds[1..], groups, count)
  }

  ghost predicate DistinctIds(ds: seq<Descriptor>) {
    forall i, j | 0 <= i < j < |ds| :: ds[i].id != ds[j].id
  }

  /** Earlier starts of the same tick are only visible through the groups they occupy. */
  ghost predicate Shadows(s0: Sched, s: Sched, env: Env, ds: seq<Descriptor>, groups: set<string>) {
    && (forall d | d in ds :: SameView(s0, s, d.id))
    && (forall o | o in env.registry && Free(o, groups) && o.group.Some? :: Busy(s, o.id) == Busy(s0, o.id))
  }

  lemma ShadowStartable(s0: Sched, s: Sched, env: Env, ds: seq<Descriptor>, groups: set<string>, d: Descriptor)
    requires Shadows(s0, s, env, ds, groups) && d in ds && Free(d, groups)
    ensures Startable(s, env, d) <==> Startable(s0, env, d)
  {
    assert SameView(s0, s, d.id);
    assert forall o | o in env.registry && Mates(o, d) :: Busy(s, o.id) == Busy(s0, o.id);
  }

  lemma DispatchKeepsShadows(s0: Sched, s: Sched, env: Env, ds: seq<Descriptor>, groups: set<string>)
    requires Wf(s) && DistinctIds(ds) && Shadows(s0, s, env, ds, groups) && ds != [] && ds[0] in env.registry
        && DistinctIds(env.registry)
    ensures var (s1, started) := DispatchOne(s, env, ds[0], groups);
      Wf(s1) && Shadows(s0, s1, env, ds[1..], if started then WithGroup(groups, ds[0]) else groups)
  {
    var d := ds[0];
    var (s1, started) := DispatchOne(s, env, d, groups);
    var groups' := if started then WithGroup(groups, d) else groups;
    DispatchView(s, env, d, groups, d.id);
    forall e | e in ds[1..] ensures SameView(s0, s1, e.id) {
      assert e.id != d.id;
      DispatchView(s, env, d, groups, e.id);
      assert SameView(s0, s, e.id);
    }
    forall o | o in env.registry && Free(o, groups') && o.group.Some? ensures Busy(s1, o.id) == Busy(s0, o.id) {
      DispatchView(s, env, d, groups, o.id);
      if o.id == d.id { assert o == d; }
    }
  }

  lemma {:induction false} SweepStartsTheChosen(s0: Sched, s: Sched, env: Env, ds: seq<Descriptor>,
      groups: set<string>, count: nat)
    requires Wf(s) && DistinctIds(ds) && Shadows(s0, s, env, ds, groups)
    requires forall d | d in ds :: d in env.registry
    requires DistinctIds(env.registry)
    ensures Sweep(s, env, ds, groups, count).1 == Chosen(s0, env, ds, groups, count)
    decreases |ds|
  {
    if ds != [] && !(env.cap > 0 && count >= env.cap) {
      var d := ds[0];
      var (s1, started) := DispatchOne(s, env, d, groups);
      DispatchView(s, env, d, groups, d.id);
      if Free(d, groups) { ShadowStartable(s0, s, env, ds, groups, d); }
      DispatchKeepsShadows(s0, s, env, ds, groups);
      var groups' := if started then WithGroup(groups, d) else groups;
      SweepStartsTheChosen(s0, s1, env, ds[1..], groups', if started then count + 1 else count);
    }
  }

  ghost predicate ByPriority(ds: seq<Descriptor>) {
    forall i, j | 0 <= i < j < |ds| :: ds[i].priority <= ds[j].priority
  }

  ghost predicate OnePerGroup(ds: seq<Descriptor>) {
    forall i, j | 0 <= i < j < |ds| && ds[i].group.Some? :: ds[i].group != ds[j].group
  }

  lemma PrependChoice(d: Descriptor, rest: seq<Descriptor>)
    requires ByPriority(rest) && OnePerGroup(rest)
    requires forall e | e in rest :: d.priority <= e.priority && (d.group.Some? ==> e.group != d.group)
    ensures ByPriority([d] + rest) && OnePerGroup([d] + rest)
  {
    forall i | 0 <= i < |rest| ensures rest[i] in rest {}
  }

  lemma {:induction false} ChosenIsSafe(s: Sched, env: Env, ds: seq<Descriptor>, groups: set<string>, count: nat)
    requires ByPriority(ds)
    ensures var started := Chosen(s, env, ds, groups, count);
      && (forall d | d in started :: d in ds && Startable(s, env, d) && Free(d, groups))
      && ByPriority(started) && OnePerGroup(started)
      && (env.cap > 0 && count <= env.cap ==> count + |started| <= env.cap)
    decreases |ds|
  {
    if ds != [] && !(env.cap > 0 && count >= env.cap) {
      var d := ds[0];
      if Startable(s, env, d) && Free(d, groups) {
        ChosenIsSafe(s, env, ds[1..], WithGroup(groups, d), count + 1);
        var rest := Chosen(s, env, ds[1..], WithGroup(groups, d), count + 1);
        forall e | e in rest ensures d.priority <= e.priority && (d.group.Some? ==> e.group != d.group) {
          assert e in ds[1..] && Free(e, WithGroup(groups, d));
        }
        PrependChoice(d, rest);
      } else {
        ChosenIsSafe(s, env, ds[1..], groups, count);
      }
    }
  }

  /** Nothing startable is passed over, except for the cap or for a started mate of higher or equal priority. */
  lemma {:induction false} ChosenIsComplete(s: Sched, env: Env, ds: seq<Descriptor>, groups: set<string>, count: nat,
      d: Descriptor)
    requires ByPriority(ds) && d in ds && Startable(s, env, d) && Free(d, groups)
    ensures var started := Chosen(s, env, ds, groups, count);
      || d in started
      || (env.cap > 0 && count + |started| >= env.cap)
      || (exists m :: m in started && m.group == d.group && d.group.Some? && m.priority <= d.priority)
    decreases |ds|
  {
    if !(env.cap > 0 && count >= env.cap) {
      var h := ds[0];
      if Startable(s, env, h) && Free(h, groups) {
        var rest := Chosen(s, env, ds[1..], WithGroup(groups, h), count + 1);
        assert forall m | m in rest :: m in [h] + rest;
        if h != d {
          if Free(d, WithGroup(groups, h)) {
            ChosenIsComplete(s, env, ds[1..], WithGroup(groups, h), count + 1, d);
          } else {
            assert h in [h] + rest && h.group == d.group;
          }
        }
      } else {
        assert d in ds[1..];
        ChosenIsComplete(s, env, ds[1..], groups, count, d);
      }
    }
  }

  lemma HealAllView(s: Sched, p: string)
    ensures SameView(s, HealAll(s), p) && HealAll(s).live == s.live
    ensures Wf(s) ==> Wf(HealAll(s))
  {
  }

  lemma StartableAfterHealing(s: Sched, env: Env, d: Descriptor)
    ensures Startable(HealAll(s), env, d) <==> Startable(s, env, d)
  {
    HealAllView(s, d.id);
    forall o | o in env.registry ensures Busy(s, o.id) == Busy(HealAll(s), o.id) { HealAllView(s, o.id); }
  }

  /**
   * One tick, for any run state, configuration and launch failures: exactly safe and complete
   * choices, in priority order, under the cap, one per contention group.
   */
  lemma TickStartsTheRightPipelines(s: Sched, env: Env)
    requires Wf(s) && ByPriority(env.registry) && DistinctIds(env.registry)
    ensures var started := Tick(s, env).1;
      && (forall d | d in started :: d in env.registry && MayStart(s, env, d))
      && ByPriority(started) && OnePerGroup(started)
      && (env.cap > 0 ==> |started| <= env.cap)
      && (forall d | d in env.registry && MayStart(s, env, d) && d !in started ::
            || (env.cap > 0 && |started| == env.cap)
            || (exists m :: m in started && d.group.Some? && m.group == d.group && m.priority <= d.priority))
  {
    var h := HealAll(s);
    HealAllView(s, "");
    SweepStartsTheChosen(h, h, env, env.registry, {}, 0);
    ChosenIsSafe(h, env, env.registry, {}, 0);
    forall d | d in env.registry
      ensures Startable(h, env, d) <==> Startable(s, env, d)
      ensures Startable(s, env, d) <==> MayStart(s, env, d)
    {
      StartableAfterHealing(s, env, d);
      StartableExactly(s, env, d);
    }
    forall d | d in env.registry && Startable(s, env, d) && d !in Tick(s, env).1
      ensures || (env.cap > 0 && |Tick(s, env).1| == env.cap)
              || (exists m :: m in Tick(s, env).1 && d.group.Some? && m.group == d.group && m.priority <= d.priority)
    {
      ChosenIsComplete(h, env, env.registry, {}, 0, d);
    }
  }

  // ---- contention groups over any sequence of ticks ----

  ghost predicate SameGroup(registry: seq<Descriptor>, p: string, q: string) {
    exists d, e :: d in registry && e in registry && d.id == p && e.id == q && d.group.Some? && d.group == e.group
  }

  /** Each live run is the one its pipeline's row names. */
  ghost predicate Tracked(s: Sched) {
    forall i | i in s.live :: i in s.runs && Active(s, s.runs[i]) == Some(Instance(i))
  }

  /** At most one unfinished run per pipeline and per contention group. */
  ghost predicate Exclusive(s: Sched, registry: seq<Descriptor>) {
    forall i, j | i in s.live && j in s.live && i in s.runs && j in s.runs
                  && (s.runs[i] == s.runs[j] || SameGroup(registry, s.runs[i], s.runs[j])) :: i == j
  }

  ghost predicate Safe(s: Sched, registry: seq<Descriptor>) {
    Wf(s) && Tracked(s) && Exclusive(s, registry)
  }

  /** What precedes a launch: rows of other pipelines may be healed, nothing more. */
  ghost predicate Prepared(s: Sched, s2: Sched) {
    && Wf(s2) && s2.live == s.live && s2.runs == s.runs && s2.next == s.next
    && (forall i | i in s.live && i in s.runs
         && Active(s, s.runs[i]) == Some(Instance(i)) :: Active(s2, s.runs[i]) == Some(Instance(i)))
  }

  lemma HealPrepares(s: Sched, s2: Sched)
    requires Wf(s) && Wf(s2) && s2.live == s.live && s2.runs == s.runs && s2.next == s.next
    requires forall q :: Active(s2, q) == Active(s, q) || Dead(s, Active(s, q))
    ensures Prepared(s, s2)
  {
  }

  lemma ContendPrepares(s: Sched, d: Descriptor, env: Env)
    requires Wf(s)
    ensures Prepared(s, Contend(Heal(s, d.id), d, env.registry).0)
  {
    var s1 := Heal(s, d.id);
    var s2 := Contend(s1, d, env.registry).0;
    ContendKeepsWf(s1, d, env.registry);
    ContendView(s1, d, env.registry, d.id);
    forall q ensures Active(s2, q) == Active(s, q) || Dead(s, Active(s, q)) { ContendView(s1, d, env.registry, q); }
    HealPrepares(s, s2);
  }

  lemma PreparedIsSafe(s: Sched, s2: Sched, registry: seq<Descriptor>)
    requires Safe(s, registry) && Prepared(s, s2)
    ensures Safe(s2, registry)
  {
  }

  lemma LaunchKeepsSafe(s2: Sched, env: Env, p: string)
    requires Safe(s2, env.registry)
    requires forall i | i in s2.live && i in s2.runs ::
               s2.runs[i] != p && !SameGroup(env.registry, s2.runs[i], p) && !SameGroup(env.registry, p, s2.runs[i])
    ensures Safe(Launch(s2, env, p).0, env.registry)
  {
    LaunchKeepsTracked(s2, env, p);
    LaunchKeepsExclusive(s2, env, p);
  }

  lemma LaunchKeepsTracked(s2: Sched, env: Env, p: string)
    requires Wf(s2) && Tracked(s2) && forall i | i in s2.live && i in s2.runs :: s2.runs[i] != p
    ensures Wf(Launch(s2, env, p).0) && Tracked(Launch(s2, env, p).0)
  {
  }

  lemma LaunchKeepsExclusive(s2: Sched, env: Env, p: string)
    requires Wf(s2) && Exclusive(s2, env.registry)
    requires forall i | i in s2.live && i in s2.runs ::
               s2.runs[i] != p && !SameGroup(env.registry, s2.runs[i], p) && !SameGroup(env.registry, p, s2.runs[i])
    ensures Exclusive(Launch(s2, env, p).0, env.registry)
  {
  }

  lemma LiveIsBusy(s: Sched, registry: seq<Descriptor>, i: nat)
    requires Safe(s, registry) && i in s.live
    ensures i in s.runs && Busy(s, s.runs[i])
  {
  }

  lemma UnblockedHasNoLiveMate(s: Sched, env: Env, d: Descriptor, i: nat)
    requires Safe(s, env.registry) && DistinctIds(env.registry) && d in env.registry && Unblocked(s, env, d)
        && i in s.live && i in s.runs
    ensures s.runs[i] != d.id && !SameGroup(env.registry, s.runs[i], d.id) && !SameGroup(env.registry, d.id, s.runs[i])
  {
    LiveIsBusy(s, env.registry, i);
    forall m, e | m in env.registry && e in env.registry && m.id == s.runs[i] && e.id == d.id && m.group.Some?
      ensures m.group != e.group
    {
      assert e == d;
    }
  }

  /** A dispatch gets as far as launching only if it is unblocked. */
  lemma LaunchedIsUnblocked(s: Sched, env: Env, d: Descriptor, groups: set<string>)
    requires Wf(s)
    ensures var s2 := Contend(Heal(s, d.id), d, env.registry).0;
      var s' := DispatchOne(s, env, d, groups).0;
      s' == s || s' == Heal(s, d.id) || s' == s2 || (s' == Launch(s2, env, d.id).0 && Unblocked(s, env, d))
  {
    forall o | o in env.registry ensures Busy(Heal(s, d.id), o.id) == Busy(s, o.id) { HealView(s, d.id, o.id); }
    ContendView(Heal(s, d.id), d, env.registry, d.id);
  }

  lemma DispatchKeepsSafe(s: Sched, env: Env, d: Descriptor, groups: set<string>)
    requires Safe(s, env.registry) && DistinctIds(env.registry) && d in env.registry
    ensures Safe(DispatchOne(s, env, d, groups).0, env.registry)
  {
    var s1 := Heal(s, d.id);
    var s2 := Contend(s1, d, env.registry).0;
    HealView(s, d.id, d.id);
    HealPrepares(s, s1);
    PreparedIsSafe(s, s1, env.registry);
    ContendPrepares(s, d, env);
    PreparedIsSafe(s, s2, env.registry);
    LaunchedIsUnblocked(s, env, d, groups);
    if Unblocked(s, env, d) {
      forall i | i in s2.live && i in s2.runs
        ensures s2.runs[i] != d.id && !SameGroup(env.registry, s2.runs[i], d.id)
            && !SameGroup(env.registry, d.id, s2.runs[i])
      {
        UnblockedHasNoLiveMate(s, env, d, i);
      }
      LaunchKeepsSafe(s2, env, d.id);
    }
  }

  lemma {:induction false} SweepKeepsSafe(s: Sched, env: Env, ds: seq<Descriptor>, groups: set<string>, count: nat)
    requires Safe(s, env.registry) && DistinctIds(env.registry) && forall d | d in ds :: d in env.registry
    ensures Safe(Sweep(s, env, ds, groups, count).0, env.registry)
    decreases |ds|
  {
    if ds != [] && !(env.cap > 0 && count >= env.cap) {
      DispatchKeepsSafe(s, env, ds[0], groups);
      var (s1, started) := DispatchOne(s, env, ds[0], groups);
      SweepKeepsSafe(s1, env, ds[1..], if started then WithGroup(groups, ds[0]) else groups, if started then count + 1
          else count);
    }
  }

  /** A launch that raises still uses up its slot: the pipeline is not due again before the next grid point. */
  lemma FailedLaunchUsesUpItsSlot(s: Sched, env: Env, p: string, later: Env)
    requires p in env.failing && later.config(p) == env.config(p) && env.config(p).frequency > 0
    ensures var (s', _) := Launch(s, env, p);
      && !Busy(s', p)
      && (Due(s', later, p) <==>
          later.now >= (Cadence.SlotStart(env.now + env.delay(p), env.config(p).anchor, env.config(p).frequency)
                        + env.config(p).frequency) * Cadence.MICROS)
  {
    Cadence.DueFromTheNextGridPoint(later.now, env.now + env.delay(p), env.config(p).anchor, env.config(p).frequency);
  }

  /** What happens to the run state between manual starts: ticks, completions, and runs that just die. */
  datatype Event = Ticked(env: Env) | Completed(id: nat) | Died(id: nat)

  ghost function Happen(s: Sched, e: Event): Sched {
    match e
    case Ticked(env) => Tick(s, env).0
    case Died(id) => s.(live := s.live - {id})
    case Completed(id) =>
      var s1 := s.(live := s.live - {id});
      if id in s.live && id in s.runs && s.runs[id] in s.rows
      then s1.(rows := s.rows[s.runs[id] := s.rows[s.runs[id]].(active := None)]) else s1
  }

  ghost function HappenAll(s: Sched, events: seq<Event>): Sched
    decreases |events|
  {
    if events == [] then s else HappenAll(Happen(s, events[0]), events[1..])
  }

  /** Over any sequence of ticks, completions and deaths, at most one run per contention group is unfinished. */
  lemma {:induction false} OneRunPerContentionGroup(s: Sched, registry: seq<Descriptor>, events: seq<Event>)
    requires Safe(s, registry) && DistinctIds(registry)
    requires forall e | e in events && e.Ticked? :: e.env.registry == registry
    ensures Safe(HappenAll(s, events), registry)
    decreases |events|
  {
    if events != [] {
      var e := events[0];
      if e.Ticked? {
        HealAllView(s, "");
        assert Tracked(HealAll(s));
        SweepKeepsSafe(HealAll(s), e.env, registry, {}, 0);
      }
      OneRunPerContentionGroup(Happen(s, e), registry, events[1..]);
    }
  }

  // ---- cadence over any sequence of ticks ----

  /** What a tick can do to a pipeline's recorded dispatch time. */
  ghost predicate Recorded(s: Sched, s': Sched, env: Env, p: string) {
    || Last(s', p) == Last(s, p)
    || (Due(s, env, p) && Last(s', p) == Some(env.now + env.delay(p)))
  }

  lemma DispatchRecords(s: Sched, env: Env, d: Descriptor, groups: set<string>, p: string)
    requires Wf(s)
    ensures Recorded(s, DispatchOne(s, env, d, groups).0, env, p)
    ensures p != d.id ==> Last(DispatchOne(s, env, d, groups).0, p) == Last(s, p)
  {
    DispatchView(s, env, d, groups, p);
    HealView(s, d.id, p);
    ContendView(Heal(s, d.id), d, env.registry, p);
  }

  /** The sweep writes a pipeline's time at most once: what it writes, it writes at its own turn. */
  lemma {:induction false} SweepRecords(s: Sched, env: Env, ds: seq<Descriptor>, groups: set<string>, count: nat,
      p: string)
    requires Wf(s) && DistinctIds(ds)
    ensures Wf(Sweep(s, env, ds, groups, count).0)
    ensures Recorded(s, Sweep(s, env, ds, groups, count).0, env, p)
    ensures (forall d | d in ds :: d.id != p) ==> Last(Sweep(s, env, ds, groups, count).0, p) == Last(s, p)
    decreases |ds|
  {
    if ds != [] && !(env.cap > 0 && count >= env.cap) {
      var d := ds[0];
      DispatchView(s, env, d, groups, p);
      DispatchRecords(s, env, d, groups, p);
      var (s1, started) := DispatchOne(s, env, d, groups);
      var groups' := if started then WithGroup(groups, d) else groups;
      SweepRecords(s1, env, ds[1..], groups', if started then count + 1 else count, p);
      if p == d.id {
        forall e | e in ds[1..] ensures e.id != p {}
      }
    }
  }

  /** One tick leaves a pipeline's recorded time, or replaces it while due by the time its launch was tried at. */
  lemma TickRecords(s: Sched, env: Env, p: string)
    requires Wf(s) && DistinctIds(env.registry)
    ensures Wf(Tick(s, env).0) && Recorded(s, Tick(s, env).0, env, p)
  {
    HealAllView(s, p);
    SweepRecords(HealAll(s), env, env.registry, {}, 0, p);
  }

  /** The times recorded for a pipeline, one by one. */
  ghost function Times(s: Sched, events: seq<Event>, p: string): seq<nat>
    decreases |events|
  {
    if events == [] then []
    else
      var s1 := Happen(s, events[0]);
      (if Last(s1, p) != Last(s, p) && Last(s1, p).Some? then [Last(s1, p).value] else []) + Times(s1, events[1..], p)
  }

  /** Every tick reads one registry and, for the pipeline in question, one configuration. */
  ghost predicate Configured(events: seq<Event>, registry: seq<Descriptor>, p: string, config: Config) {
    forall e | e in events && e.Ticked? :: e.env.registry == registry && e.env.config(p) == config
  }

  /** A time is recorded, in a later slot than the one before. */
  ghost predicate MovesOn(before: Option<nat>, after: Option<nat>, config: Config)
    requires config.frequency > 0
  {
    && after.Some?
    && (before.Some? ==>
        && before.value < after.value
        && Cadence.SlotStart(before.value, config.anchor, config.frequency)
           < Cadence.SlotStart(after.value, config.anchor, config.frequency))
  }

  lemma EventRecords(s: Sched, e: Event, registry: seq<Descriptor>, p: string, config: Config)
    requires Wf(s) && DistinctIds(registry) && config.frequency > 0
    requires e.Ticked? ==> e.env.registry == registry && e.env.config(p) == config
    ensures var s1 := Happen(s, e);
      && Wf(s1)
      && (Last(s1, p) == Last(s, p) || MovesOn(Last(s, p), Last(s1, p), config))
  {
    if e.Ticked? {
      TickRecords(s, e.env, p);
      if Due(s, e.env, p) && Last(s, p).Some? {
        Cadence.DueMeansALaterSlot(e.env.now, e.env.now + e.env.delay(p), Last(s, p).value, config.anchor,
            config.frequency);
      }
    }
  }

  /**
   * Over any sequence of ticks, completions and deaths, whatever is disabled, busy, blocked, capped or
   * failing: a pipeline's recorded dispatch times lie in strictly increasing slots of its grid.
   */
  lemma {:induction false} RecordedSlotsStrictlyIncrease(s: Sched, events: seq<Event>, registry: seq<Descriptor>,
      p: string, config: Config)
    requires Wf(s) && DistinctIds(registry) && config.frequency > 0 && Configured(events, registry, p, config)
    ensures Cadence.SlotsIncrease(Times(s, events, p), config.anchor, config.frequency)
    ensures Last(s, p).Some? ==>
              Cadence.LaterSlots(Cadence.SlotStart(Last(s, p).value, config.anchor, config.frequency),
                                 Times(s, events, p), config.anchor, config.frequency)
    decreases |events|
  {
    if events != [] {
      assert events[0] in events;
      EventRecords(s, events[0], registry, p, config);
      var s1 := Happen(s, events[0]);
      RecordedSlotsStrictlyIncrease(s1, events[1..], registry, p, config);
      if Last(s1, p) != Last(s, p) {
        Cadence.PrependSlot(Last(s1, p).value, Times(s1, events[1..], p), config.anchor, config.frequency);
      }
    }
  }

  lemma UnblockedDispatches(s: Sched, env: Env, d: Descriptor, groups: set<string>)
    requires Wf(s) && Unblocked(s, env, d) && Due(s, env, d.id) && Free(d, groups)
    ensures Last(DispatchOne(s, env, d, groups).0, d.id) == Some(env.now + env.delay(d.id))
  {
    HealView(s, d.id, d.id);
    forall o | o in env.registry ensures Busy(Heal(s, d.id), o.id) == Busy(s, o.id) { HealView(s, d.id, o.id); }
    ContendView(Heal(s, d.id), d, env.registry, d.id);
  }

  /** The same starts shadow blocking as shadow starting. */
  lemma ShadowUnblocked(s0: Sched, s: Sched, env: Env, ds: seq<Descriptor>, groups: set<string>, d: Descriptor)
    requires Shadows(s0, s, env, ds, groups) && d in ds && Free(d, groups)
    ensures Unblocked(s, env, d) <==> Unblocked(s0, env, d)
    ensures Due(s, env, d.id) <==> Due(s0, env, d.id)
  {
    assert SameView(s0, s, d.id);
    assert forall o | o in env.registry && Mates(o, d) :: Busy(s, o.id) == Busy(s0, o.id);
  }

  /** The tick stopped at its cap, or had already started a mate. */
  ghost predicate PassedOver(started: seq<Descriptor>, count: nat, env: Env, d: Descriptor) {
    || (env.cap > 0 && count + |started| >= env.cap)
    || (exists m :: m in started && m != d && d.group.Some? && m.group == d.group)
  }

  lemma {:induction false} SweepServes(s0: Sched, s: Sched, env: Env, ds: seq<Descriptor>, groups: set<string>,
      count: nat, d: Descriptor)
    requires Wf(s) && DistinctIds(ds) && DistinctIds(env.registry) && Shadows(s0, s, env, ds, groups)
    requires (forall e | e in ds :: e in env.registry) && d in ds
    requires Unblocked(s0, env, d) && Due(s0, env, d.id) && Free(d, groups)
    ensures var (s', started) := Sweep(s, env, ds, groups, count);
      PassedOver(started, count, env, d) || Last(s', d.id) == Some(env.now + env.delay(d.id))
    decreases |ds|
  {
    if !(env.cap > 0 && count >= env.cap) {
      var h := ds[0];
      var (s1, launched) := DispatchOne(s, env, h, groups);
      var groups' := if launched then WithGroup(groups, h) else groups;
      var count' := if launched then count + 1 else count;
      DispatchKeepsShadows(s0, s, env, ds, groups);
      var (s', more) := Sweep(s1, env, ds[1..], groups', count');
      if h == d {
        ShadowUnblocked(s0, s, env, ds, groups, d);
        UnblockedDispatches(s, env, d, groups);
        forall e | e in ds[1..] ensures e.id != d.id {}
        SweepRecords(s1, env, ds[1..], groups', count', d.id);
      } else {
        assert d in ds[1..];
        if Free(d, groups') {
          SweepServes(s0, s1, env, ds[1..], groups', count', d);
          if m :| m in more && m != d && d.group.Some? && m.group == d.group { assert m in [h] + more; }
        } else {
          assert h in [h] + more && h.group == d.group;
        }
      }
    }
  }

  /**
   * A tick that finds a pipeline enabled and idle with idle mates, and neither stops at its cap nor
   * starts a mate instead, leaves a dispatch recorded at or after the start of its slot: a new one if
   * it was due, launched or not, and an earlier one if not.
   */
  lemma TickServesTheUnblocked(s: Sched, env: Env, d: Descriptor)
    requires Wf(s) && DistinctIds(env.registry) && d in env.registry && env.config(d.id).frequency > 0
    requires Unblocked(s, env, d) && !PassedOver(Tick(s, env).1, 0, env, d)
    ensures var last := Last(Tick(s, env).0, d.id);
      && last.Some?
      && Cadence.SlotStart(env.now, env.config(d.id).anchor, env.config(d.id).frequency) * Cadence.MICROS <= last.value
      && (Due(s, env, d.id) ==> last == Some(env.now + env.delay(d.id)))
  {
    var h := HealAll(s);
    HealAllView(s, d.id);
    forall o | o in env.registry ensures Busy(s, o.id) == Busy(h, o.id) { HealAllView(s, o.id); }
    Cadence.SlotIsTheGridCell(env.now, env.config(d.id).anchor, env.config(d.id).frequency, 0);
    TickRecords(s, env, d.id);
    if Due(s, env, d.id) { SweepServes(h, h, env, env.registry, {}, 0, d); }
  }

  lemma {:induction false} RecordedTimesNeverMoveBack(s: Sched, events: seq<Event>, registry: seq<Descriptor>,
      p: string, config: Config)
    requires Wf(s) && DistinctIds(registry) && config.frequency > 0 && Configured(events, registry, p, config)
    ensures var last := Last(HappenAll(s, events), p);
      Wf(HappenAll(s, events)) && (Last(s, p).Some? ==> last.Some? && Last(s, p).value <= last.value)
    decreases |events|
  {
    if events != [] {
      assert events[0] in events;
      EventRecords(s, events[0], registry, p, config);
      RecordedTimesNeverMoveBack(Happen(s, events[0]), events[1..], registry, p, config);
    }
  }

  /** No unblocked slot is missed: whatever happens later, a dispatch at or after its start stays on record. */
  lemma EveryUnblockedSlotIsServed(s: Sched, before: seq<Event>, env: Env, later: seq<Event>,
      registry: seq<Descriptor>, d: Descriptor, config: Config)
    requires Wf(s) && DistinctIds(registry) && d in registry && config.frequency > 0
    requires Configured(before, registry, d.id, config) && Configured([Ticked(env)], registry, d.id, config)
    requires Configured(later, registry, d.id, config)
    requires var found := HappenAll(s, before);
      Unblocked(found, env, d) && !PassedOver(Tick(found, env).1, 0, env, d)
    ensures var last := Last(HappenAll(Tick(HappenAll(s, before), env).0, later), d.id);
      last.Some? && Cadence.SlotStart(env.now, config.anchor, config.frequency) * Cadence.MICROS <= last.value
  {
    assert Ticked(env) in [Ticked(env)];
    RecordedTimesNeverMoveBack(s, before, registry, d.id, config);
    var found := HappenAll(s, before);
    TickServesTheUnblocked(found, env, d);
    TickRecords(found, env, d.id);
    RecordedTimesNeverMoveBack(Tick(found, env).0, later, registry, d.id, config);
  }
}
