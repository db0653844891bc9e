/**
 * The claim protocol on one pipeline's run-state row.
 *
 * Every storage call and every Durable status call is one atomic action; any number of
 * coroutines interleave between them.  A coroutine's program counter says which call it
 * makes next and what it still remembers from the calls it has made.
 */
module ClaimProtocol {
  import opened Options

  /** What ActiveInstanceId holds: a claim's placeholder or a launched instance. */
  datatype Holder = Placeholder(token: nat) | Instance(id: nat)

  datatype Row = Row(active: Option<Holder>, etag: nat)

  /** Finished: the body is over and the completion activity is due; Terminal: Durable says so. */
  datatype Phase = Running | Finished | Terminal

  datatype Run = Run(phase: Phase, token: nat)

  datatype After = ThenClaim | ThenStop

  datatype Pc =
    | GateRead
    | HealStatus(id: nat, after: After)
    | ClearRead(target: Holder, after: After)
    | ClearWrite(target: Holder, after: After)
    | ClaimRead
    | ClaimCreate(token: nat)
    | ClaimUpdate(token: nat, etag: nat)
    | Launch(token: nat)
    | SetActive(token: nat, id: nat)
    | Done

  datatype Event = Claimed(token: nat) | Cleared(target: Holder)

  /** next is above every etag, token, instance and coroutine id in use: none is ever reused. */
  datatype World = World(row: Option<Row>, callers: map<nat, Pc>, runs: map<nat, Run>, next: nat, log: seq<Event>)

  datatype Action =
    | Arrive                 // a coroutine enters start()
    | Observe(id: nat)       // a reconciler, list, history or feed read looks at a launched instance
    | Step(caller: nat)      // a coroutine makes its next call
    | LaunchFails(caller: nat)
    | Crash(caller: nat)     // the worker of a coroutine dies
    | Finish(id: nat)        // a run's body ends and its completion activity starts
    | Die(id: nat)           // a run reaches a terminal Durable status

  const INIT := World(None, map[], map[], 0, [])

  function Active(w: World): Option<Holder> {
    if w.row.None? then None else w.row.value.active
  }

  predicate Enabled(w: World, a: Action) {
    match a
    case Arrive => true
    case Observe(id) => id in w.runs
    case Step(c) => c in w.callers && !w.callers[c].Done?
    case LaunchFails(c) => c in w.callers && w.callers[c].Launch?
    case Crash(c) => c in w.callers
    case Finish(id) => id in w.runs && w.runs[id].phase.Running?
    case Die(id) => id in w.runs
  }

  function Goto(w: World, c: nat, pc: Pc): World {
    w.(callers := w.callers[c := pc])
  }

  function Resume(after: After): Pc {
    if after.ThenClaim? then ClaimRead else Done
  }

  /** Every write gives the row an etag no row has had before. */
  function Write(w: World, active: Option<Holder>): World {
    w.(row := Some(Row(active, w.next)), next := w.next + 1)
  }

  function Apply(w: World, a: Action): World
    requires Enabled(w, a)
  {
    match a
    case Arrive => Goto(w, w.next, GateRead).(next := w.next + 1)
    case Observe(id) => Goto(w, w.next, HealStatus(id, ThenStop)).(next := w.next + 1)
    case Step(c) => StepCaller(w, c)
    case LaunchFails(c) => Goto(w, c, ClearRead(Placeholder(w.callers[c].token), ThenStop))
    case Crash(c) => Goto(w, c, Done)
    case Finish(id) =>
      Goto(w, w.next, ClearRead(Instance(id), ThenStop)).(
        runs := w.runs[id := w.runs[id].(phase := Finished)], next := w.next + 1)
    case Die(id) => w.(runs := w.runs[id := w.runs[id].(phase := Terminal)])
  }

  function StepCaller(w: World, c: nat): World
    requires c in w.callers && !w.callers[c].Done?
  {
    match w.callers[c]
    case GateRead =>
      (match Active(w)
       case None => Goto(w, c, ClaimRead)
       case Some(Placeholder(_)) => Goto(w, c, Done)
       case Some(Instance(id)) => Goto(w, c, HealStatus(id, ThenClaim)))
    case HealStatus(id, after) =>
      if id in w.runs && !w.runs[id].phase.Terminal? then Goto(w, c, Done)
      else Goto(w, c, ClearRead(Instance(id), after))
    case ClearRead(target, after) =>
      Goto(w, c, if w.row.None? then Resume(after) else ClearWrite(target, after))
    case ClearWrite(target, after) =>
      Goto(Write(w, None), c, Resume(after)).(log := w.log + [Cleared(target)])
    case ClaimRead =>
      if w.row.None? then Goto(w, c, ClaimCreate(w.next)).(next := w.next + 1)
      else if w.row.value.active.Some? then Goto(w, c, Done)
      else Goto(w, c, ClaimUpdate(w.next, w.row.value.etag)).(next := w.next + 1)
    case ClaimCreate(token) =>
      if w.row.None? then Win(w, c, token) else Goto(w, c, Done)
    case ClaimUpdate(token, etag) =>
      if w.row.Some? && w.row.value.etag == etag then Win(w, c, token) else Goto(w, c, Done)
    case Launch(token) =>
      Goto(w, c, SetActive(token, w.next)).(
        runs := w.runs[w.next := Run(Running, token)], next := w.next + 1)
    case SetActive(token, id) =>
      Goto(Write(w, Some(Instance(id))), c, Done)
  }

  /** A successful try_claim: the placeholder is in the row. */
  function Win(w: World, c: nat, token: nat): World {
    Goto(Write(w, Some(Placeholder(token))), c, Launch(token)).(log := w.log + [Claimed(token)])
  }

  // ---- runs of the protocol ----

  ghost predicate IsTrace(w: World, actions: seq<Action>)
    decreases |actions|
  {
    actions == [] || (Enabled(w, actions[0]) && IsTrace(Apply(w, actions[0]), actions[1..]))
  }

  ghost function Final(w: World, actions: seq<Action>): World
    requires IsTrace(w, actions)
    decreases |actions|
  {
    if actions == [] then w else Final(Apply(w, actions[0]), actions[1..])
  }

  // ---- what every action keeps ----

  /** Two claims always have a clear between them. */
  ghost predicate Alternates(log: seq<Event>) {
    forall i, j | 0 <= i < j < |log| && log[i].Claimed? && log[j].Claimed? ::
      exists k :: i < k < j && log[k].Cleared?
  }

  ghost predicate OpenClaim(log: seq<Event>) {
    log != [] && log[|log| - 1].Claimed?
  }

  function TokenOf(pc: Pc): Option<nat> {
    match pc
    case ClaimCreate(t) => Some(t)
    case ClaimUpdate(t, _) => Some(t)
    case Launch(t) => Some(t)
    case SetActive(t, _) => Some(t)
    case ClearRead(Placeholder(t), _) => Some(t)
    case ClearWrite(Placeholder(t), _) => Some(t)
    case _ => None
  }

  /** A token some coroutine drew and no run was launched under. */
  ghost predicate Unlaunched(w: World, token: nat) {
    token < w.next && forall i | i in w.runs :: w.runs[i].token != token
  }

  ghost predicate PcOk(w: World, pc: Pc) {
    match pc
    case HealStatus(id, _) => id in w.runs
    case ClearRead(Instance(id), _) => id in w.runs && !w.runs[id].phase.Running?
    case ClearWrite(Instance(id), _) => id in w.runs && !w.runs[id].phase.Running?
    case ClearRead(Placeholder(t), _) => Unlaunched(w, t)
    case ClearWrite(Placeholder(t), _) => Unlaunched(w, t)
    case ClaimCreate(t) => Unlaunched(w, t)
    case ClaimUpdate(t, e) =>
      Unlaunched(w, t) && e < w.next &&
      (w.row.Some? && w.row.value.etag == e ==> w.row.value.active.None?)
    case Launch(t) => Unlaunched(w, t)
    case SetActive(t, id) => id in w.runs && w.runs[id].token == t
    case _ => true
  }

  ghost predicate CallersOk(w: World) {
    && (forall c | c in w.callers :: c < w.next && PcOk(w, w.callers[c]))
    && (forall c, d | c in w.callers && d in w.callers && c != d && TokenOf(w.callers[c]).Some? ::
          TokenOf(w.callers[c]) != TokenOf(w.callers[d]))
  }

  ghost predicate RunsOk(w: World) {
    && (forall i | i in w.runs :: i < w.next && w.runs[i].token < w.next)
    && (forall i, j | i in w.runs && j in w.runs && i != j :: w.runs[i].token != w.runs[j].token)
  }

  ghost predicate RowOk(w: World) {
    && (w.row.Some? ==> w.row.value.etag < w.next)
    && (Active(w).Some? && Active(w).value.Instance? ==> Active(w).value.id in w.runs)
  }

  ghost predicate Inv(w: World) {
    && RowOk(w) && RunsOk(w) && CallersOk(w)
    && Alternates(w.log)
    && (OpenClaim(w.log) ==> Active(w).Some?)
  }

  /** A bystander's memory stays true: tokens and etags are never reused, runs never restart. */
  lemma BystanderStays(w: World, w': World, pc: Pc)
    requires PcOk(w, pc) && w.next <= w'.next
    requires forall i | i in w.runs :: i in w'.runs && w'.runs[i].token == w.runs[i].token
    requires forall i | i in w.runs && w'.runs[i].phase.Running? :: w.runs[i].phase.Running?
    requires forall i | i in w'.runs && i !in w.runs :: TokenOf(pc) != Some(w'.runs[i].token)
    requires w'.row == w.row || (w'.row.Some? && w'.row.value.etag == w.next)
    ensures PcOk(w', pc)
  {
    if TokenOf(pc).Some? && !pc.SetActive? {
      assert Unlaunched(w', TokenOf(pc).value);
    }
  }

  /** The moving coroutine's own memory is true after its step. */
  lemma MoverStays(w: World, c: nat)
    requires Inv(w) && Enabled(w, Step(c))
    ensures var w' := StepCaller(w, c); c in w'.callers && PcOk(w', w'.callers[c])
    ensures var w' := StepCaller(w, c); TokenOf(w'.callers[c]) in {None, TokenOf(w.callers[c]), Some(w.next)}
  {
    assert PcOk(w, w.callers[c]);
  }

  /** What one step can change around the others. */
  lemma StepFrame(w: World, c: nat)
    requires Inv(w) && Enabled(w, Step(c))
    ensures var w' := StepCaller(w, c);
      && w'.callers == w.callers[c := w'.callers[c]] && w.next <= w'.next
      && (TokenOf(w'.callers[c]) == Some(w.next) ==> w.next < w'.next)
      && (forall i | i in w.runs :: i in w'.runs && w'.runs[i] == w.runs[i])
      && (forall i | i in w'.runs && i !in w.runs :: TokenOf(w.callers[c]) == Some(w'.runs[i].token))
      && (w'.row == w.row || (w'.row.Some? && w'.row.value.etag == w.next))
  {
    assert PcOk(w, w.callers[c]);
  }

  lemma StepKeepsCallers(w: World, c: nat)
    requires Inv(w) && Enabled(w, Step(c))
    ensures CallersOk(StepCaller(w, c))
  {
    StepFrame(w, c);
    MoverStays(w, c);
    var w' := StepCaller(w, c);
    CallersStay(w, w', c);
  }

  lemma CallersStay(w: World, w': World, c: nat)
    requires CallersOk(w) && c in w.callers && c in w'.callers && PcOk(w', w'.callers[c])
    requires TokenOf(w'.callers[c]) in {None, TokenOf(w.callers[c]), Some(w.next)}
    requires w'.callers == w.callers[c := w'.callers[c]] && w.next <= w'.next
    requires TokenOf(w'.callers[c]) == Some(w.next) ==> w.next < w'.next
    requires forall i | i in w.runs :: i in w'.runs && w'.runs[i] == w.runs[i]
    requires forall i | i in w'.runs && i !in w.runs :: TokenOf(w.callers[c]) == Some(w'.runs[i].token)
    requires w'.row == w.row || (w'.row.Some? && w'.row.value.etag == w.next)
    requires RunsOk(w)
    ensures CallersOk(w')
  {
    forall d | d in w'.callers && d != c ensures d < w'.next && PcOk(w', w'.callers[d]) {
      BystanderStays(w, w', w.callers[d]);
    }
    forall d | d in w.callers && TokenOf(w.callers[d]).Some? ensures TokenOf(w.callers[d]).value < w.next {
      assert PcOk(w, w.callers[d]);
    }
  }

  lemma OtherActionKeepsMemories(w: World, a: Action)
    requires Inv(w) && Enabled(w, a) && !a.Step?
    ensures var w' := Apply(w, a);
      forall d | d in w'.callers :: d < w'.next && PcOk(w', w'.callers[d])
  {
    var w' := Apply(w, a);
    forall d | d in w'.callers ensures d < w'.next && PcOk(w', w'.callers[d]) {
      if d in w.callers { BystanderStays(w, w', w.callers[d]); }
    }
  }

  lemma OtherActionKeepsTokens(w: World, a: Action)
    requires Inv(w) && Enabled(w, a) && !a.Step?
    ensures var w' := Apply(w, a);
      forall d | d in w'.callers ::
        TokenOf(w'.callers[d]) == if d in w.callers && a != Crash(d) then TokenOf(w.callers[d]) else None
  {
  }

  lemma OtherActionKeepsCallers(w: World, a: Action)
    requires Inv(w) && Enabled(w, a) && !a.Step?
    ensures CallersOk(Apply(w, a))
  {
    OtherActionKeepsMemories(w, a);
    OtherActionKeepsTokens(w, a);
  }

  lemma AppendKeepsAlternates(log: seq<Event>, log': seq<Event>)
    requires Alternates(log)
    requires log' == log || (|log'| == |log| + 1 && log'[..|log|] == log && (OpenClaim(log) ==> log'[|log|].Cleared?))
    ensures Alternates(log')
  {
    forall i, j | 0 <= i < j < |log'| && log'[i].Claimed? && log'[j].Claimed?
      ensures exists k :: i < k < j && log'[k].Cleared?
    {
      if j < |log| {
        assert log[i] == log'[i] && log[j] == log'[j];
        var k :| i < k < j && log[k].Cleared?;
        assert log'[k] == log[k];
      } else {
        assert log'[|log| - 1] == log[|log| - 1];
      }
    }
  }

  lemma StepKeepsRow(w: World, c: nat)
    requires Inv(w) && Enabled(w, Step(c))
    ensures RowOk(StepCaller(w, c)) && RunsOk(StepCaller(w, c))
  {
    assert PcOk(w, w.callers[c]);
  }

  lemma StepKeepsLog(w: World, c: nat)
    requires Inv(w) && Enabled(w, Step(c))
    ensures var w' := StepCaller(w, c);
      Alternates(w'.log) && (OpenClaim(w'.log) ==> Active(w').Some?)
  {
    assert PcOk(w, w.callers[c]);
    AppendKeepsAlternates(w.log, StepCaller(w, c).log);
  }

  lemma OtherActionKeepsTheRest(w: World, a: Action)
    requires Inv(w) && Enabled(w, a) && !a.Step?
    ensures var w' := Apply(w, a);
      w'.log == w.log && w'.row == w.row && RowOk(w') && RunsOk(w')
  {
  }

  lemma ActionKeepsInv(w: World, a: Action)
    requires Inv(w) && Enabled(w, a)
    ensures Inv(Apply(w, a))
  {
    if a.Step? {
      StepKeepsCallers(w, a.caller);
      StepKeepsRow(w, a.caller);
      StepKeepsLog(w, a.caller);
    } else {
      OtherActionKeepsCallers(w, a);
      OtherActionKeepsTheRest(w, a);
    }
  }

  /** Over every interleaving of any number of callers, two successful claims have a clear between them. */
  lemma {:induction false} ClaimsAlternate(w: World, actions: seq<Action>)
    requires Inv(w) && IsTrace(w, actions)
    ensures Inv(Final(w, actions)) && Alternates(Final(w, actions).log)
    decreases |actions|
  {
    if actions != [] {
      ActionKeepsInv(w, actions[0]);
      ClaimsAlternate(Apply(w, actions[0]), actions[1..]);
    }
  }

  // ---- mutual exclusion and its exact condition ----

  ghost predicate AtMostOneRunning(w: World) {
    forall i, j | i in w.runs && j in w.runs && w.runs[i].phase.Running? && w.runs[j].phase.Running? :: i == j
  }

  /** Someone still relies on the row holding h. */
  ghost predicate Live(w: World, h: Holder) {
    match h
    case Placeholder(t) =>
      || (exists c :: c in w.callers && InFlight(w.callers[c], t))
      || (exists i :: i in w.runs && w.runs[i] == Run(Running, t))
    case Instance(id) => id in w.runs && w.runs[id].phase.Running?
  }

  predicate InFlight(pc: Pc, token: nat) {
    (pc.Launch? || pc.SetActive?) && pc.token == token
  }

  /** The action is not a clear that wipes a live claim. */
  ghost predicate Spares(w: World, a: Action) {
    a.Step? && a.caller in w.callers && w.callers[a.caller].ClearWrite? && Active(w).Some? ==>
      !Live(w, Active(w).value)
  }

  ghost predicate SparingTrace(w: World, actions: seq<Action>)
    decreases |actions|
  {
    actions == [] ||
    (Enabled(w, actions[0]) && Spares(w, actions[0]) && SparingTrace(Apply(w, actions[0]), actions[1..]))
  }

  /** The row names whoever is launching or running. */
  ghost predicate Tracked(w: World) {
    && (forall c | c in w.callers && (w.callers[c].Launch? || w.callers[c].SetActive?) ::
          Active(w) == Some(Placeholder(w.callers[c].token)))
    && (forall i | i in w.runs && w.runs[i].phase.Running? ::
          Active(w) == Some(Instance(i)) || Active(w) == Some(Placeholder(w.runs[i].token)))
  }

  /** The launching and recording coroutines after a step. */
  lemma StepTracksCallers(w: World, c: nat)
    requires Inv(w) && Tracked(w) && Enabled(w, Step(c)) && Spares(w, Step(c))
    ensures var w' := StepCaller(w, c);
      forall d | d in w'.callers && (w'.callers[d].Launch? || w'.callers[d].SetActive?) ::
          Active(w') == Some(Placeholder(w'.callers[d].token))
  {
    var w' := StepCaller(w, c);
    assert PcOk(w, w.callers[c]);
    forall d | d in w'.callers && (w'.callers[d].Launch? || w'.callers[d].SetActive?)
      ensures Active(w') == Some(Placeholder(w'.callers[d].token))
    {
      assert d in w.callers;
      assert InFlight(w'.callers[d], w'.callers[d].token);
    }
  }

  /** The running instances after a step. */
  lemma StepTracksRuns(w: World, c: nat)
    requires Inv(w) && Tracked(w) && Enabled(w, Step(c)) && Spares(w, Step(c))
    ensures var w' := StepCaller(w, c);
      forall i | i in w'.runs && w'.runs[i].phase.Running? ::
        Active(w') == Some(Instance(i)) || Active(w') == Some(Placeholder(w'.runs[i].token))
  {
    var pc := w.callers[c];
    assert PcOk(w, pc);
    if pc.ClearWrite? && Active(w).Some? {
      assert !Live(w, Active(w).value);
    }
  }

  lemma OtherActionTracks(w: World, a: Action)
    requires Inv(w) && Tracked(w) && Enabled(w, a) && !a.Step?
    ensures Tracked(Apply(w, a))
  {
    var w' := Apply(w, a);
    forall d | d in w'.callers && (w'.callers[d].Launch? || w'.callers[d].SetActive?)
      ensures d in w.callers && w.callers[d] == w'.callers[d]
    {
    }
  }

  lemma ActionKeepsTracked(w: World, a: Action)
    requires Inv(w) && Tracked(w) && Enabled(w, a) && Spares(w, a)
    ensures Tracked(Apply(w, a))
  {
    if a.Step? {
      StepTracksCallers(w, a.caller);
      StepTracksRuns(w, a.caller);
    } else {
      OtherActionTracks(w, a);
    }
  }

  lemma SparingIsTrace(w: World, actions: seq<Action>)
    requires SparingTrace(w, actions)
    ensures IsTrace(w, actions)
    decreases |actions|
  {
    if actions != [] { SparingIsTrace(Apply(w, actions[0]), actions[1..]); }
  }

  /** If no clear wipes a live claim, at most one launched run of the pipeline is unfinished. */
  lemma {:induction false} SparingClearsExclude(w: World, actions: seq<Action>)
    requires Inv(w) && Tracked(w) && SparingTrace(w, actions)
    ensures IsTrace(w, actions) && Tracked(Final(w, actions)) && AtMostOneRunning(Final(w, actions))
    decreases |actions|
  {
    SparingIsTrace(w, actions);
    if actions != [] {
      ActionKeepsInv(w, actions[0]);
      ActionKeepsTracked(w, actions[0]);
      SparingClearsExclude(Apply(w, actions[0]), actions[1..]);
    }
  }

  /** A clear that finds the row idle or still holding what its caller read wipes no live claim. */
  lemma MatchingClearSpares(w: World, c: nat)
    requires Inv(w) && c in w.callers && w.callers[c].ClearWrite?
    requires Active(w) in {None, Some(w.callers[c].target)}
    ensures Spares(w, Step(c))
  {
    assert PcOk(w, w.callers[c]);
    if Active(w).Some? && Active(w).value.Placeholder? {
      var t := Active(w).value.token;
      forall d | d in w.callers ensures !InFlight(w.callers[d], t) {
        assert TokenOf(w.callers[c]) == Some(t);
      }
    }
  }

  ghost predicate Reaches(w: World, w': World) {
    exists actions :: SparingTrace(w, actions) && IsTrace(w, actions) && Final(w, actions) == w'
  }

  lemma ReachesSelf(w: World)
    ensures Reaches(w, w)
  {
    assert SparingTrace(w, []) && IsTrace(w, []) && Final(w, []) == w;
  }

  lemma ReachesFirst(w: World, a: Action, w': World)
    requires Enabled(w, a) && Spares(w, a) && Reaches(Apply(w, a), w')
    ensures Reaches(w, w')
  {
    var rest :| SparingTrace(Apply(w, a), rest) && IsTrace(Apply(w, a), rest) && Final(Apply(w, a), rest) == w';
    var all := [a] + rest;
    assert all[0] == a && all[1..] == rest;
    assert SparingTrace(w, all) && IsTrace(w, all) && Final(w, all) == w';
  }

  lemma {:induction false} ReachesThen(w: World, actions: seq<Action>, w'': World)
    requires SparingTrace(w, actions) && IsTrace(w, actions) && Reaches(Final(w, actions), w'')
    ensures Reaches(w, w'')
    decreases |actions|
  {
    if actions != [] {
      ReachesThen(Apply(w, actions[0]), actions[1..], w'');
      ReachesFirst(w, actions[0], w'');
    }
  }

  lemma ReachesTrans(w: World, w': World, w'': World)
    requires Reaches(w, w') && Reaches(w', w'')
    ensures Reaches(w, w'')
  {
    var actions :| SparingTrace(w, actions) && IsTrace(w, actions) && Final(w, actions) == w';
    ReachesThen(w, actions, w'');
  }

  lemma ReachesKeepsInv(w: World, w': World)
    requires Inv(w) && Reaches(w, w')
    ensures Inv(w')
  {
    var actions :| SparingTrace(w, actions) && IsTrace(w, actions) && Final(w, actions) == w';
    ClaimsAlternate(w, actions);
  }

  lemma ReachesNext(start: World, w: World, a: Action) returns (w': World)
    requires Reaches(start, w) && Enabled(w, a) && Spares(w, a)
    ensures w' == Apply(w, a) && Reaches(start, w')
  {
    w' := Apply(w, a);
    ReachesSelf(w');
    ReachesFirst(w, a, w');
    ReachesTrans(start, w, w');
  }

  /** w' is w with one more running run; what the others remember is as before. */
  ghost predicate OneMore(w: World, w': World, id: nat) {
    && id !in w.runs && id in w'.runs && w'.runs[id].phase.Running?
    && (forall i | i in w.runs :: i in w'.runs && w'.runs[i] == w.runs[i])
    && (forall c | c in w.callers :: c in w'.callers && (w'.callers[c] == w.callers[c]))
  }

  /** A coroutine that reads the row idle claims it and launches. */
  lemma ClaimAndLaunch(w: World, c: nat) returns (w': World, id: nat)
    requires Inv(w) && c in w.callers && w.callers[c].ClaimRead? && w.row.Some? && Active(w).None?
    ensures Reaches(w, w') && Inv(w')
    ensures id !in w.runs && w'.runs.Keys == w.runs.Keys + {id} && w'.runs[id].phase.Running?
    ensures forall i | i in w.runs :: w'.runs[i] == w.runs[i]
    ensures w'.callers.Keys == w.callers.Keys && forall d | d in w.callers && d != c :: w'.callers[d] == w.callers[d]
  {
    var w1 := ClaimWins(w, c);
    w' := Apply(w1, Step(c));
    ActionKeepsInv(w1, Step(c));
    id := w1.next;
    ReachesSelf(w');
    ReachesFirst(w1, Step(c), w');
    ReachesTrans(w, w1, w');
  }

  /** A caller that reads the idle row and writes before anyone else does holds the claim. */
  lemma ClaimWins(w: World, c: nat) returns (w': World)
    requires Inv(w) && c in w.callers && w.callers[c].ClaimRead? && w.row.Some? && Active(w).None?
    ensures Reaches(w, w') && Inv(w')
    ensures w'.runs == w.runs && w'.next !in w.runs && c in w'.callers && w'.callers == w.callers[c := w'.callers[c]]
    ensures w'.callers[c].Launch?
  {
    var w1 := Apply(w, Step(c));
    ActionKeepsInv(w, Step(c));
    w' := Apply(w1, Step(c));
    ActionKeepsInv(w1, Step(c));
    ReachesSelf(w');
    ReachesFirst(w1, Step(c), w');
    ReachesFirst(w, Step(c), w');
  }

  /** A newcomer to an idle row launches a run, whatever else is running. */
  lemma NewcomerLaunches(w: World) returns (w': World, id: nat)
    requires Inv(w) && w.row.Some? && Active(w).None?
    ensures Reaches(w, w') && Inv(w') && OneMore(w, w', id)
  {
    var c, w1 := w.next, Apply(w, Arrive);
    ActionKeepsInv(w, Arrive);
    var w2 := Apply(w1, Step(c));
    ActionKeepsInv(w1, Step(c));
    w', id := ClaimAndLaunch(w2, c);
    ReachesFirst(w1, Step(c), w');
    ReachesFirst(w, Arrive, w');
  }

  /** A coroutine that read a terminal instance, up to its clear. */
  lemma HealerReads(w: World, dead: nat) returns (w': World)
    requires Inv(w) && Active(w) == Some(Instance(dead)) && dead in w.runs && w.runs[dead].phase.Terminal?
    ensures Reaches(w, w') && w' == w.(callers := w.callers[w.next := ClearWrite(Instance(dead), ThenClaim)],
        next := w.next + 1)
  {
    var c := w.next;
    ReachesSelf(w);
    w' := ReachesNext(w, w, Arrive);
    assert w' == w.(callers := w.callers[c := GateRead], next := w.next + 1);
    w' := ReachesNext(w, w', Step(c));
    assert w' == w.(callers := w.callers[c := HealStatus(dead, ThenClaim)], next := w.next + 1);
    w' := ReachesNext(w, w', Step(c));
    assert w' == w.(callers := w.callers[c := ClearRead(Instance(dead), ThenClaim)], next := w.next + 1);
    w' := ReachesNext(w, w', Step(c));
  }

  /** A newcomer to a row holding a terminal instance clears it. */
  lemma HealerClears(w: World, dead: nat) returns (w': World)
    requires Inv(w) && Active(w) == Some(Instance(dead)) && dead in w.runs && w.runs[dead].phase.Terminal?
    ensures Reaches(w, w') && w'.row.Some? && Active(w').None? && w'.runs == w.runs
    ensures w.next !in w.callers && w'.callers == w.callers[w.next := ClaimRead]
    ensures Inv(w')
  {
    var w1 := HealerReads(w, dead);
    w' := ReachesNext(w, w1, Step(w.next));
    ReachesKeepsInv(w, w');
  }

  /** A newcomer to a row holding a terminal instance heals the row, then launches a run. */
  lemma HealerLaunches(w: World, dead: nat) returns (w': World, id: nat)
    requires Inv(w) && Active(w) == Some(Instance(dead)) && dead in w.runs && w.runs[dead].phase.Terminal?
    ensures Reaches(w, w') && Inv(w') && OneMore(w, w', id)
  {
    var w1 := HealerClears(w, dead);
    w', id := ClaimAndLaunch(w1, w.next);
    ReachesTrans(w, w1, w');
  }

  /** After a run that is still running is wiped from the row, a second one can start. */
  lemma RunningThenTwo(w: World, i: nat) returns (w': World)
    requires Inv(w) && w.row.Some? && Active(w).None? && i in w.runs && w.runs[i].phase.Running?
    ensures Reaches(w, w') && !AtMostOneRunning(w')
  {
    var id;
    w', id := NewcomerLaunches(w);
  }

  /**
   * A setter that was wiped while it had yet to record a run that is already over will put that
   * run back over the next claim; healing it then lets a third caller launch beside the second.
   */
  lemma LateSetterThenTwo(w: World, d: nat) returns (w': World)
    requires Inv(w) && w.row.Some? && Active(w).None?
    requires d in w.callers && w.callers[d].SetActive? && !w.runs[w.callers[d].id].phase.Running?
    ensures Reaches(w, w') && !AtMostOneRunning(w')
  {
    assert PcOk(w, w.callers[d]);
    var dead := w.callers[d].id;
    var w1, second := NewcomerLaunches(w);
    var w2 := Apply(w1, Step(d));
    ActionKeepsInv(w1, Step(d));
    var w3 := Apply(w2, Die(dead));
    ActionKeepsInv(w2, Die(dead));
    var third;
    w', third := HealerLaunches(w3, dead);
    assert w'.runs[second].phase.Running? && w'.runs[third].phase.Running? && second != third;
    ReachesFirst(w2, Die(dead), w');
    ReachesFirst(w1, Step(d), w');
    ReachesTrans(w, w1, w');
  }

  /** A clear that wipes a live claim opens the way to two unfinished runs, all later clears being harmless. */
  lemma StrikeLeadsToTwo(w: World, c: nat) returns (w': World)
    requires Inv(w) && c in w.callers && w.callers[c].ClearWrite? && !Spares(w, Step(c))
    ensures Reaches(Apply(w, Step(c)), w') && !AtMostOneRunning(w')
  {
    var w1 := Apply(w, Step(c));
    ActionKeepsInv(w, Step(c));
    match Active(w).value
    case Instance(i) =>
      w' := RunningThenTwo(w1, i);
    case Placeholder(t) =>
      if i :| i in w.runs && w.runs[i] == Run(Running, t) {
        w' := RunningThenTwo(w1, i);
      } else {
        var d :| d in w.callers && InFlight(w.callers[d], t);
        assert PcOk(w, w.callers[d]);
        if w.callers[d].Launch? {
          var w2 := Apply(w1, Step(d));
          ActionKeepsInv(w1, Step(d));
          w' := RunningThenTwo(w2, w1.next);
          ReachesFirst(w1, Step(d), w');
        } else {
          w' := LateSetterThenTwo(w1, d);
        }
      }
  }

  /**
   * The exact condition on a clear: every continuation (whose own clears wipe nothing live) keeps at
   * most one unfinished run if and only if the clear's write did not wipe a live claim.
   */
  lemma ClearIsSafeExactlyWhenItSpares(w: World, c: nat)
    requires Inv(w) && Tracked(w) && c in w.callers && w.callers[c].ClearWrite?
    ensures Spares(w, Step(c)) <==>
            forall w' | Reaches(Apply(w, Step(c)), w') :: AtMostOneRunning(w')
  {
    var w1 := Apply(w, Step(c));
    ActionKeepsInv(w, Step(c));
    if Spares(w, Step(c)) {
      ActionKeepsTracked(w, Step(c));
      forall w' | Reaches(w1, w') ensures AtMostOneRunning(w') {
        var actions :| SparingTrace(w1, actions) && IsTrace(w1, actions) && Final(w1, actions) == w';
        SparingClearsExclude(w1, actions);
      }
    } else {
      var w' := StrikeLeadsToTwo(w, c);
    }
  }

  // ---- a coroutine nobody interleaves with ----

  /** Up to n further calls of one coroutine, with no other action in between. */
  ghost function Alone(w: World, c: nat, n: nat): World
    decreases n
  {
    if n == 0 || c !in w.callers || w.callers[c].Done? then w else Alone(StepCaller(w, c), c, n - 1)
  }

  /** One more run than before, running, and named by the row. */
  ghost predicate Launched(w: World, r: World, id: nat) {
    && id !in w.runs && id in r.runs && r.runs[id].phase == Running
    && r.runs == w.runs[id := r.runs[id]] && r.row.Some? && r.row.value.active == Some(Instance(id))
  }

  ghost predicate Stopped(r: World, c: nat) {
    c in r.callers && r.callers[c] == Done
  }

  /** Left alone, a claim of an idle or absent row succeeds and its run is launched and recorded. */
  lemma ClaimAlone(w: World, c: nat) returns (id: nat)
    requires Inv(w) && c in w.callers && w.callers[c] == ClaimRead && Active(w) == None
    ensures var r := Alone(w, c, 4); Stopped(r, c) && Launched(w, r, id)
  {
    var w1 := StepCaller(w, c);
    var w2 := StepCaller(w1, c);
    assert w2.callers[c] == Launch(w.next) && w2.runs == w.runs;
    var w3 := StepCaller(w2, c);
    id := w2.next;
    assert id !in w.runs;
    var w4 := StepCaller(w3, c);
    assert Alone(w4, c, 0) == w4 && Alone(w3, c, 1) == w4 && Alone(w2, c, 2) == w4 && Alone(w1, c, 3) == w4;
  }

  /** Left alone, a clear empties the row, if there is one, and goes on. */
  lemma ClearAlone(w: World, c: nat, target: Holder, after: After)
    requires Inv(w) && c in w.callers && w.callers[c] == ClearRead(target, after)
    ensures var r := if w.row.None? then StepCaller(w, c) else StepCaller(StepCaller(w, c), c);
      && c in r.callers && r.callers[c] == (if after == ThenClaim then ClaimRead else Done)
      && r.runs == w.runs && (r.row.None? <==> w.row.None?) && Active(r) == None
      && Alone(w, c, 2) == (if w.row.None? && after == ThenClaim then StepCaller(r, c) else r)
  {
    var w1 := StepCaller(w, c);
    if w.row.Some? {
      var w2 := StepCaller(w1, c);
      assert Alone(w2, c, 0) == w2 && Alone(w1, c, 1) == w2;
    } else if after == ThenClaim {
      var w2 := StepCaller(w1, c);
      assert Alone(w2, c, 0) == w2 && Alone(w1, c, 1) == w2;
    } else {
      assert Alone(w1, c, 1) == w1;
    }
  }

  /**
   * Left alone, a start of a pipeline whose row is idle or absent, or holds a run that is over, launches one run and
   * records it; if the row holds a claim's placeholder or a run that is not over, it changes nothing.
   */
  lemma StartAlone(w: World, c: nat)
    requires Inv(w) && c in w.callers && w.callers[c] == GateRead
    ensures var r := Alone(w, c, 8);
      && Stopped(r, c)
      && match Active(w)
         case None => exists id :: Launched(w, r, id)
         case Some(Placeholder(_)) => r.row == w.row && r.runs == w.runs
         case Some(Instance(i)) =>
           if i in w.runs && w.runs[i].phase == Terminal then exists id :: Launched(w, r, id)
           else r.row == w.row && r.runs == w.runs
  {
    var w1 := StepCaller(w, c);
    ActionKeepsInv(w, Step(c));
    match Active(w)
    case None =>
      var id := ClaimAlone(w1, c);
      LongerAlone(w1, c, 4, 7);
      assert Launched(w, Alone(w1, c, 7), id);
    case Some(Placeholder(_)) => assert Alone(w1, c, 7) == w1;
    case Some(Instance(i)) => HealThenClaimAlone(w, w1, c, i);
  }

  lemma HealThenClaimAlone(w: World, w1: World, c: nat, i: nat)
    requires Inv(w) && Inv(w1) && c in w1.callers && w1.callers[c] == HealStatus(i, ThenClaim)
    requires w1.row == w.row && w1.runs == w.runs && w.row.Some? && Active(w) == Some(Instance(i))
    ensures var r := Alone(w1, c, 7);
      && Stopped(r, c)
      && (if i in w.runs && w.runs[i].phase == Terminal then exists id :: Launched(w, r, id)
          else r.row == w.row && r.runs == w.runs)
  {
    var w2 := StepCaller(w1, c);
    ActionKeepsInv(w1, Step(c));
    if i in w.runs && w.runs[i].phase == Terminal {
      var w3 := StepCaller(w2, c);
      ClearAlone(w2, c, Instance(i), ThenClaim);
      ActionKeepsInv(w2, Step(c));
      var w4 := StepCaller(w3, c);
      ActionKeepsInv(w3, Step(c));
      var id := ClaimAlone(w4, c);
      assert Alone(w3, c, 5) == Alone(w4, c, 4) && Alone(w2, c, 6) == Alone(w3, c, 5);
      assert Alone(w1, c, 7) == Alone(w2, c, 6);
      assert Launched(w, Alone(w1, c, 7), id);
    } else {
      assert Alone(w2, c, 6) == w2;
    }
  }

  /** A coroutine that has stopped stays so. */
  lemma {:induction false} LongerAlone(w: World, c: nat, n: nat, m: nat)
    requires n <= m && Stopped(Alone(w, c, n), c)
    ensures Alone(w, c, m) == Alone(w, c, n)
    decreases n
  {
    if n > 0 && c in w.callers && !w.callers[c].Done? { LongerAlone(StepCaller(w, c), c, n - 1, m - 1); }
  }

  /** Left alone after a launch that raised, a start gives the claim back: no run, and an idle row. */
  lemma FailedLaunchGivesTheClaimBack(w: World, c: nat)
    requires Inv(w) && c in w.callers && w.callers[c].Launch?
    ensures var r := Alone(Apply(w, LaunchFails(c)), c, 2);
      Stopped(r, c) && r.runs == w.runs && (r.row.None? <==> w.row.None?) && Active(r) == None
  {
    ActionKeepsInv(w, LaunchFails(c));
    ClearAlone(Apply(w, LaunchFails(c)), c, Placeholder(w.callers[c].token), ThenStop);
  }

  /** Left alone, the completion of a run empties the row. */
  lemma CompletionEmptiesTheRow(w: World, i: nat)
    requires Inv(w) && Enabled(w, Finish(i))
    ensures var r := Alone(Apply(w, Finish(i)), w.next, 2);
      && Stopped(r, w.next) && r.runs == w.runs[i := w.runs[i].(phase := Finished)]
      && (r.row.None? <==> w.row.None?) && Active(r) == None
  {
    ActionKeepsInv(w, Finish(i));
    ClearAlone(Apply(w, Finish(i)), w.next, Instance(i), ThenStop);
  }

  /** Left alone, a look at a run empties the row if the run is over, and otherwise changes nothing. */
  lemma LookHealsTheDead(w: World, i: nat)
    requires Inv(w) && Enabled(w, Observe(i))
    ensures var r := Alone(Apply(w, Observe(i)), w.next, 3);
      && Stopped(r, w.next) && r.runs == w.runs
      && (if w.runs[i].phase == Terminal then (r.row.None? <==> w.row.None?) && Active(r) == None else r.row == w.row)
  {
    var c, w1 := w.next, Apply(w, Observe(i));
    ActionKeepsInv(w, Observe(i));
    var w2 := StepCaller(w1, c);
    ActionKeepsInv(w1, Step(c));
    if w.runs[i].phase == Terminal {
      ClearAlone(w2, c, Instance(i), ThenStop);
    } else {
      assert Alone(w2, c, 2) == w2;
    }
  }

  lemma {:induction false} TraceThen(w: World, actions: seq<Action>, more: seq<Action>)
    requires IsTrace(w, actions) && IsTrace(Final(w, actions), more)
    ensures IsTrace(w, actions + more) && Final(w, actions + more) == Final(Final(w, actions), more)
    decreases |actions|
  {
    if actions == [] {
      assert actions + more == more;
    } else {
      TraceThen(Apply(w, actions[0]), actions[1..], more);
      assert (actions + more)[0] == actions[0] && (actions + more)[1..] == actions[1..] + more;
    }
  }

  /** Coroutine 0 claims the absent row. */
  lemma FirstClaim() returns (w: World)
    ensures Reaches(INIT, w)
    ensures w == World(Some(Row(Some(Placeholder(1)), 2)), map[0 := Launch(1)], map[], 3, [Claimed(1)])
  {
    ReachesSelf(INIT);
    w := ReachesNext(INIT, INIT, Arrive);
    assert w == World(None, map[0 := GateRead], map[], 1, []);
    w := ReachesNext(INIT, w, Step(0));
    assert w == World(None, map[0 := ClaimRead], map[], 1, []);
    w := ReachesNext(INIT, w, Step(0));
    assert w == World(None, map[0 := ClaimCreate(1)], map[], 2, []);
    w := ReachesNext(INIT, w, Step(0));
  }

  /** It launches run 3, which dies. */
  lemma FirstRunDies() returns (w: World)
    ensures Reaches(INIT, w)
    ensures w == World(Some(Row(Some(Instance(3)), 4)), map[0 := Done], map[3 := Run(Terminal, 1)], 5, [Claimed(1)])
  {
    w := FirstClaim();
    w := ReachesNext(INIT, w, Step(0));
    assert w == World(Some(Row(Some(Placeholder(1)), 2)), map[0 := SetActive(1, 3)], map[3 := Run(Running, 1)], 4,
        [Claimed(1)]);
    w := ReachesNext(INIT, w, Step(0));
    w := ReachesNext(INIT, w, Die(3));
  }

  /** Two coroutines read the dead run and are both about to clear it. */
  lemma TwoHealersRead() returns (w: World)
    ensures Reaches(INIT, w)
    ensures w.row == Some(Row(Some(Instance(3)), 4)) && w.runs == map[3 := Run(Terminal, 1)] && w.next == 7
    ensures w.callers == map[0 := Done, 5 := ClearWrite(Instance(3), ThenClaim),
        6 := ClearWrite(Instance(3), ThenClaim)]
  {
    var w0 := FirstRunDies();
    ReachesKeepsInv(INIT, w0);
    var w1 := HealerReads(w0, 3);
    ReachesTrans(INIT, w0, w1);
    ReachesKeepsInv(INIT, w1);
    w := HealerReads(w1, 3);
    ReachesTrans(INIT, w1, w);
  }

  /** One of them clears and claims; the other's clear would now wipe that claim. */
  lemma OneHealerClaimsWhileTheOtherWaits() returns (w: World)
    ensures Reaches(INIT, w) && 6 in w.callers && w.callers[6].ClearWrite? && !Spares(w, Step(6))
  {
    w := TwoHealersRead();
    assert !Live(w, Instance(3));
    w := ReachesNext(INIT, w, Step(5));
    assert w.row == Some(Row(None, 7)) && w.next == 8 && w.callers[5] == ClaimRead
        && w.callers[6] == ClearWrite(Instance(3), ThenClaim);
    w := ReachesNext(INIT, w, Step(5));
    assert w.row == Some(Row(None, 7)) && w.callers[5] == ClaimUpdate(8, 7)
        && w.callers[6] == ClearWrite(Instance(3), ThenClaim);
    w := ReachesNext(INIT, w, Step(5));
    assert Active(w) == Some(Placeholder(8)) && InFlight(w.callers[5], 8);
  }

  /** The unconditional claim of the dispatcher's header fails: some trace has two unfinished runs. */
  lemma TwoHealersBothLaunch() returns (actions: seq<Action>)
    ensures IsTrace(INIT, actions) && !AtMostOneRunning(Final(INIT, actions))
  {
    var w := OneHealerClaimsWhileTheOtherWaits();
    var before :| SparingTrace(INIT, before) && IsTrace(INIT, before) && Final(INIT, before) == w;
    ClaimsAlternate(INIT, before);
    var w' := StrikeLeadsToTwo(w, 6);
    var after :| SparingTrace(Apply(w, Step(6)), after) && IsTrace(Apply(w, Step(6)), after)
        && Final(Apply(w, Step(6)), after) == w';
    var strike := [Step(6)] + after;
    assert strike[0] == Step(6) && strike[1..] == after;
    TraceThen(INIT, before, strike);
    actions := before + strike;
  }
}
