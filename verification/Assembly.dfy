/**
 * Assembling Activity Log events into operations: collapse repeats, group by identity, fold each
 * group in time order.
 */
module Assembly {
  import opened Decimals
  import opened Options
  import opened Text

  /** at: what the timestamp parses to; None when it is missing or malformed, which sorts last. */
  datatype Event = Event(
    id: Option<string>, timestamp: Option<string>, at: Option<int>,
    subscription: Option<string>, resource: Option<string>, operation: Option<string>, status: Option<string>,
    resourceType: Option<string>, operationId: Option<string>, correlation: Option<string>,
    columns: map<string, string>, payload: Option<string>, encoding: Option<string>, pending: bool)
  {
    function Status(): string { Lower(Or(status)) }
    predicate Accepted() { Status() == "accepted" }
    predicate Terminal() { Status() in {"succeeded", "failed", "canceled", "cancelled"} }
  }

  datatype Operation = Operation(
    identity: string, subscription: string, resource: Option<string>, resourceType: Option<string>,
    operation: Option<string>, operationId: Option<string>, correlation: Option<string>,
    firstTime: Option<string>, lastTime: Option<string>, requestId: Option<string>, terminalId: Option<string>,
    allIds: seq<string>, columns: map<string, string>,
    appliedId: Option<string>, payload: Option<string>, encoding: Option<string>,
    outcome: string, paired: bool, pending: bool)

  function Or(s: Option<string>): string { if s.Some? then s.value else "" }

  function Show(s: Option<string>): string { if s.Some? then s.value else "None" }

  predicate Truthy(s: Option<string>) { s.Some? && s.value != "" }

  function Identity(e: Event): string {
    var head := Lower(Or(e.subscription)) + "|" + Lower(Or(e.resource)) + "|";
    if Truthy(e.correlation) then head + e.correlation.value + "|" + Lower(Or(e.operation))
    else head + "unpaired|" + Lower(Or(e.operation)) + "|" + Show(e.id)
  }

  /** Events of one key are one event seen again. */
  function Key(e: Event): string {
    Lower(Or(e.subscription)) + "|" + Show(e.id)
  }

  // ---- which events share an operation ----

  ghost predicate NoBar(s: string) {
    '|' !in s
  }

  /** None of the fields an identity is made of holds the separator. */
  ghost predicate NoBars(e: Event) {
    && NoBar(Or(e.subscription)) && NoBar(Or(e.resource)) && NoBar(Or(e.operation)) && NoBar(Or(e.correlation))
    && NoBar(Or(e.id))
  }

  lemma LowerKeepsNoBar(s: string)
    ensures |Lower(s)| == |s| && (NoBar(s) ==> NoBar(Lower(s)))
  {
    if NoBar(s) {
      forall i | 0 <= i < |s| ensures Lower(s)[i] != '|' { assert s[i] in s; }
    }
  }

  lemma FirstBar(x: string, u: string)
    requires NoBar(x)
    ensures var s := x + "|" + u;
      s[|x|] == '|' && (forall i | 0 <= i < |x| :: s[i] != '|') && s[..|x|] == x && s[|x| + 1..] == u
  {
    forall i | 0 <= i < |x| ensures (x + "|" + u)[i] != '|' { assert x[i] in x; }
  }

  lemma HasBar(x: string, u: string)
    ensures !NoBar(x + "|" + u)
  {
    assert (x + "|" + u)[|x|] == '|';
  }

  /** What stands before the first separator and what after it. */
  lemma BarSplits(x: string, u: string, y: string, v: string)
    requires NoBar(x) && NoBar(y) && x + "|" + u == y + "|" + v
    ensures x == y && u == v
  {
    FirstBar(x, u);
    FirstBar(y, v);
  }

  /** An id as it is written into a key; a missing one is written None. */
  ghost predicate SameId(a: Event, b: Event) {
    (if a.id.Some? then a.id.value else "None") == (if b.id.Some? then b.id.value else "None")
  }

  ghost predicate SameFolded(a: Option<string>, b: Option<string>) {
    Lower(if a.Some? then a.value else "") == Lower(if b.Some? then b.value else "")
  }

  ghost predicate Correlated(e: Event) {
    e.correlation.Some? && e.correlation.value != ""
  }

  /** One subscription, resource and operation, ignoring case, and one correlation, or none and one event. */
  ghost predicate OneOperation(a: Event, b: Event) {
    && SameFolded(a.subscription, b.subscription) && SameFolded(a.resource, b.resource)
    && SameFolded(a.operation, b.operation)
    && (if Correlated(a) then a.correlation == b.correlation else !Correlated(b) && SameId(a, b))
  }

  function Tail(e: Event): string {
    if Truthy(e.correlation) then e.correlation.value + "|" + Lower(Or(e.operation))
    else "unpaired" + "|" + Lower(Or(e.operation)) + "|" + Show(e.id)
  }

  lemma IdentityParts(e: Event)
    ensures Identity(e) == Lower(Or(e.subscription)) + "|" + (Lower(Or(e.resource)) + "|" + Tail(e))
  {
    var x, y := Lower(Or(e.subscription)), Lower(Or(e.resource));
    assert x + "|" + y + "|" + Tail(e) == x + "|" + (y + "|" + Tail(e));
    if Truthy(e.correlation) {
      assert Identity(e) == x + "|" + y + "|" + Tail(e);
    } else {
      assert "unpaired|" == "unpaired" + "|";
      assert Identity(e) == x + "|" + y + "|" + Tail(e);
    }
  }

  /** What stands in a tail before its first separator, and what after it. */
  function TailHead(e: Event): string {
    if Truthy(e.correlation) then e.correlation.value else "unpaired"
  }

  function TailRest(e: Event): string {
    Lower(Or(e.operation)) + if Truthy(e.correlation) then "" else "|" + Show(e.id)
  }

  lemma TailParts(e: Event)
    ensures Tail(e) == TailHead(e) + "|" + TailRest(e)
    ensures Correlated(e) ==> TailRest(e) == Lower(Or(e.operation))
    ensures !Correlated(e) ==> TailRest(e) == Lower(Or(e.operation)) + "|" + Show(e.id)
  {
  }

  lemma SameTail(a: Event, b: Event)
    requires NoBars(a) && NoBars(b) && Tail(a) == Tail(b)
    ensures SameFolded(a.operation, b.operation)
    ensures if Correlated(a) then a.correlation == b.correlation else !Correlated(b) && SameId(a, b)
  {
    LowerKeepsNoBar(Or(a.operation));
    LowerKeepsNoBar(Or(b.operation));
    TailParts(a);
    TailParts(b);
    BarSplits(TailHead(a), TailRest(a), TailHead(b), TailRest(b));
    var p, q := Lower(Or(a.operation)), Lower(Or(b.operation));
    HasBar(p, Show(a.id));
    HasBar(q, Show(b.id));
    if !Correlated(a) && !Correlated(b) { BarSplits(p, Show(a.id), q, Show(b.id)); }
  }

  /** Two events belong to one operation exactly if they are of one. */
  lemma OneIdentityExactlyForOneOperation(a: Event, b: Event)
    requires NoBars(a) && NoBars(b)
    ensures Identity(a) == Identity(b) <==> OneOperation(a, b)
  {
    IdentityParts(a);
    IdentityParts(b);
    LowerKeepsNoBar(Or(a.subscription));
    LowerKeepsNoBar(Or(b.subscription));
    LowerKeepsNoBar(Or(a.resource));
    LowerKeepsNoBar(Or(b.resource));
    if Identity(a) == Identity(b) {
      var x, y := Lower(Or(a.resource)) + "|" + Tail(a), Lower(Or(b.resource)) + "|" + Tail(b);
      BarSplits(Lower(Or(a.subscription)), x, Lower(Or(b.subscription)), y);
      BarSplits(Lower(Or(a.resource)), Tail(a), Lower(Or(b.resource)), Tail(b));
      SameTail(a, b);
    }
  }

  /** Two events are sightings of one exactly if subscription, ignoring case, and id agree. */
  lemma OneKeyExactlyForOneEvent(a: Event, b: Event)
    requires NoBar(Or(a.subscription)) && NoBar(Or(b.subscription))
    ensures Key(a) == Key(b) <==> SameFolded(a.subscription, b.subscription) && SameId(a, b)
  {
    LowerKeepsNoBar(Or(a.subscription));
    LowerKeepsNoBar(Or(b.subscription));
    if Key(a) == Key(b) { BarSplits(Lower(Or(a.subscription)), Show(a.id), Lower(Or(b.subscription)), Show(b.id)); }
  }

  // ---- collapsing repeats ----

  function Find(xs: seq<Event>, key: string): (i: nat)
    ensures i <= |xs| && (i < |xs| ==> Key(xs[i]) == key) && forall j | 0 <= j < i :: Key(xs[j]) != key
  {
    if xs == [] || Key(xs[0]) == key then 0 else 1 + Find(xs[1..], key)
  }

  /** A dictionary in insertion order: an old key keeps its place and takes the new value. */
  function Put(xs: seq<Event>, e: Event): seq<Event> {
    var i := Find(xs, Key(e));
    if i < |xs| then xs[i := e] else xs + [e]
  }

  function Dedup(events: seq<Event>): seq<Event> {
    if events == [] then [] else Put(Dedup(events[..|events| - 1]), events[|events| - 1])
  }

  ghost predicate DistinctKeys(xs: seq<Event>) {
    forall i, j | 0 <= i < j < |xs| :: Key(xs[i]) != Key(xs[j])
  }

  function LastOf(events: seq<Event>, key: string): Option<Event> {
    if events == [] then None
    else if Key(events[|events| - 1]) == key then Some(events[|events| - 1])
    else LastOf(events[..|events| - 1], key)
  }

  lemma PutKeepsKeys(xs: seq<Event>, e: Event)
    requires DistinctKeys(xs)
    ensures DistinctKeys(Put(xs, e))
  {
  }

  lemma PutReplaces(xs: seq<Event>, e: Event)
    requires DistinctKeys(xs)
    ensures forall d :: d in Put(xs, e) <==> d == e || (d in xs && Key(d) != Key(e))
  {
    var i, r := Find(xs, Key(e)), Put(xs, e);
    assert r[i] == e;
    forall j | 0 <= j < |xs| && j != i ensures Key(xs[j]) != Key(e) && r[j] == xs[j] {}
    forall d ensures d in r <==> d == e || (d in xs && Key(d) != Key(e)) {
      if d in r && d != e { var j :| 0 <= j < |r| && r[j] == d; assert xs[j] == d; }
      if d in xs && Key(d) != Key(e) { var j :| 0 <= j < |xs| && xs[j] == d; assert r[j] == d; }
    }
  }

  /** One entry for each key of the input, holding the last event of that key. */
  lemma {:induction false} DedupKeepsTheLast(events: seq<Event>)
    ensures DistinctKeys(Dedup(events))
    ensures forall e :: e in Dedup(events) <==> LastOf(events, Key(e)) == Some(e)
  {
    if events != [] {
      DedupKeepsTheLast(events[..|events| - 1]);
      PutReplaces(Dedup(events[..|events| - 1]), events[|events| - 1]);
      PutKeepsKeys(Dedup(events[..|events| - 1]), events[|events| - 1]);
    }
  }

  lemma {:induction false} LastOfFinds(events: seq<Event>, key: string)
    ensures LastOf(events, key).Some? <==> exists e :: e in events && Key(e) == key
    ensures LastOf(events, key).Some? ==> LastOf(events, key).value in events && Key(LastOf(events, key).value) == key
  {
    if events != [] {
      LastOfFinds(events[..|events| - 1], key);
      assert events[|events| - 1] in events;
      assert forall e :: e in events <==> e in events[..|events| - 1] || e == events[|events| - 1];
    }
  }

  // ---- grouping ----

  function Where(xs: seq<Event>, identity: string): seq<Event> {
    if xs == [] then []
    else Where(xs[..|xs| - 1], identity) + if Identity(xs[|xs| - 1]) == identity then [xs[|xs| - 1]] else []
  }

  /** The identities in order of first appearance. */
  function Identities(xs: seq<Event>): seq<string> {
    if xs == [] then []
    else
      var before := Identities(xs[..|xs| - 1]);
      if Identity(xs[|xs| - 1]) in before then before else before + [Identity(xs[|xs| - 1])]
  }

  ghost predicate Distinct(xs: seq<string>) {
    forall i, j | 0 <= i < j < |xs| :: xs[i] != xs[j]
  }

  lemma {:induction false} IdentitiesAreDistinct(xs: seq<Event>)
    ensures Distinct(Identities(xs)) && forall id :: id in Identities(xs) <==> exists e :: e in xs && Identity(e) == id
  {
    if xs != [] {
      var before, last := xs[..|xs| - 1], xs[|xs| - 1];
      IdentitiesAreDistinct(before);
      forall id ensures id in Identities(xs) <==> exists e :: e in xs && Identity(e) == id {
        if e :| e in xs && Identity(e) == id { assert e in before || e == last; }
        if id in Identities(before) { var e :| e in before && Identity(e) == id; assert e in xs; }
        if id == Identity(last) { assert last in xs; }
      }
    }
  }

  lemma {:induction false} WhereKeeps(xs: seq<Event>, identity: string)
    ensures forall e :: e in Where(xs, identity) <==> e in xs && Identity(e) == identity
    ensures forall e :: multiset(Where(xs, identity))[e] == if Identity(e) == identity then multiset(xs)[e] else 0
  {
    if xs != [] {
      WhereKeeps(xs[..|xs| - 1], identity);
      assert xs == xs[..|xs| - 1] + [xs[|xs| - 1]];
    }
  }

  // ---- time order ----

  /** Strictly earlier; a missing time is after every other. */
  predicate Earlier(a: Event, b: Event) {
    a.at.Some? && (b.at.None? || a.at.value < b.at.value)
  }

  /** Insert after everything not later: the sort is stable. */
  function InsertByTime(xs: seq<Event>, e: Event): seq<Event> {
    if xs == [] || !Earlier(e, xs[|xs| - 1]) then xs + [e]
    else InsertByTime(xs[..|xs| - 1], e) + [xs[|xs| - 1]]
  }

  function ByTime(xs: seq<Event>): (r: seq<Event>)
    ensures |r| == |xs|
  {
    if xs == [] then [] else
      var r := ByTime(xs[..|xs| - 1]);
      InsertLength(r, xs[|xs| - 1]);
      InsertByTime(r, xs[|xs| - 1])
  }

  lemma {:induction false} InsertLength(xs: seq<Event>, e: Event)
    ensures |InsertByTime(xs, e)| == |xs| + 1
  {
    if !(xs == [] || !Earlier(e, xs[|xs| - 1])) { InsertLength(xs[..|xs| - 1], e); }
  }

  ghost predicate InOrder(xs: seq<Event>) {
    forall i, j | 0 <= i < j < |xs| :: !Earlier(xs[j], xs[i])
  }

  lemma SnocKeepsOrder(xs: seq<Event>, e: Event)
    requires InOrder(xs) && forall x | x in xs :: !Earlier(e, x)
    ensures InOrder(xs + [e])
  {
  }

  lemma LastIsNotEarlier(xs: seq<Event>)
    requires InOrder(xs) && xs != []
    ensures forall x | x in xs :: !Earlier(xs[|xs| - 1], x)
  {
  }

  lemma {:induction false} InsertKeeps(xs: seq<Event>, e: Event)
    ensures multiset(InsertByTime(xs, e)) == multiset(xs) + multiset{e}
    ensures forall x :: x in InsertByTime(xs, e) <==> x in xs || x == e
  {
    if !(xs == [] || !Earlier(e, xs[|xs| - 1])) {
      InsertKeeps(xs[..|xs| - 1], e);
      assert xs == xs[..|xs| - 1] + [xs[|xs| - 1]];
    }
  }

  lemma {:induction false} InsertKeepsOrder(xs: seq<Event>, e: Event)
    requires InOrder(xs)
    ensures InOrder(InsertByTime(xs, e))
  {
    if xs == [] || !Earlier(e, xs[|xs| - 1]) {
      if xs != [] { LastIsNotEarlier(xs); }
      forall x | x in xs ensures !Earlier(e, x) { assert !Earlier(xs[|xs| - 1], x); }
      SnocKeepsOrder(xs, e);
    } else {
      var before, last := xs[..|xs| - 1], xs[|xs| - 1];
      OrderOfPrefix(xs);
      InsertKeepsOrder(before, e);
      InsertKeeps(before, e);
      LastIsNotEarlier(xs);
      assert forall x | x in before :: x in xs;
      SnocKeepsOrder(InsertByTime(before, e), last);
    }
  }

  lemma {:induction false} ByTimeSorts(xs: seq<Event>)
    ensures InOrder(ByTime(xs)) && multiset(ByTime(xs)) == multiset(xs)
  {
    if xs != [] {
      ByTimeSorts(xs[..|xs| - 1]);
      InsertKeepsOrder(ByTime(xs[..|xs| - 1]), xs[|xs| - 1]);
      InsertKeeps(ByTime(xs[..|xs| - 1]), xs[|xs| - 1]);
      assert xs == xs[..|xs| - 1] + [xs[|xs| - 1]];
    }
  }

  /** A time that does not parse is later than any other. */
  ghost predicate NotLater(a: Event, b: Event) {
    b.at.None? || (a.at.Some? && a.at.value <= b.at.value)
  }

  function AtTime(xs: seq<Event>, t: Option<int>): seq<Event> {
    if xs == [] then []
    else AtTime(xs[..|xs| - 1], t) + if xs[|xs| - 1].at == t then [xs[|xs| - 1]] else []
  }

  lemma AtTimeSnoc(xs: seq<Event>, e: Event, t: Option<int>)
    ensures AtTime(xs + [e], t) == AtTime(xs, t) + if e.at == t then [e] else []
  {
    assert (xs + [e])[..|xs|] == xs;
  }

  lemma {:induction false} InsertIsStable(xs: seq<Event>, e: Event, t: Option<int>)
    ensures AtTime(InsertByTime(xs, e), t) == AtTime(xs, t) + if e.at == t then [e] else []
  {
    if xs == [] || !Earlier(e, xs[|xs| - 1]) {
      AtTimeSnoc(xs, e, t);
    } else {
      var before, last := xs[..|xs| - 1], xs[|xs| - 1];
      InsertIsStable(before, e, t);
      AtTimeSnoc(InsertByTime(before, e), last, t);
    }
  }

  /** The sort is chronological and keeps events of one time in the order they came. */
  lemma {:induction false} ByTimeIsChronologicalAndStable(xs: seq<Event>, t: Option<int>)
    ensures forall i, j | 0 <= i < j < |xs| :: NotLater(ByTime(xs)[i], ByTime(xs)[j])
    ensures AtTime(ByTime(xs), t) == AtTime(xs, t)
  {
    ByTimeSorts(xs);
    forall i, j | 0 <= i < j < |xs| ensures NotLater(ByTime(xs)[i], ByTime(xs)[j]) {
      assert !Earlier(ByTime(xs)[j], ByTime(xs)[i]);
    }
    if xs != [] {
      ByTimeIsChronologicalAndStable(xs[..|xs| - 1], t);
      InsertIsStable(ByTime(xs[..|xs| - 1]), xs[|xs| - 1], t);
    }
  }

  ghost predicate DistinctTimes(xs: seq<Event>) {
    forall i, j | 0 <= i < j < |xs| :: xs[i].at != xs[j].at
  }

  lemma SameLast(xs: seq<Event>, ys: seq<Event>)
    requires InOrder(xs) && InOrder(ys) && DistinctTimes(xs) && |xs| == |ys| > 0
    requires xs[|xs| - 1] in ys && ys[|ys| - 1] in xs
    ensures xs[|xs| - 1] == ys[|ys| - 1]
  {
    var n := |xs| - 1;
    assert forall i | 0 <= i < n :: !Earlier(xs[n], xs[i]) && xs[i].at != xs[n].at;
    assert forall j | 0 <= j < n :: !Earlier(ys[n], ys[j]);
    var j :| 0 <= j < |ys| && ys[j] == xs[n];
    var i :| 0 <= i < |xs| && xs[i] == ys[n];
  }

  lemma PrefixStaysInOrder(xs: seq<Event>)
    requires InOrder(xs) && DistinctTimes(xs) && xs != []
    ensures InOrder(xs[..|xs| - 1]) && DistinctTimes(xs[..|xs| - 1])
  {
  }

  lemma SamePrefixes(xs: seq<Event>, ys: seq<Event>)
    requires multiset(xs) == multiset(ys) && xs != [] && ys != [] && xs[|xs| - 1] == ys[|ys| - 1]
    ensures multiset(xs[..|xs| - 1]) == multiset(ys[..|ys| - 1])
  {
    DropLast(xs);
    DropLast(ys);
  }

  lemma SameTimes(xs: seq<Event>, ys: seq<Event>)
    requires InOrder(xs) && InOrder(ys) && DistinctTimes(xs) && multiset(xs) == multiset(ys) && xs != []
    ensures |xs| == |ys| && xs[|xs| - 1] == ys[|ys| - 1]
  {
    SameLength(xs, ys);
    assert xs[|xs| - 1] in xs && ys[|ys| - 1] in ys;
    SameLast(xs, ys);
  }

  /** With distinct times there is only one time order. */
  lemma {:induction false} OneOrder(xs: seq<Event>, ys: seq<Event>)
    requires InOrder(xs) && InOrder(ys) && DistinctTimes(xs) && multiset(xs) == multiset(ys)
    ensures xs == ys
    decreases |xs|
  {
    if xs == [] {
      SameLength(xs, ys);
    } else {
      SameTimes(xs, ys);
      SamePrefixes(xs, ys);
      PrefixStaysInOrder(xs);
      OrderOfPrefix(ys);
      OneOrder(xs[..|xs| - 1], ys[..|ys| - 1]);
      Rejoin(xs, ys);
    }
  }

  lemma OrderOfPrefix(ys: seq<Event>)
    requires InOrder(ys) && ys != []
    ensures InOrder(ys[..|ys| - 1])
  {
  }

  lemma Rejoin(xs: seq<Event>, ys: seq<Event>)
    requires xs != [] && |xs| == |ys| && xs[..|xs| - 1] == ys[..|ys| - 1] && xs[|xs| - 1] == ys[|ys| - 1]
    ensures xs == ys
  {
    assert xs == xs[..|xs| - 1] + [xs[|xs| - 1]] && ys == ys[..|ys| - 1] + [ys[|ys| - 1]];
  }

  lemma DropLast(xs: seq<Event>)
    requires xs != []
    ensures xs == xs[..|xs| - 1] + [xs[|xs| - 1]] && multiset(xs[..|xs| - 1]) == multiset(xs) - multiset{xs[|xs| - 1]}
  {
    assert xs == xs[..|xs| - 1] + [xs[|xs| - 1]];
  }

  lemma SameLength(xs: seq<Event>, ys: seq<Event>)
    requires multiset(xs) == multiset(ys)
    ensures |xs| == |ys| && (forall e :: e in xs <==> e in ys)
  {
    assert |xs| == |multiset(xs)| && |ys| == |multiset(ys)|;
    forall e ensures e in xs <==> e in ys { assert e in xs <==> e in multiset(xs); }
  }

  // ---- folds ----

  /** The first of the latest. */
  function Latest(xs: seq<Event>): (e: Event)
    requires xs != []
    ensures e in xs
  {
    if |xs| == 1 then xs[0]
    else
      var m := Latest(xs[..|xs| - 1]);
      if Earlier(m, xs[|xs| - 1]) then xs[|xs| - 1] else m
  }

  lemma {:induction false} LatestIsLatest(xs: seq<Event>)
    requires xs != []
    ensures forall e | e in xs :: !Earlier(Latest(xs), e)
    ensures exists i | 0 <= i < |xs| :: xs[i] == Latest(xs) && forall j | 0 <= j < i :: Earlier(xs[j], xs[i])
  {
    if |xs| > 1 {
      var before, last := xs[..|xs| - 1], xs[|xs| - 1];
      LatestIsLatest(before);
      var m := Latest(before);
      var i :| 0 <= i < |before| && before[i] == m && forall j | 0 <= j < i :: Earlier(before[j], before[i]);
      assert xs == before + [last];
      if Earlier(m, last) {
        forall j | 0 <= j < |before| ensures Earlier(xs[j], last) { assert before[j] in before; }
        assert xs[|xs| - 1] == Latest(xs);
      } else {
        assert xs[i] == Latest(xs) && forall j | 0 <= j < i :: Earlier(xs[j], xs[i]);
      }
    } else {
      assert xs[0] == Latest(xs);
    }
  }

  datatype Test = IsTerminal | IsAccepted | HasPayload | IsRequest {
    predicate Holds(e: Event) {
      match this
      case IsTerminal => e.Terminal()
      case IsAccepted => e.Accepted()
      case HasPayload => e.payload.Some?
      case IsRequest => e.Status() in {"accepted", "started"}
    }
  }

  function Keep(xs: seq<Event>, t: Test): (r: seq<Event>)
    ensures forall e :: e in r <==> e in xs && t.Holds(e)
  {
    if xs == [] then []
    else if t.Holds(xs[0]) then [xs[0]] + Keep(xs[1..], t) else Keep(xs[1..], t)
  }

  function OutcomeOf(status: string): string {
    if status in {"canceled", "cancelled"} then "cancelled"
    else if status in {"succeeded", "failed"} then status
    else "unknown"
  }

  function Outcome(xs: seq<Event>): string {
    var terminal := Keep(xs, IsTerminal);
    if terminal == [] then "pending" else OutcomeOf(Latest(terminal).Status())
  }

  function TerminalId(xs: seq<Event>): Option<string> {
    var terminal := Keep(xs, IsTerminal);
    if terminal == [] then None else Latest(terminal).id
  }

  function RequestId(xs: seq<Event>): Option<string> {
    var requests := Keep(ByTime(xs), IsRequest);
    if requests == [] then None else requests[0].id
  }

  function Pool(xs: seq<Event>): seq<Event> {
    if Keep(xs, IsAccepted) != [] then Keep(xs, IsAccepted) else if Keep(xs, HasPayload) != []
        then Keep(xs, HasPayload) else xs
  }

  function Candidates(pool: seq<Event>): seq<Event> {
    if Keep(pool, HasPayload) != [] then Keep(pool, HasPayload) else pool
  }

  /** Accepted events first, else events with a payload, else all; payloads preferred; the latest of those. */
  function Applied(xs: seq<Event>): Option<Event> {
    var candidates := Candidates(Pool(xs));
    if candidates == [] then None else Some(Latest(candidates))
  }

  function Update(merged: map<string, string>, xs: seq<Event>, accepted: bool): map<string, string> {
    if xs == [] then merged
    else
      var before, e := Update(merged, xs[..|xs| - 1], accepted), xs[|xs| - 1];
      if e.Accepted() == accepted then before + e.columns else before
  }

  /** A stable sort by "accepted" puts the others first. */
  function MergeColumns(xs: seq<Event>): map<string, string> {
    Update(Update(map[], xs, false), xs, true)
  }

  ghost predicate Gives(xs: seq<Event>, i: int, accepted: bool, column: string) {
    && 0 <= i < |xs| && xs[i].Accepted() == accepted && column in xs[i].columns
    && forall j | i < j < |xs| && xs[j].Accepted() == accepted :: column !in xs[j].columns
  }

  lemma {:induction false} UpdateTakesTheLast(merged: map<string, string>, xs: seq<Event>, accepted: bool,
      column: string, i: nat)
    requires Gives(xs, i, accepted, column)
    ensures column in Update(merged, xs, accepted) && Update(merged, xs, accepted)[column] == xs[i].columns[column]
  {
    if i < |xs| - 1 {
      assert Gives(xs[..|xs| - 1], i, accepted, column);
      UpdateTakesTheLast(merged, xs[..|xs| - 1], accepted, column, i);
    }
  }

  /** Without a giver the column is left as it was; returns whether there is one. */
  lemma {:induction false} UpdateKeepsTheRest(merged: map<string, string>, xs: seq<Event>, accepted: bool,
      column: string)
    requires forall i :: !Gives(xs, i, accepted, column)
    ensures column in Update(merged, xs, accepted) <==> column in merged
    ensures column in merged ==> Update(merged, xs, accepted)[column] == merged[column]
  {
    if xs != [] {
      assert !Gives(xs, |xs| - 1, accepted, column);
      var before := xs[..|xs| - 1];
      forall i ensures !Gives(before, i, accepted, column) {
        assert !Gives(xs, i, accepted, column);
      }
      UpdateKeepsTheRest(merged, before, accepted, column);
    }
  }

  /** A column's value is the last accepted event's that has it, and without one the last other event's. */
  lemma AcceptedColumnsWin(xs: seq<Event>, column: string)
    ensures forall i | Gives(xs, i, true, column) ::
              column in MergeColumns(xs) && MergeColumns(xs)[column] == xs[i].columns[column]
    ensures forall i | Gives(xs, i, false, column) && (forall j :: !Gives(xs, j, true, column)) ::
              column in MergeColumns(xs) && MergeColumns(xs)[column] == xs[i].columns[column]
    ensures column in MergeColumns(xs) ==> exists i, accepted :: Gives(xs, i, accepted, column)
  {
    var others := Update(map[], xs, false);
    forall i | Gives(xs, i, true, column)
      ensures column in MergeColumns(xs) && MergeColumns(xs)[column] == xs[i].columns[column]
    {
      UpdateTakesTheLast(others, xs, true, column, i);
    }
    if forall j :: !Gives(xs, j, true, column) {
      UpdateKeepsTheRest(others, xs, true, column);
      if i :| Gives(xs, i, false, column) {
        UpdateTakesTheLast(map[], xs, false, column, i);
        forall k | Gives(xs, k, false, column)
          ensures others[column] == xs[k].columns[column]
        {
          UpdateTakesTheLast(map[], xs, false, column, k);
        }
      } else {
        UpdateKeepsTheRest(map[], xs, false, column);
      }
    }
  }

  /** The outcome is pending without a terminal event, and otherwise the first of the latest terminal events'. */
  lemma OutcomeIsTheLatestTerminals(xs: seq<Event>)
    ensures Outcome(xs) == "pending" <==> NoneWith(xs, TERMINAL)
    ensures forall e | e in xs && HasStatus(e, TERMINAL)
              && (forall d | d in xs && HasStatus(d, TERMINAL) && d != e :: Earlier(d, e)) ::
              && TerminalId(xs) == e.id
              && (HasStatus(e, {"succeeded"}) ==> Outcome(xs) == "succeeded")
              && (HasStatus(e, {"failed"}) ==> Outcome(xs) == "failed")
              && (HasStatus(e, {"canceled", "cancelled"}) ==> Outcome(xs) == "cancelled")
  {
    forall e: Event ensures e.Terminal() <==> HasStatus(e, TERMINAL) { StatusTests(e); }
    var terminal := Keep(xs, IsTerminal);
    if terminal != [] {
      LatestIsLatest(terminal);
      assert Latest(terminal) in terminal;
    }
  }

  ghost predicate LatestOf(e: Event, xs: seq<Event>, accepted: bool, payload: bool) {
    && e in xs && (accepted ==> e.Accepted()) && (payload ==> e.payload.Some?)
    && (forall d | d in xs && (accepted ==> d.Accepted()) && (payload ==> d.payload.Some?) :: !Earlier(e, d))
  }

  ghost predicate HasSome(xs: seq<Event>, t: Test) {
    exists d :: d in xs && t.Holds(d)
  }

  lemma KeptIsSome(xs: seq<Event>, t: Test)
    ensures Keep(xs, t) != [] <==> HasSome(xs, t)
  {
    if Keep(xs, t) != [] { assert Keep(xs, t)[0] in Keep(xs, t); }
  }

  lemma PoolHolds(xs: seq<Event>)
    requires xs != []
    ensures Pool(xs) != []
    ensures forall d :: d in Pool(xs) <==>
        d in xs && (HasSome(xs, IsAccepted) ==> d.Accepted())
            && (!HasSome(xs, IsAccepted) && HasSome(xs, HasPayload) ==> d.payload.Some?)
  {
    KeptIsSome(xs, IsAccepted);
    KeptIsSome(xs, HasPayload);
  }

  lemma CandidatesHold(pool: seq<Event>)
    requires pool != []
    ensures Candidates(pool) != []
    ensures forall d :: d in Candidates(pool) <==> d in pool && (HasSome(pool, HasPayload) ==> d.payload.Some?)
  {
    KeptIsSome(pool, HasPayload);
  }

  /**
   * The applied event is a latest accepted one with a payload; failing that accepted; failing that with a payload;
   * failing that any.
   */
  lemma AppliedIsTheLatestPreferred(xs: seq<Event>)
    requires xs != []
    ensures Applied(xs).Some? && LatestOf(Applied(xs).value, xs, HasSome(xs, IsAccepted), HasSome(Pool(xs), HasPayload))
    ensures HasSome(Pool(xs), HasPayload) <==>
        exists d :: d in xs && d.payload.Some? && (HasSome(xs, IsAccepted) ==> d.Accepted())
  {
    PoolHolds(xs);
    var pool := Pool(xs);
    CandidatesHold(pool);
    LatestIsLatest(Candidates(pool));
    assert Latest(Candidates(pool)) in Candidates(pool);
    if HasSome(pool, HasPayload) {
      var d :| d in pool && HasPayload.Holds(d);
      assert d in xs && d.payload.Some?;
    }
    if d :| d in xs && d.payload.Some? && (HasSome(xs, IsAccepted) ==> d.Accepted()) {
      assert HasPayload.Holds(d) && d in pool;
    }
  }

  lemma {:induction false} KeepStartsEarliest(xs: seq<Event>, t: Test)
    requires InOrder(xs) && Keep(xs, t) != []
    ensures forall e | e in xs && t.Holds(e) :: !Earlier(e, Keep(xs, t)[0])
  {
    if t.Holds(xs[0]) {
      forall i | 0 <= i < |xs| ensures !Earlier(xs[i], xs[0]) {}
    } else {
      KeepStartsEarliest(xs[1..], t);
      assert xs == [xs[0]] + xs[1..];
    }
  }

  /** The request id is that of an accepted or started event no other such event is earlier than. */
  lemma RequestIsTheEarliest(xs: seq<Event>)
    ensures (exists e :: e in xs && IsRequest.Holds(e)) ==>
              exists r :: r in xs && IsRequest.Holds(r) && r.id == RequestId(xs) && forall e | e in xs
                  && IsRequest.Holds(e) :: !Earlier(e, r)
    ensures (forall e | e in xs :: !IsRequest.Holds(e)) ==> RequestId(xs) == None
  {
    ByTimeSorts(xs);
    SameLength(xs, ByTime(xs));
    var requests := Keep(ByTime(xs), IsRequest);
    if requests != [] {
      KeepStartsEarliest(ByTime(xs), IsRequest);
      assert requests[0] in requests;
    }
  }

  /** An operation spans from an event none is earlier than to one none is later than, and is named after the latter. */
  lemma OperationSpansItsEvents(group: seq<Event>) returns (first: Event, last: Event)
    requires group != []
    ensures first in group && last in group && forall e | e in group :: !Earlier(e, first) && !Earlier(last, e)
    ensures var op := OperationOf(group);
      && op.firstTime == first.timestamp && op.lastTime == last.timestamp
      && op.identity == Identity(last) && op.resource == last.resource && op.resourceType == last.resourceType
      && op.operation == last.operation && op.operationId == last.operationId && op.correlation == last.correlation
      && op.subscription == Lower(Or(last.subscription)) && op.paired == Truthy(last.correlation)
      && (op.pending <==> exists e :: e in group && e.pending)
  {
    var ordered := ByTime(group);
    ByTimeSorts(group);
    SameLength(group, ordered);
    first, last := ordered[0], ordered[|ordered| - 1];
    assert first in ordered && last in ordered;
    LastIsNotEarlier(ordered);
    FirstIsNotLater(ordered);
  }

  lemma FirstIsNotLater(xs: seq<Event>)
    requires InOrder(xs) && xs != []
    ensures forall x | x in xs :: !Earlier(x, xs[0])
  {
  }

  function SortedIds(xs: seq<Event>): seq<string> {
    if xs == [] then []
    else
      var before, id := SortedIds(xs[..|xs| - 1]), xs[|xs| - 1].id;
      if !Truthy(id) || id.value in before then before else Insert(before, id.value)
  }

  lemma {:induction false} SortedIdsAreTheIds(xs: seq<Event>)
    ensures Increasing(SortedIds(xs))
    ensures forall id :: id in SortedIds(xs) <==> id != "" && exists e :: e in xs && e.id == Some(id)
  {
    if xs != [] {
      var before, last := xs[..|xs| - 1], xs[|xs| - 1];
      SortedIdsAreTheIds(before);
      if Truthy(last.id) && last.id.value !in SortedIds(before) { InsertIsSorted(SortedIds(before), last.id.value); }
      forall id ensures id in SortedIds(xs) <==> id != "" && exists e :: e in xs && e.id == Some(id) {
        assert id in SortedIds(xs) <==> id in Elements(SortedIds(xs));
        assert id in SortedIds(before) <==> id in Elements(SortedIds(before));
        if e :| e in xs && e.id == Some(id) { assert e in before || e == last; }
        if e :| e in before && e.id == Some(id) { assert e in xs; }
        assert last in xs;
      }
    }
  }

  function OperationOf(group: seq<Event>): Operation
    requires group != []
  {
    var ordered := ByTime(group);
    var last := ordered[|ordered| - 1];
    var applied := Applied(ordered);
    Operation(
      Identity(last), Lower(Or(last.subscription)), last.resource, last.resourceType, last.operation, last.operationId,
          last.correlation,
      ordered[0].timestamp, last.timestamp, RequestId(ordered), TerminalId(ordered),
      SortedIds(ordered), MergeColumns(ordered),
      if applied.Some? then applied.value.id else None,
      if applied.Some? then applied.value.payload else None,
      if applied.Some? then applied.value.encoding else None,
      Outcome(ordered), Truthy(last.correlation), exists e | e in ordered :: e.pending)
  }

  // ---- an operation in terms of its events ----

  ghost predicate HasStatus(e: Event, statuses: set<string>) {
    e.status.Some? && Lower(e.status.value) in statuses
  }

  const TERMINAL := {"succeeded", "failed", "canceled", "cancelled"}

  /** A latest of those with such a status. */
  ghost predicate IsLatestWith(e: Event, group: seq<Event>, statuses: set<string>) {
    e in group && HasStatus(e, statuses) && forall d | d in group && HasStatus(d, statuses) :: NotLater(d, e)
  }

  ghost predicate IsEarliestWith(e: Event, group: seq<Event>, statuses: set<string>) {
    e in group && HasStatus(e, statuses) && forall d | d in group && HasStatus(d, statuses) :: NotLater(e, d)
  }

  ghost predicate NoneWith(group: seq<Event>, statuses: set<string>) {
    forall d | d in group :: !HasStatus(d, statuses)
  }

  ghost predicate EndsAs(op: Operation, e: Event) {
    && op.terminalId == e.id
    && (HasStatus(e, {"succeeded"}) ==> op.outcome == "succeeded")
    && (HasStatus(e, {"failed"}) ==> op.outcome == "failed")
    && (HasStatus(e, {"canceled", "cancelled"}) ==> op.outcome == "cancelled")
  }

  /** Pending without a terminal event, and otherwise as a latest of them says. */
  ghost predicate TellsOutcome(op: Operation, group: seq<Event>) {
    if NoneWith(group, TERMINAL) then op.outcome == "pending" && op.terminalId == None
    else exists e :: IsLatestWith(e, group, TERMINAL) && EndsAs(op, e)
  }

  /** Requested by an earliest accepted or started event. */
  ghost predicate TellsRequest(op: Operation, group: seq<Event>) {
    if NoneWith(group, {"accepted", "started"}) then op.requestId == None
    else exists e :: IsEarliestWith(e, group, {"accepted", "started"}) && op.requestId == e.id
  }

  /** Of the accepted events if there are any. */
  ghost predicate InPool(e: Event, group: seq<Event>) {
    e in group && (NoneWith(group, {"accepted"}) || HasStatus(e, {"accepted"}))
  }

  /** With a payload if one of the pool has one. */
  ghost predicate MayApply(e: Event, group: seq<Event>) {
    InPool(e, group) && ((exists d :: InPool(d, group) && d.payload.Some?) ==> e.payload.Some?)
  }

  /** Applied by a latest such event: its id, payload and encoding. */
  ghost predicate TellsApplied(op: Operation, group: seq<Event>) {
    exists e :: MayApply(e, group) && (forall d | MayApply(d, group) :: NotLater(d, e))
      && op.appliedId == e.id && op.payload == e.payload && op.encoding == e.encoding
  }

  /** The i-th event in time order is the last, accepted or not, that has the column. */
  ghost predicate LastWith(ordered: seq<Event>, i: int, accepted: bool, column: string) {
    && 0 <= i < |ordered| && HasStatus(ordered[i], {"accepted"}) == accepted && column in ordered[i].columns
    && forall j | i < j < |ordered| && HasStatus(ordered[j], {"accepted"}) == accepted :: column !in ordered[j].columns
  }

  ghost predicate Bounds(first: Event, last: Event, group: seq<Event>) {
    first in group && last in group && forall e | e in group :: NotLater(first, e) && NotLater(e, last)
  }

  /** Timed from the first to the last event, and described as the last. */
  ghost predicate SpansFrom(op: Operation, first: Event, last: Event) {
    && op.firstTime == first.timestamp && op.lastTime == last.timestamp
    && op.identity == Identity(last) && op.resource == last.resource && op.resourceType == last.resourceType
    && op.operation == last.operation && op.operationId == last.operationId && op.correlation == last.correlation
    && op.subscription == Lower(if last.subscription.Some? then last.subscription.value else "")
    && (op.paired <==> Correlated(last))
  }

  ghost predicate TellsSpan(op: Operation, group: seq<Event>) {
    && (exists first, last :: Bounds(first, last, group) && SpansFrom(op, first, last))
    && (op.pending <==> exists e :: e in group && e.pending)
  }

  /** Each column is the last accepted event's that has it, and without one the last other's. */
  ghost predicate TellsColumns(op: Operation, ordered: seq<Event>) {
    forall column ::
      && (forall i | LastWith(ordered, i, true, column) ::
            column in op.columns && op.columns[column] == ordered[i].columns[column])
      && (forall i | LastWith(ordered, i, false, column) && (forall j :: !LastWith(ordered, j, true, column)) ::
            column in op.columns && op.columns[column] == ordered[i].columns[column])
      && (column in op.columns ==> exists i, accepted :: LastWith(ordered, i, accepted, column))
  }

  lemma StatusTests(e: Event)
    ensures e.Terminal() <==> HasStatus(e, TERMINAL)
    ensures e.Accepted() <==> HasStatus(e, {"accepted"})
    ensures IsRequest.Holds(e) <==> HasStatus(e, {"accepted", "started"})
  {
    assert Lower("") == "";
  }

  lemma TimeTests()
    ensures forall a, b :: NotLater(a, b) <==> !Earlier(b, a)
  {
  }

  lemma EndsAsItSays(op: Operation, e: Event)
    requires op.terminalId == e.id && op.outcome == OutcomeOf(e.Status())
    ensures EndsAs(op, e)
  {
  }

  /** What the time order's terminal events say. */
  lemma OutcomeOfOrdered(ordered: seq<Event>) returns (e: Option<Event>)
    ensures e.None? ==> NoneWith(ordered, TERMINAL) && Outcome(ordered) == "pending" && TerminalId(ordered) == None
    ensures e.Some? ==>
              IsLatestWith(e.value, ordered, TERMINAL) && Outcome(ordered) == OutcomeOf(e.value.Status())
                && TerminalId(ordered) == e.value.id
  {
    var terminal := Keep(ordered, IsTerminal);
    forall d: Event ensures IsTerminal.Holds(d) <==> HasStatus(d, TERMINAL) { StatusTests(d); }
    if terminal == [] {
      e := None;
      forall d | d in ordered ensures !IsTerminal.Holds(d) { assert d !in terminal; }
    } else {
      LatestIsLatest(terminal);
      TimeTests();
      e := Some(Latest(terminal));
    }
  }

  lemma TellsTheOutcome(group: seq<Event>)
    requires group != []
    ensures TellsOutcome(OperationOf(group), group)
  {
    var ordered := ByTime(group);
    ByTimeSorts(group);
    SameLength(group, ordered);
    var e := OutcomeOfOrdered(ordered);
    if e.Some? {
      assert IsLatestWith(e.value, group, TERMINAL);
      EndsAsItSays(OperationOf(group), e.value);
    }
  }

  lemma TellsTheRequest(group: seq<Event>)
    requires group != []
    ensures TellsRequest(OperationOf(group), group)
  {
    var ordered := ByTime(group);
    ByTimeSorts(group);
    SameLength(group, ordered);
    TimeTests();
    forall e ensures IsRequest.Holds(e) <==> HasStatus(e, {"accepted", "started"}) { StatusTests(e); }
    RequestIsTheEarliest(ordered);
    if !NoneWith(group, {"accepted", "started"}) {
      var r :| r in ordered && IsRequest.Holds(r) && r.id == RequestId(ordered)
          && forall e | e in ordered && IsRequest.Holds(e) :: !Earlier(e, r);
      assert IsEarliestWith(r, group, {"accepted", "started"});
    }
  }

  lemma TellsTheApplied(group: seq<Event>)
    requires group != []
    ensures TellsApplied(OperationOf(group), group)
  {
    var ordered := ByTime(group);
    ByTimeSorts(group);
    SameLength(group, ordered);
    TimeTests();
    forall e: Event ensures e.Accepted() <==> HasStatus(e, {"accepted"}) { StatusTests(e); }
    PoolHolds(ordered);
    CandidatesHold(Pool(ordered));
    KeptIsSome(ordered, IsAccepted);
    var e := Latest(Candidates(Pool(ordered)));
    LatestIsLatest(Candidates(Pool(ordered)));
    PoolIsThePool(group, ordered);
    assert MayApply(e, group);
    assert forall d | MayApply(d, group) :: NotLater(d, e);
  }

  lemma PoolIsThePool(group: seq<Event>, ordered: seq<Event>)
    requires group != [] && ordered != [] && forall e :: e in group <==> e in ordered
    ensures forall e :: MayApply(e, group) <==> e in Candidates(Pool(ordered))
  {
    forall e: Event ensures e.Accepted() <==> HasStatus(e, {"accepted"}) { StatusTests(e); }
    PoolHolds(ordered);
    CandidatesHold(Pool(ordered));
    assert NoneWith(group, {"accepted"}) <==> !HasSome(ordered, IsAccepted) by {
      if HasSome(ordered, IsAccepted) { var d :| d in ordered && IsAccepted.Holds(d); }
      if d :| d in group && HasStatus(d, {"accepted"}) { assert IsAccepted.Holds(d); }
    }
    var payload := exists d :: InPool(d, group) && d.payload.Some?;
    if HasSome(ordered, HasPayload) { var d :| d in ordered && HasPayload.Holds(d); assert d.payload.Some?; }
    assert payload <==> HasSome(Pool(ordered), HasPayload) by {
      if d :| InPool(d, group) && d.payload.Some? {
        assert HasPayload.Holds(d);
        assert d in Pool(ordered);
      }
      if HasSome(Pool(ordered), HasPayload) {
        var d :| d in Pool(ordered) && HasPayload.Holds(d);
        assert InPool(d, group);
      }
    }
  }

  lemma TellsTheColumns(group: seq<Event>)
    requires group != []
    ensures TellsColumns(OperationOf(group), ByTime(group))
  {
    var ordered := ByTime(group);
    forall e: Event ensures e.Accepted() <==> HasStatus(e, {"accepted"}) { StatusTests(e); }
    forall column, i, accepted
      ensures LastWith(ordered, i, accepted, column) <==> Gives(ordered, i, accepted, column)
    {
    }
    forall column
      ensures forall i | LastWith(ordered, i, true, column) ::
                column in OperationOf(group).columns
                  && OperationOf(group).columns[column] == ordered[i].columns[column]
      ensures forall i | LastWith(ordered, i, false, column) && (forall j :: !LastWith(ordered, j, true, column)) ::
                column in OperationOf(group).columns
                  && OperationOf(group).columns[column] == ordered[i].columns[column]
      ensures column in OperationOf(group).columns ==> exists i, accepted :: LastWith(ordered, i, accepted, column)
    {
      AcceptedColumnsWin(ordered, column);
      if column in OperationOf(group).columns {
        var i, accepted :| Gives(ordered, i, accepted, column);
        assert LastWith(ordered, i, accepted, column);
      }
    }
  }

  lemma TellsTheSpan(group: seq<Event>)
    requires group != []
    ensures TellsSpan(OperationOf(group), group)
  {
    var first, last := OperationSpansItsEvents(group);
    forall e | e in group ensures NotLater(first, e) && NotLater(e, last) {}
    assert Bounds(first, last, group);
    assert SpansFrom(OperationOf(group), first, last);
  }

  /** What an operation says of its group of events. */
  ghost predicate Tells(op: Operation, group: seq<Event>) {
    && TellsOutcome(op, group) && TellsRequest(op, group) && TellsApplied(op, group) && TellsSpan(op, group)
    && TellsColumns(op, ByTime(group))
  }

  lemma OperationTells(group: seq<Event>)
    requires group != []
    ensures Tells(OperationOf(group), group)
  {
    TellsTheOutcome(group);
    TellsTheRequest(group);
    TellsTheApplied(group);
    TellsTheSpan(group);
    TellsTheColumns(group);
  }

  /** The group holds, of the last sightings of the events, exactly those of one identity. */
  ghost predicate IsGroup(events: seq<Event>, group: seq<Event>) {
    group != [] && forall d, e | d in group ::
      e in group <==> LastOf(events, Key(e)) == Some(e) && Identity(e) == Identity(d)
  }

  lemma GroupHolds(events: seq<Event>, id: string)
    requires id in Identities(Dedup(events))
    ensures IsGroup(events, GroupOf(Dedup(events), id))
  {
    WhereKeeps(Dedup(events), id);
    DedupKeepsTheLast(events);
  }

  lemma AssembledAt(events: seq<Event>, i: nat)
    requires i < |Assembled(events)|
    ensures Assembled(events)[i] == OperationOf(GroupOf(Dedup(events), Identities(Dedup(events))[i]))
  {
  }

  /**
   * The operations of any events, in terms of the events: each is of a group holding, of the last sightings, exactly
   * those of one operation, and tells their outcome, request, applied event and columns.
   */
  lemma AssembledTellsItsEvents(events: seq<Event>, i: nat) returns (group: seq<Event>)
    requires i < |Assembled(events)|
    ensures IsGroup(events, group) && Tells(Assembled(events)[i], group)
  {
    group := GroupOf(Dedup(events), Identities(Dedup(events))[i]);
    AssembledAt(events, i);
    GroupHolds(events, Identities(Dedup(events))[i]);
    OperationTells(group);
  }

  /** The operation tells of a group of the events. */
  ghost predicate TellsOf(op: Operation, events: seq<Event>) {
    exists group :: IsGroup(events, group) && Tells(op, group)
  }

  lemma AllTell(events: seq<Event>)
    ensures forall op | op in Assembled(events) :: TellsOf(op, events)
  {
    forall op | op in Assembled(events) ensures TellsOf(op, events) {
      var i :| 0 <= i < |Assembled(events)| && Assembled(events)[i] == op;
      var group := AssembledTellsItsEvents(events, i);
    }
  }

  // ---- assembling ----

  lemma GroupIsNonempty(xs: seq<Event>, id: string)
    requires id in Identities(xs)
    ensures Where(xs, id) != []
  {
    IdentitiesAreDistinct(xs);
    WhereKeeps(xs, id);
    var e :| e in xs && Identity(e) == id;
    assert e in Where(xs, id);
  }

  function GroupOf(xs: seq<Event>, id: string): (group: seq<Event>)
    requires id in Identities(xs)
    ensures group != []
  {
    GroupIsNonempty(xs, id);
    Where(xs, id)
  }

  /** One operation for each identity, in order of first appearance. */
  function Assembled(events: seq<Event>): (ops: seq<Operation>)
    ensures |ops| == |Identities(Dedup(events))|
  {
    OperationsFor(Dedup(events), Identities(Dedup(events)))
  }

  function OperationFor(kept: seq<Event>, id: string): Operation
    requires id in Identities(kept)
  {
    OperationOf(GroupOf(kept, id))
  }

  function OperationsFor(kept: seq<Event>, ids: seq<string>): (ops: seq<Operation>)
    requires forall id | id in ids :: id in Identities(kept)
    ensures |ops| == |ids| && forall i | 0 <= i < |ids| :: ops[i] == OperationFor(kept, ids[i])
  {
    seq(|ids|, i requires 0 <= i < |ids| => OperationFor(kept, ids[i]))
  }

  method Assemble(events: seq<Event>) returns (ops: seq<Operation>)
    ensures ops == Assembled(events)
    ensures forall op | op in ops :: TellsOf(op, events)
  {
    var deduped := Collapse(events);
    var order, grouped := Group(deduped);
    forall i | 0 <= i < |order|
      ensures order[i] in grouped && grouped[order[i]] != [] && order[i] in Identities(deduped)
      ensures grouped[order[i]] == GroupOf(deduped, order[i])
    {
      GroupedIsTheGroup(deduped, order, grouped, i);
    }
    ops := seq(|order|, i requires 0 <= i < |order| => OperationOf(grouped[order[i]]));
    SameOperations(deduped, order, grouped, ops);
    AllTell(events);
  }

  lemma GroupedIsTheGroup(kept: seq<Event>, order: seq<string>, grouped: map<string, seq<Event>>, i: nat)
    requires GroupedAs(kept, order, grouped) && i < |order|
    ensures order[i] in grouped && grouped[order[i]] != [] && order[i] in Identities(kept)
    ensures grouped[order[i]] == GroupOf(kept, order[i])
  {
    assert order[i] in order;
    GroupIsNonempty(kept, order[i]);
  }

  lemma SameOperations(kept: seq<Event>, order: seq<string>, grouped: map<string, seq<Event>>, ops: seq<Operation>)
    requires |ops| == |order| && forall id | id in order :: id in Identities(kept)
    requires forall i | 0 <= i < |order| ::
               && order[i] in grouped && grouped[order[i]] == GroupOf(kept, order[i])
               && ops[i] == OperationOf(grouped[order[i]])
    ensures ops == OperationsFor(kept, order)
  {
    forall i | 0 <= i < |order| ensures ops[i] == OperationFor(kept, order[i]) {}
  }

  method Collapse(events: seq<Event>) returns (deduped: seq<Event>)
    ensures deduped == Dedup(events)
  {
    deduped := [];
    for k := 0 to |events|
      invariant deduped == Dedup(events[..k])
    {
      assert events[..k + 1][..k] == events[..k];
      deduped := Put(deduped, events[k]);
    }
    assert events[..|events|] == events;
  }

  ghost predicate GroupedAs(xs: seq<Event>, order: seq<string>, grouped: map<string, seq<Event>>) {
    && order == Identities(xs)
    && (forall id :: id in grouped <==> id in order)
    && (forall id | id in grouped :: grouped[id] == Where(xs, id))
  }

  method Group(xs: seq<Event>) returns (order: seq<string>, grouped: map<string, seq<Event>>)
    ensures GroupedAs(xs, order, grouped)
  {
    order, grouped := [], map[];
    for k := 0 to |xs|
      invariant GroupedAs(xs[..k], order, grouped)
    {
      var id := Identity(xs[k]);
      assert xs[..k + 1][..k] == xs[..k];
      NotYet(xs[..k], id);
      if id !in grouped {
        order := order + [id];
        grouped := grouped[id := [xs[k]]];
      } else {
        grouped := grouped[id := grouped[id] + [xs[k]]];
      }
    }
    assert xs[..|xs|] == xs;
  }

  lemma {:induction false} NotYet(xs: seq<Event>, id: string)
    ensures id !in Identities(xs) ==> Where(xs, id) == []
  {
    if xs != [] { NotYet(xs[..|xs| - 1], id); }
  }

  // ---- every event lands once ----

  lemma OnceOnly(xs: seq<Event>, e: Event)
    requires DistinctKeys(xs) && e in xs
    ensures multiset(xs)[e] == 1
  {
    var i :| 0 <= i < |xs| && xs[i] == e;
    assert xs == xs[..i] + [xs[i]] + xs[i + 1..];
    assert e !in xs[..i] && e !in xs[i + 1..];
  }

  /**
   * Each distinct (subscription, id) of the input is in exactly one operation's events, once, as it
   * was last seen, and its id is listed there.
   */
  lemma EachEventLandsOnce(events: seq<Event>, e: Event) returns (i: nat, last: Event)
    requires e in events
    ensures var kept := Dedup(events);
      var ids := Identities(kept);
      && i < |ids| && LastOf(events, Key(e)) == Some(last)
      && multiset(Where(kept, ids[i]))[last] == 1
      && (forall j, x | 0 <= j < |ids| && x in Where(kept, ids[j]) && Key(x) == Key(e) :: j == i && x == last)
      && (Truthy(last.id) ==> last.id.value in Assembled(events)[i].allIds)
  {
    var kept := Dedup(events);
    var ids := Identities(kept);
    LastOfFinds(events, Key(e));
    last := LastOf(events, Key(e)).value;
    DedupKeepsTheLast(events);
    IdentitiesAreDistinct(kept);
    assert last in kept && Identity(last) in ids;
    i :| 0 <= i < |ids| && ids[i] == Identity(last);
    WhereKeeps(kept, ids[i]);
    OnceOnly(kept, last);
    forall j, x | 0 <= j < |ids| && x in Where(kept, ids[j]) && Key(x) == Key(e) ensures j == i && x == last {
      WhereKeeps(kept, ids[j]);
      DedupKeepsTheLast(events);
    }
    OperationListsItsEvents(kept, ids[i], if Truthy(last.id) then last.id.value else "");
  }

  /** An operation lists exactly the non-empty ids of its own events, and carries their identity. */
  lemma OperationListsItsEvents(kept: seq<Event>, id: string, eventId: string)
    requires id in Identities(kept)
    ensures var op := OperationOf(GroupOf(kept, id));
      && op.identity == id && Increasing(op.allIds)
      && (eventId in op.allIds <==>
           eventId != "" && exists e :: e in kept && Identity(e) == id && e.id == Some(eventId))
  {
    var group := GroupOf(kept, id);
    var ordered := ByTime(group);
    WhereKeeps(kept, id);
    ByTimeSorts(group);
    SameLength(group, ordered);
    SortedIdsAreTheIds(ordered);
    assert ordered[|ordered| - 1] in ordered;
  }

  // ---- repeats and order ----

  function PutAll(xs: seq<Event>, events: seq<Event>): seq<Event> {
    if events == [] then xs else Put(PutAll(xs, events[..|events| - 1]), events[|events| - 1])
  }

  lemma {:induction false} DedupSplits(a: seq<Event>, b: seq<Event>)
    ensures Dedup(a + b) == PutAll(Dedup(a), b)
  {
    if b == [] {
      assert a + b == a;
    } else {
      var before := b[..|b| - 1];
      assert (a + b)[..|a + b| - 1] == a + before;
      DedupSplits(a, before);
    }
  }

  lemma DedupFrom(a: seq<Event>, a': seq<Event>, b: seq<Event>)
    requires Dedup(a) == Dedup(a')
    ensures Dedup(a + b) == Dedup(a' + b)
  {
    DedupSplits(a, b);
    DedupSplits(a', b);
  }

  /** An event repeated as it was last seen changes nothing, wherever it comes. */
  lemma RepeatChangesNothing(a: seq<Event>, e: Event, b: seq<Event>)
    requires LastOf(a, Key(e)) == Some(e)
    ensures Assembled(a + [e] + b) == Assembled(a + b)
  {
    DedupKeepsTheLast(a);
    assert (a + [e])[..|a|] == a;
    var kept := Dedup(a);
    var i := Find(kept, Key(e));
    var j :| 0 <= j < |kept| && kept[j] == e;
    assert kept[i] == e;
    assert Put(kept, e) == kept;
    DedupFrom(a + [e], a, b);
  }

  ghost predicate Consistent(xs: seq<Event>) {
    forall d, e | d in xs && e in xs && Key(d) == Key(e) :: d == e
  }

  lemma LastOfIsTheOne(xs: seq<Event>, e: Event)
    requires Consistent(xs) && e in xs
    ensures LastOf(xs, Key(e)) == Some(e)
  {
    LastOfFinds(xs, Key(e));
  }

  /** Any further sightings of events already seen, in any number and order, change nothing. */
  lemma {:induction false} RepeatsChangeNothing(xs: seq<Event>, again: seq<Event>)
    requires Consistent(xs) && forall e | e in again :: e in xs
    ensures Assembled(xs + again) == Assembled(xs)
  {
    if again == [] {
      assert xs + again == xs;
    } else {
      var e := again[0];
      assert xs + again == xs + [e] + again[1..];
      LastOfIsTheOne(xs, e);
      RepeatChangesNothing(xs, e, again[1..]);
      RepeatsChangeNothing(xs, again[1..]);
    }
  }

  lemma PutNew(xs: seq<Event>, e: Event)
    requires forall x | x in xs :: Key(x) != Key(e)
    ensures Put(xs, e) == xs + [e]
  {
    forall i | 0 <= i < |xs| ensures Key(xs[i]) != Key(e) { assert xs[i] in xs; }
  }

  lemma DistinctPrefix(xs: seq<Event>)
    requires DistinctKeys(xs) && xs != []
    ensures DistinctKeys(xs[..|xs| - 1]) && forall x | x in xs[..|xs| - 1] :: Key(x) != Key(xs[|xs| - 1])
  {
  }

  lemma DedupLast(before: seq<Event>, e: Event)
    ensures Dedup(before + [e]) == Put(Dedup(before), e)
  {
    assert (before + [e])[..|before|] == before;
  }

  lemma {:induction false} DistinctIsKept(xs: seq<Event>)
    requires DistinctKeys(xs)
    ensures Dedup(xs) == xs
  {
    if xs != [] {
      DistinctPrefix(xs);
      var before, last := xs[..|xs| - 1], xs[|xs| - 1];
      DistinctIsKept(before);
      assert before + [last] == xs;
      DedupLast(before, last);
      PutNew(before, last);
    }
  }

  /** Distinct events have distinct keys and, within one identity, distinct parsed times. */
  ghost predicate ToldApart(xs: seq<Event>) {
    && (forall e | e in xs :: multiset(xs)[e] == 1)
    && (forall d, e | d in xs && e in xs && d != e :: Key(d) != Key(e) && (Identity(d) == Identity(e) ==> d.at != e.at))
  }

  lemma OnceEach(xs: seq<Event>)
    requires forall e | e in xs :: multiset(xs)[e] == 1
    ensures forall i, j | 0 <= i < j < |xs| :: xs[i] != xs[j]
  {
    forall i, j | 0 <= i < j < |xs| ensures xs[i] != xs[j] {
      assert xs == xs[..j] + xs[j..];
      assert xs[i] in xs[..j] && xs[j] in xs[j..];
      assert multiset(xs)[xs[i]] == multiset(xs[..j])[xs[i]] + multiset(xs[j..])[xs[i]];
    }
  }

  lemma GroupsTellApart(xs: seq<Event>, id: string)
    requires ToldApart(xs)
    ensures DistinctTimes(ByTime(Where(xs, id))) && InOrder(ByTime(Where(xs, id)))
  {
    var s := ByTime(Where(xs, id));
    WhereKeeps(xs, id);
    ByTimeSorts(Where(xs, id));
    SameLength(s, Where(xs, id));
    OnceEach(s);
    forall i, j | 0 <= i < j < |s| ensures s[i].at != s[j].at { assert s[i] in s && s[j] in s; }
  }

  lemma SameGroup(xs: seq<Event>, ys: seq<Event>, id: string)
    requires multiset(xs) == multiset(ys)
    ensures multiset(ByTime(Where(xs, id))) == multiset(ByTime(Where(ys, id)))
  {
    WhereKeeps(xs, id);
    WhereKeeps(ys, id);
    forall e ensures multiset(Where(xs, id))[e] == multiset(Where(ys, id))[e] {}
    assert multiset(Where(xs, id)) == multiset(Where(ys, id));
    ByTimeSorts(Where(xs, id));
    ByTimeSorts(Where(ys, id));
  }

  lemma SameGroupSameOrder(xs: seq<Event>, ys: seq<Event>, id: string)
    requires multiset(xs) == multiset(ys) && ToldApart(xs)
    ensures ByTime(Where(xs, id)) == ByTime(Where(ys, id))
  {
    GroupsTellApart(xs, id);
    SameGroup(xs, ys, id);
    ByTimeSorts(Where(ys, id));
    OneOrder(ByTime(Where(xs, id)), ByTime(Where(ys, id)));
  }

  ghost function Operations(events: seq<Event>): set<Operation> {
    set op | op in Assembled(events)
  }

  lemma IdentityIsKept(xs: seq<Event>, ys: seq<Event>, id: string)
    requires multiset(xs) == multiset(ys) && id in Identities(xs)
    ensures id in Identities(ys)
  {
    SameLength(xs, ys);
    IdentitiesAreDistinct(xs);
    IdentitiesAreDistinct(ys);
    var e :| e in xs && Identity(e) == id;
    assert e in ys;
  }

  lemma PermutedIsIncluded(xs: seq<Event>, ys: seq<Event>, i: nat) returns (j: nat)
    requires multiset(xs) == multiset(ys) && ToldApart(xs) && Dedup(xs) == xs && Dedup(ys) == ys
    requires i < |Assembled(xs)|
    ensures j < |Assembled(ys)| && Assembled(ys)[j] == Assembled(xs)[i]
  {
    var id := Identities(xs)[i];
    IdentityIsKept(xs, ys, id);
    j :| 0 <= j < |Identities(ys)| && Identities(ys)[j] == id;
    SameGroupSameOrder(xs, ys, id);
    SameOperation(GroupOf(xs, id), GroupOf(ys, id));
    assert OperationFor(xs, id) == OperationFor(ys, id);
  }

  /** A fold sees its group only in time order. */
  lemma SameOperation(a: seq<Event>, b: seq<Event>)
    requires a != [] && b != [] && ByTime(a) == ByTime(b)
    ensures OperationOf(a) == OperationOf(b)
  {
  }

  /** The order of such events does not matter: every permutation assembles to the same operations. */
  lemma OrderDoesNotMatter(xs: seq<Event>, ys: seq<Event>)
    requires multiset(xs) == multiset(ys) && ToldApart(xs)
    ensures Operations(xs) == Operations(ys)
  {
    SameLength(xs, ys);
    assert ToldApart(ys) by { forall e | e in ys ensures multiset(ys)[e] == 1 { assert e in xs; } }
    ToldApartIsKept(xs);
    ToldApartIsKept(ys);
    AllIncluded(xs, ys);
    AllIncluded(ys, xs);
  }

  lemma AllIncluded(xs: seq<Event>, ys: seq<Event>)
    requires multiset(xs) == multiset(ys) && ToldApart(xs) && Dedup(xs) == xs && Dedup(ys) == ys
    ensures Operations(xs) <= Operations(ys)
  {
    var a, b := Assembled(xs), Assembled(ys);
    forall i | 0 <= i < |a| ensures a[i] in b { var j := PermutedIsIncluded(xs, ys, i); }
  }

  lemma ToldApartIsKept(xs: seq<Event>)
    requires ToldApart(xs)
    ensures Dedup(xs) == xs
  {
    OnceEach(xs);
    forall i, j | 0 <= i < j < |xs| ensures Key(xs[i]) != Key(xs[j]) { assert xs[i] in xs && xs[j] in xs; }
    DistinctIsKept(xs);
  }
}
