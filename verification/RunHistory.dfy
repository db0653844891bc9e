/** Run history: rows keyed by inverted start time, closed once, read newest-first page by page. */
module RunHistory {
  import opened Options
  import opened Decimals

  const MAX_MS: nat := 99_999_999_999_999

  /** Start times are microseconds since the epoch; the key keeps the milliseconds. */
  function Millis(startedAt: nat): nat { startedAt / 1000 }

  function RowKey(startedAt: nat, uuid: string): string
    requires Millis(startedAt) <= MAX_MS
  {
    Dec(MAX_MS - Millis(startedAt), 14) + "-" + uuid
  }

  /** Keys order opposite to the start in milliseconds, and by uuid within one millisecond. */
  lemma KeysOrderNewestFirst(s: nat, u: string, t: nat, v: string)
    requires Millis(s) <= MAX_MS && Millis(t) <= MAX_MS
    ensures Less(RowKey(s, u), RowKey(t, v)) <==>
            s / 1000 > t / 1000 || (s / 1000 == t / 1000 && Less(u, v))
  {
    Pow10Of14();
    PaddedOrder(MAX_MS - Millis(s), MAX_MS - Millis(t), 14, u, v);
  }

  lemma PaddedOrder(a: nat, b: nat, width: nat, u: string, v: string)
    requires width >= 1 && a < Pow10(width) && b < Pow10(width)
    ensures Less(Dec(a, width) + "-" + u, Dec(b, width) + "-" + v) <==> a < b || (a == b && Less(u, v))
  {
    DecOrderExactly(a, b, width);
    SuffixOrder(Dec(a, width), Dec(b, width), u, v);
    if Dec(a, width) == Dec(b, width) { DecInjective(a, b, width); }
  }

  lemma SuffixOrder(x: string, y: string, u: string, v: string)
    requires |x| == |y|
    ensures Less(x + "-" + u, y + "-" + v) <==> Less(x, y) || (x == y && Less(u, v))
  {
    LessAppend(x, y, "-" + u, "-" + v);
    LessAppend("-", "-", u, v);
    LessIsStrict("-");
    assert x + "-" + u == x + ("-" + u) && y + "-" + v == y + ("-" + v);
  }

  datatype Status = Running | Closed(outcome: string, completedAt: nat)

  datatype Row = Row(key: string, startedAt: nat, instance: nat, status: Status)

  ghost predicate WellKeyed(r: Row) {
    Millis(r.startedAt) <= MAX_MS && exists u :: r.key == RowKey(r.startedAt, u)
  }

  ghost predicate InKeyOrder(rows: seq<Row>) {
    forall i, j | 0 <= i < j < |rows| :: Less(rows[i].key, rows[j].key)
  }

  // ---- the table partition of one pipeline, as the service returns it: in key order ----

  /** The position a new key takes. */
  function Position(rows: seq<Row>, key: string): (k: nat)
    ensures k <= |rows|
    ensures forall i | 0 <= i < k :: Less(rows[i].key, key)
    ensures k < |rows| ==> !Less(rows[k].key, key)
  {
    if rows == [] || !Less(rows[0].key, key) then 0 else 1 + Position(rows[1..], key)
  }

  class HistoryTable {
    var rows: seq<Row>

    ghost predicate Valid()
      reads this
    {
      InKeyOrder(rows) && forall r | r in rows :: WellKeyed(r)
    }

    constructor ()
      ensures Valid() && rows == []
    {
      rows := [];
    }

    /** A key the table already holds makes create_entity raise. */
    method OpenRow(startedAt: nat, uuid: string, instance: nat) returns (ok: bool)
      requires Valid() && Millis(startedAt) <= MAX_MS
      modifies this
      ensures Valid()
      ensures ok <==> forall r | r in old(rows) :: r.key != RowKey(startedAt, uuid)
      ensures !ok ==> rows == old(rows)
      ensures ok ==>
                multiset(rows)
                == multiset(old(rows)) + multiset{Row(RowKey(startedAt, uuid), startedAt, instance, Running)}
    {
      var key := RowKey(startedAt, uuid);
      var k := Position(rows, key);
      if k < |rows| && rows[k].key == key {
        return false;
      }
      InsertKeepsOrder(rows, k, Row(key, startedAt, instance, Running));
      assert WellKeyed(Row(key, startedAt, instance, Running));
      rows := rows[..k] + [Row(key, startedAt, instance, Running)] + rows[k..];
      return true;
    }

    /** Only a row still running is closed, so whichever closer comes first wins. */
    method CloseByInstance(instance: nat, outcome: string, completedAt: nat) returns (closed: bool)
      requires Valid()
      modifies this
      ensures Valid()
      ensures rows == CloseRows(old(rows), instance, outcome, completedAt)
      ensures |rows| == |old(rows)| && forall i | 0 <= i < |rows| ::
                rows[i] == if old(rows)[i].instance == instance && old(rows)[i].status == Running
                           then old(rows)[i].(status := Closed(outcome, completedAt)) else old(rows)[i]
      ensures closed <==> exists r :: r in old(rows) && r.instance == instance && r.status.Running?
    {
      closed := false;
      ghost var before := rows;
      CloseKeepsKeys(rows, instance, outcome, completedAt);
      for k := 0 to |rows|
        invariant |rows| == |before|
        invariant forall i | 0 <= i < |rows| :: rows[i] == if i < k
            then CloseRow(before[i], instance, outcome, completedAt) else before[i]
        invariant closed <==> exists i :: 0 <= i < k && before[i].instance == instance && before[i].status.Running?
      {
        if rows[k].instance == instance && rows[k].status.Running? {
          rows := rows[k := rows[k].(status := Closed(outcome, completedAt))];
          closed := true;
        }
      }
      assert rows == CloseRows(before, instance, outcome, completedAt);
    }

    /** At most limit rows after the continuation, and never fewer than one if there is one. */
    method ListByPipeline(limit: int, after: string) returns (runs: seq<Row>)
      ensures runs == Page(Following(rows, after), limit)
      ensures IsPage(runs, Following(rows, after), limit)
    {
      runs := [];
      assert rows[..0] == [] && rows[..|rows|] == rows;
      for k := 0 to |rows|
        invariant runs == Following(rows[..k], after)
        invariant |runs| < limit || runs == []
      {
        FollowingOneMore(rows, k, after);
        if after == "" || Less(after, rows[k].key) {
          runs := runs + [rows[k]];
          if |runs| >= limit {
            FollowingStartsWith(rows, k + 1, after);
            return;
          }
        }
      }
    }

    /** One page and the continuation, which is absent once a page comes back short or empty. */
    method History(limit: int, after: string) returns (runs: seq<Row>, next: Option<string>)
      ensures runs == Page(Following(rows, after), limit)
      ensures next == Continuation(runs, limit)
      ensures IsPage(runs, Following(rows, after), limit)
      ensures next.Some? <==> runs != [] && |runs| >= limit
      ensures next.Some? ==> next.value == runs[|runs| - 1].key
    {
      runs := ListByPipeline(limit, after);
      next := if |runs| >= limit && runs != [] then Some(runs[|runs| - 1].key) else None;
    }

    /** A client that follows nextContinuation until it is null sees every run exactly once, newest first. */
    method ReadAll(limit: int) returns (all: seq<Row>)
      requires Valid()
      ensures all == rows
    {
      var after := "";
      all := [];
      FollowingNothing(rows);
      while true
        invariant all + Following(rows, after) == rows
        decreases |rows| - |all|
      {
        var runs, next := History(limit, after);
        PageLeavesTheRest(rows, all, after, limit);
        all := all + runs;
        if next.None? { return; }
        after := next.value;
      }
    }
  }

  function CloseRow(r: Row, instance: nat, outcome: string, completedAt: nat): Row {
    if r.instance == instance && r.status.Running? then r.(status := Closed(outcome, completedAt)) else r
  }

  function CloseRows(rows: seq<Row>, instance: nat, outcome: string, completedAt: nat): seq<Row> {
    seq(|rows|, i requires 0 <= i < |rows| => CloseRow(rows[i], instance, outcome, completedAt))
  }

  function Following(rows: seq<Row>, after: string): seq<Row> {
    if rows == [] then []
    else (if after == "" || Less(after, rows[0].key) then [rows[0]] else []) + Following(rows[1..], after)
  }

  function Page(matching: seq<Row>, limit: int): seq<Row> {
    if matching == [] then [] else if limit <= 1 then matching[..1] else if |matching| <= limit then matching
        else matching[..limit]
  }

  /** The first rows there are, up to the limit or one. */
  predicate IsPage(runs: seq<Row>, matching: seq<Row>, limit: int) {
    && runs <= matching
    && (|runs| == |matching| || |runs| == if limit < 1 then 1 else limit)
    && |runs| <= if limit < 1 then 1 else limit
  }

  function Continuation(runs: seq<Row>, limit: int): Option<string> {
    if |runs| >= limit && runs != [] then Some(runs[|runs| - 1].key) else None
  }

  /** The completion activity and the reconciler never fight: the first close stands. */
  lemma FirstCloseStands(rows: seq<Row>, instance: nat, o1: string, t1: nat, o2: string, t2: nat)
    ensures CloseRows(CloseRows(rows, instance, o1, t1), instance, o2, t2) == CloseRows(rows, instance, o1, t1)
  {
  }

  /** In key order, an earlier position never started a millisecond later. */
  lemma KeyOrderIsNewestFirst(rows: seq<Row>, i: nat, j: nat)
    requires InKeyOrder(rows) && i < j < |rows|
    requires forall r | r in rows :: WellKeyed(r)
    ensures rows[i].startedAt / 1000 >= rows[j].startedAt / 1000
  {
    assert rows[i] in rows && rows[j] in rows;
    var u :| rows[i].key == RowKey(rows[i].startedAt, u);
    var v :| rows[j].key == RowKey(rows[j].startedAt, v);
    KeysOrderNewestFirst(rows[i].startedAt, u, rows[j].startedAt, v);
  }

  lemma RestIsGreater(rows: seq<Row>, k: nat, key: string)
    requires InKeyOrder(rows) && k == Position(rows, key) && (k < |rows| ==> rows[k].key != key)
    ensures forall i | k <= i < |rows| :: Less(key, rows[i].key)
  {
    forall i | k <= i < |rows| ensures Less(key, rows[i].key) {
      LessTotal(rows[k].key, key);
      if k < i { LessTrans(key, rows[k].key, rows[i].key); }
    }
  }

  lemma NewKeyIsNew(rows: seq<Row>, k: nat, key: string)
    requires k <= |rows| && (forall i | 0 <= i < k :: Less(rows[i].key, key))
        && (forall i | k <= i < |rows| :: Less(key, rows[i].key))
    ensures forall x | x in rows :: x.key != key
  {
    LessIsStrict(key);
  }

  lemma SpliceAddsOne(rows: seq<Row>, k: nat, r: Row)
    requires k <= |rows|
    ensures multiset(rows[..k] + [r] + rows[k..]) == multiset(rows) + multiset{r}
  {
    assert rows == rows[..k] + rows[k..];
  }

  lemma InsertKeepsOrder(rows: seq<Row>, k: nat, r: Row)
    requires InKeyOrder(rows) && k == Position(rows, r.key) && (k < |rows| ==> rows[k].key != r.key)
    ensures InKeyOrder(rows[..k] + [r] + rows[k..])
    ensures forall x | x in rows :: x.key != r.key
    ensures multiset(rows[..k] + [r] + rows[k..]) == multiset(rows) + multiset{r}
  {
    RestIsGreater(rows, k, r.key);
    NewKeyIsNew(rows, k, r.key);
    SpliceAddsOne(rows, k, r);
    SpliceKeepsOrder(rows, k, r);
  }

  lemma SpliceKeepsOrder(rows: seq<Row>, k: nat, r: Row)
    requires InKeyOrder(rows) && k <= |rows|
    requires (forall i | 0 <= i < k :: Less(rows[i].key, r.key))
        && (forall i | k <= i < |rows| :: Less(r.key, rows[i].key))
    ensures InKeyOrder(rows[..k] + [r] + rows[k..])
  {
    var all := rows[..k] + [r] + rows[k..];
    forall i | 0 <= i < |all| ensures all[i] == if i < k then rows[i] else if i == k then r else rows[i - 1] {}
    forall i, j | 0 <= i < j < |all| ensures Less(all[i].key, all[j].key) {}
  }

  /** The rows after a continuation are those of greater key, or all, in their order. */
  lemma {:induction false} FollowingAreTheGreater(rows: seq<Row>, after: string, r: Row)
    ensures r in Following(rows, after) <==> r in rows && (after == "" || Less(after, r.key))
    ensures InKeyOrder(rows) ==> InKeyOrder(Following(rows, after))
  {
    if rows != [] {
      FollowingAreTheGreater(rows[1..], after, r);
      assert rows == [rows[0]] + rows[1..];
      var rest := Following(rows[1..], after);
      forall i | 0 <= i < |rest| && InKeyOrder(rows) ensures Less(rows[0].key, rest[i].key) {
        FollowingAreTheGreater(rows[1..], after, rest[i]);
        assert rest[i] in rest;
      }
    }
  }

  lemma {:induction false} FollowingSplits(a: seq<Row>, b: seq<Row>, after: string)
    ensures Following(a + b, after) == Following(a, after) + Following(b, after)
  {
    if a == [] {
      assert a + b == b;
    } else {
      var tail := a[1..];
      var head := if after == "" || Less(after, a[0].key) then [a[0]] else [];
      FollowingSplits(tail, b, after);
      assert (a + b)[0] == a[0] && (a + b)[1..] == tail + b;
      assert head + (Following(tail, after) + Following(b, after)) ==
          (head + Following(tail, after)) + Following(b, after);
    }
  }

  lemma FollowingStartsWith(rows: seq<Row>, k: nat, after: string)
    requires k <= |rows|
    ensures Following(rows[..k], after) <= Following(rows, after)
  {
    FollowingSplits(rows[..k], rows[k..], after);
    assert rows == rows[..k] + rows[k..];
  }

  lemma FollowingOneMore(rows: seq<Row>, k: nat, after: string)
    requires k < |rows|
    ensures Following(rows[..k + 1], after) == Following(rows[..k], after) + if after == "" || Less(after, rows[k].key)
        then [rows[k]] else []
  {
    FollowingSplits(rows[..k], [rows[k]], after);
    assert rows[..k + 1] == rows[..k] + [rows[k]];
    assert [rows[k]][1..] == [];
  }

  lemma {:induction false} FollowingNothing(rows: seq<Row>)
    ensures Following(rows, "") == rows
  {
    if rows != [] { FollowingNothing(rows[1..]); }
  }

  lemma {:induction false} FollowingNone(rows: seq<Row>, after: string)
    requires after != "" && forall r | r in rows :: !Less(after, r.key)
    ensures Following(rows, after) == []
  {
    if rows != [] { FollowingNone(rows[1..], after); }
  }

  lemma {:induction false} FollowingAll(rows: seq<Row>, after: string)
    requires forall r | r in rows :: Less(after, r.key)
    ensures Following(rows, after) == rows
  {
    if rows != [] { FollowingAll(rows[1..], after); }
  }

  lemma NoneBeforeFollows(rows: seq<Row>, k: nat)
    requires InKeyOrder(rows) && 0 < k <= |rows|
    ensures forall r | r in rows[..k] :: !Less(rows[k - 1].key, r.key)
  {
    var after := rows[k - 1].key;
    LessIsStrict(after);
    forall i | 0 <= i < k ensures !Less(after, rows[i].key) {
      if i < k - 1 && Less(after, rows[i].key) { LessTrans(after, rows[i].key, after); }
    }
  }

  lemma AllAfterFollow(rows: seq<Row>, k: nat)
    requires InKeyOrder(rows) && 0 < k <= |rows|
    ensures forall r | r in rows[k..] :: Less(rows[k - 1].key, r.key)
  {
  }

  lemma FollowingCut(rows: seq<Row>, k: nat, after: string)
    requires k <= |rows| && after != ""
    requires (forall r | r in rows[..k] :: !Less(after, r.key)) && (forall r | r in rows[k..] :: Less(after, r.key))
    ensures Following(rows, after) == rows[k..]
  {
    FollowingNone(rows[..k], after);
    FollowingAll(rows[k..], after);
    FollowingSplits(rows[..k], rows[k..], after);
    assert rows == rows[..k] + rows[k..];
  }

  /** The rows after the k-th key are exactly the rest. */
  lemma FollowingTheLast(rows: seq<Row>, k: nat)
    requires InKeyOrder(rows) && 0 < k <= |rows| && rows[k - 1].key != ""
    ensures Following(rows, rows[k - 1].key) == rows[k..]
  {
    NoneBeforeFollows(rows, k);
    AllAfterFollow(rows, k);
    FollowingCut(rows, k, rows[k - 1].key);
  }

  lemma CloseKeepsKeys(rows: seq<Row>, instance: nat, outcome: string, completedAt: nat)
    requires InKeyOrder(rows) && forall r | r in rows :: WellKeyed(r)
    ensures InKeyOrder(CloseRows(rows, instance, outcome, completedAt))
    ensures forall r | r in CloseRows(rows, instance, outcome, completedAt) :: WellKeyed(r)
  {
    var closed := CloseRows(rows, instance, outcome, completedAt);
    forall r | r in closed ensures WellKeyed(r) {
      var i :| 0 <= i < |closed| && closed[i] == r;
      assert WellKeyed(rows[i]) && r.key == rows[i].key && r.startedAt == rows[i].startedAt;
    }
  }

  /** After one page, what follows its continuation is what the page left; without one, nothing is left. */
  lemma PageLeavesTheRest(rows: seq<Row>, all: seq<Row>, after: string, limit: int)
    requires InKeyOrder(rows) && (forall r | r in rows :: WellKeyed(r)) && all + Following(rows, after) == rows
    ensures var runs := Page(Following(rows, after), limit);
      match Continuation(runs, limit)
      case None => all + runs == rows
      case Some(next) => |runs| > 0 && all + runs + Following(rows, next) == rows
  {
    var rest := Following(rows, after);
    var runs := Page(rest, limit);
    var read := all + runs;
    assert rest == runs + rest[|runs|..];
    assert rows == read + rest[|runs|..];
    if runs != [] {
      LastOfPrefix(rows, read, runs[|runs| - 1]);
      FollowingTheLast(rows, |read|);
    }
  }

  lemma LastOfPrefix(rows: seq<Row>, read: seq<Row>, last: Row)
    requires read != [] && read <= rows && read[|read| - 1] == last && forall r | r in rows :: WellKeyed(r)
    ensures rows[|read| - 1] == last && last.key != ""
  {
    assert rows[|read| - 1] in rows && WellKeyed(last);
    var u :| last.key == RowKey(last.startedAt, u);
    assert last.key[|last.key| - |u| - 1] == '-';
  }
}
