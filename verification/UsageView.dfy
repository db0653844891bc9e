/** The 30-day usage view read from projection rows, and its zero/null stand-in for resources without one. */
module UsageView {
  import opened Options
  import opened UsageStorage
  import opened UsageRollup
  import opened Text

  const DAYS: nat := 30

  /** The loaded window of the dataset's state record. */
  datatype Coverage = Coverage(start: nat, end: nat)

  datatype Summary = Summary(hours: Series, cost: Series, hourTotals: seq<Option<real>>, costTotals: seq<Option<real>>)

  /** The i-th day shown. */
  function Day(c: Coverage, i: nat): nat
    requires c.end >= DAYS && i < DAYS
  {
    c.end - (DAYS - 1) + i
  }

  function Shown(row: RingRow, m: Metric, c: Coverage): Series
    requires c.end >= DAYS
  {
    seq(DAYS, i requires 0 <= i < DAYS =>
      if Day(c, i) < c.start then None else Some(OrZero(SlotValue(row, Day(c, i), m))))
  }

  ghost predicate HasCurrentValue(row: RingRow, c: Coverage)
    requires c.end >= DAYS
  {
    exists i :: 0 <= i < DAYS && CurrentAt(row, c, i)
  }

  predicate CurrentAt(row: RingRow, c: Coverage, i: nat)
    requires c.end >= DAYS && i < DAYS
  {
    c.start <= Day(c, i) && (SlotValue(row, Day(c, i), Hours).Some? || SlotValue(row, Day(c, i), Cost).Some?)
  }

  function Summarised(hours: Series, cost: Series): Summary {
    Summary(hours, cost, Rollings(hours), Rollings(cost))
  }

  lemma OneMoreDay(series: Series, i: nat)
    requires i < |series|
    ensures series[..i + 1] == series[..i] + [series[i]]
  {
  }

  /** One projection row's summary; a row without a value in the window gives none. */
  method Summarise(row: RingRow, c: Coverage) returns (summary: Option<Summary>)
    requires c.end >= DAYS
    ensures summary == if HasCurrentValue(row, c) then Some(Summarised(Shown(row, Hours, c), Shown(row, Cost, c)))
        else None
    ensures summary.Some? ==>
              && summary.value.hours == Shown(row, Hours, c) && summary.value.cost == Shown(row, Cost, c)
              && AreRollings(summary.value.hourTotals, summary.value.hours)
              && AreRollings(summary.value.costTotals, summary.value.cost)
  {
    RollingsAre(Shown(row, Hours, c));
    RollingsAre(Shown(row, Cost, c));
    var hours: Series, costs: Series := [], [];
    var current := false;
    for i := 0 to DAYS
      invariant hours == Shown(row, Hours, c)[..i] && costs == Shown(row, Cost, c)[..i]
      invariant current <==> exists j :: 0 <= j < i && CurrentAt(row, c, j)
    {
      var day := Day(c, i);
      OneMoreDay(Shown(row, Hours, c), i);
      OneMoreDay(Shown(row, Cost, c), i);
      if day < c.start {
        hours, costs := hours + [None], costs + [None];
      } else {
        var h, k := SlotValue(row, day, Hours), SlotValue(row, day, Cost);
        hours, costs := hours + [Some(OrZero(h))], costs + [Some(OrZero(k))];
        current := current || h.Some? || k.Some?;
      }
      assert CurrentAt(row, c, i) ==> current;
    }
    assert Shown(row, Hours, c)[..DAYS] == Shown(row, Hours, c) && Shown(row, Cost, c)[..DAYS] == Shown(row, Cost, c);
    summary := if current then Some(Summarised(hours, costs)) else None;
  }

  /** The stand-in: null before coverage or without data, zero elsewhere. */
  function EmptyUsage(c: Coverage, available: bool): Summary
    requires c.end >= DAYS
  {
    var values: Series := seq(DAYS, i requires 0 <= i < DAYS => if !available || Day(c, i) < c.start then None
        else Some(0.0));
    Summarised(values, values)
  }

  /** Without a current projection everything is missing. */
  lemma UnavailableIsMissing(c: Coverage, i: nat)
    requires c.end >= DAYS && i < DAYS
    ensures EmptyUsage(c, false).hours[i] == None && EmptyUsage(c, false).cost[i] == None
    ensures EmptyUsage(c, false).hourTotals == [None, None, None] == EmptyUsage(c, false).costTotals
  {
    var values := EmptyUsage(c, false).hours;
    RollingsAre(values);
    forall days: nat | 1 <= days <= DAYS ensures Rolling(values, days) == None {
      assert values[|values| - days..][0] == None;
    }
  }

  /** A resource without writes, and every row the view drops, would have shown exactly the stand-in. */
  lemma DroppedRowsLookEmpty(row: RingRow, c: Coverage)
    requires c.end >= DAYS && !HasCurrentValue(row, c)
    ensures Summarised(Shown(row, Hours, c), Shown(row, Cost, c)) == EmptyUsage(c, true)
    ensures !HasCurrentValue(NO_ROW, c)
  {
    assert forall i | 0 <= i < DAYS :: !CurrentAt(NO_ROW, c, i);
    var empty := EmptyUsage(c, true).hours;
    forall i | 0 <= i < DAYS ensures Shown(row, Hours, c)[i] == empty[i] && Shown(row, Cost, c)[i] == empty[i] {
      assert !CurrentAt(row, c, i);
    }
    assert Shown(row, Hours, c) == empty && Shown(row, Cost, c) == empty;
  }

  /** In the projection's window every covered day shows the daily row's value, zero without one. */
  lemma ViewShowsTheDailyRows(daily: Daily, ring: Ring, subs: Subscriptions, horizon: nat, resource: string,
      c: Coverage, m: Metric, i: nat)
    requires Refines(daily, ring, subs, horizon) && resource != "" && subs(resource).Some?
    requires c.end >= DAYS && i < DAYS
    ensures var row, day := RowAt(ring, (subs(resource).value, resource)), Day(c, i);
      && (day < c.start ==> Shown(row, m, c)[i] == None)
      && (day >= c.start && horizon < day + SUMMARY_DAYS ==> ShowsDaily(daily, ring, subs, resource, c, m, i))
  {
    var row, day := RowAt(ring, (subs(resource).value, resource)), Day(c, i);
    if horizon < day + SUMMARY_DAYS {
      if day <= horizon {
        assert SlotValue(row, day, m) == DailyValue(daily, resource, day, m);
      } else {
        AbsentOutsideTheHorizon(daily, ring, subs, horizon, resource, m, day);
      }
    }
  }

  lemma AbsentOutsideTheHorizon(daily: Daily, ring: Ring, subs: Subscriptions, horizon: nat, resource: string,
      m: Metric, day: nat)
    requires Refines(daily, ring, subs, horizon) && subs(resource).Some? && horizon < day
    ensures SlotValue(RowAt(ring, (subs(resource).value, resource)), day, m) == None
        && DailyValue(daily, resource, day, m) == None
  {
    var key := (subs(resource).value, resource);
    if key in ring { assert TagsOk(ring[key], horizon); }
    assert (resource, day) !in daily;
  }

  /** The i-th day of the view shows what the daily table has. */
  ghost predicate ShowsDaily(daily: Daily, ring: Ring, subs: Subscriptions, resource: string, c: Coverage, m: Metric,
      i: nat)
    requires c.end >= DAYS && i < DAYS && subs(resource).Some?
  {
    Shown(RowAt(ring, (subs(resource).value, resource)), m, c)[i] ==
        Some(OrZero(DailyValue(daily, resource, Day(c, i), m)))
  }

  // ---- what a slot holds after any writes ----

  predicate Takes(w: Write, subs: Subscriptions, resource: string, m: Metric, slot: nat) {
    w.r.Key() == resource && Projected(w.r, subs, w.end) && w.r.Of(m).Some? && w.r.day % SUMMARY_DAYS == slot
  }

  function LastTaker(writes: seq<Write>, subs: Subscriptions, resource: string, m: Metric, slot: nat): Option<Record>
  {
    if writes == [] then None
    else if Takes(writes[|writes| - 1], subs, resource, m, slot) then Some(writes[|writes| - 1].r)
    else LastTaker(writes[..|writes| - 1], subs, resource, m, slot)
  }

  lemma {:induction false} LastTakerTakes(writes: seq<Write>, subs: Subscriptions, resource: string, m: Metric,
      slot: nat)
    ensures var taker := LastTaker(writes, subs, resource, m, slot);
      && (taker.Some? <==> exists w :: w in writes && Takes(w, subs, resource, m, slot))
      && (taker.Some? ==> exists w :: w in writes && Takes(w, subs, resource, m, slot) && w.r == taker.value)
  {
    if writes != [] {
      var before, last := writes[..|writes| - 1], writes[|writes| - 1];
      LastTakerTakes(before, subs, resource, m, slot);
      assert forall w :: w in writes <==> w in before || w == last;
    }
  }

  /** After any rows written at any horizons a slot holds what its last taker wrote, or what it held before. */
  lemma {:induction false} SlotIsItsLastTakers(ring: Ring, writes: seq<Write>, subs: Subscriptions, resource: string,
      m: Metric, slot: nat)
    requires subs(resource).Some?
    ensures var before, after := RowAt(ring, (subs(resource).value, resource)).Of(m),
        RowAt(RingAfter(ring, writes, subs), (subs(resource).value, resource)).Of(m);
      match LastTaker(writes, subs, resource, m, slot)
      case None => (slot in after <==> slot in before) && (slot in after ==> after[slot] == before[slot])
      case Some(r) => r.Of(m).Some? && slot in after && after[slot] == Tagged(r.day, r.Of(m).value)
  {
    if writes != [] {
      SlotIsItsLastTakers(ring, writes[..|writes| - 1], subs, resource, m, slot);
    }
  }

  /**
   * From empty tables, by any pages at any horizons: a value other than zero was landed for the very resource,
   * metric and day it is shown for.
   */
  lemma NoDayShowsAnothers(writes: seq<Write>, subs: Subscriptions, resource: string, c: Coverage, m: Metric, i: nat)
    requires subs(resource).Some? && c.end >= DAYS && i < DAYS
    ensures var row := RowAt(RingAfter(map[], writes, subs), (subs(resource).value, resource));
      var shown := OrZero(Shown(row, m, c)[i]);
      shown != 0.0 ==>
        exists r :: r in Records(writes) && r.Key() == resource && r.day == Day(c, i) && r.Of(m) == Some(shown)
  {
    var slot := Day(c, i) % SUMMARY_DAYS;
    SlotIsItsLastTakers(map[], writes, subs, resource, m, slot);
    LastTakerTakes(writes, subs, resource, m, slot);
    var taker := LastTaker(writes, subs, resource, m, slot);
    if taker.Some? {
      var w :| w in writes && Takes(w, subs, resource, m, slot) && w.r == taker.value;
      RecordIsWritten(writes, w);
    }
  }

  lemma RecordIsWritten(writes: seq<Write>, w: Write)
    requires w in writes
    ensures w.r in Records(writes)
  {
    var k :| 0 <= k < |writes| && writes[k] == w;
    assert Records(writes)[k] == w.r;
  }

  // ---- covered days after any writes ----

  /** What a slot's content amounts to on a day: what its last taker wrote, if that was for this day. */
  function SlotAmount(taker: Option<Record>, stored: Option<real>, m: Metric, day: nat): real {
    match taker
    case None => OrZero(stored)
    case Some(r) => if r.day == day then OrZero(r.Of(m)) else 0.0
  }

  /** A day no older than the newest window, after any rows written at any horizons. */
  lemma ShownAfterWrites(daily: Daily, ring: Ring, subs: Subscriptions, horizon: nat, writes: seq<Write>,
      resource: string, c: Coverage, m: Metric, i: nat)
    requires Refines(daily, ring, subs, horizon) && resource != "" && subs(resource).Some?
    requires c.end >= DAYS && i < DAYS && c.start <= Day(c, i) && horizon < Day(c, i) + SUMMARY_DAYS
    ensures Shown(RowAt(RingAfter(ring, writes, subs), (subs(resource).value, resource)), m, c)[i] ==
            Some(SlotAmount(LastTaker(writes, subs, resource, m, Day(c, i) % SUMMARY_DAYS),
                            DailyValue(daily, resource, Day(c, i), m), m, Day(c, i)))
  {
    var day := Day(c, i);
    SlotIsItsLastTakers(ring, writes, subs, resource, m, day % SUMMARY_DAYS);
    if day <= horizon {
      assert SlotValue(RowAt(ring, (subs(resource).value, resource)), day, m) == DailyValue(daily, resource, day, m);
    } else {
      AbsentOutsideTheHorizon(daily, ring, subs, horizon, resource, m, day);
    }
  }

  /** A write of another day took the day's slot. */
  ghost predicate Overtaken(writes: seq<Write>, subs: Subscriptions, resource: string, m: Metric, day: nat) {
    exists w :: w in writes && w.r.day != day && Takes(w, subs, resource, m, day % SUMMARY_DAYS)
  }

  /**
   * The exact condition for a day that was in the newest window or later, after any rows of other days written
   * at any horizons, forward or back: it still shows its daily row's value if and only if its slot has not been
   * taken by another day, or it has no usage to show.
   */
  lemma DayIsShownExactlyUnlessOvertaken(daily: Daily, ring: Ring, subs: Subscriptions, horizon: nat,
      writes: seq<Write>, resource: string, c: Coverage, m: Metric, i: nat)
    requires Refines(daily, ring, subs, horizon) && resource != "" && subs(resource).Some?
    requires c.end >= DAYS && i < DAYS && c.start <= Day(c, i) && horizon < Day(c, i) + SUMMARY_DAYS
    requires !Carries(Records(writes), m, resource, Day(c, i))
    ensures ShowsDaily(DailyAfter(daily, Records(writes)), RingAfter(ring, writes, subs), subs, resource, c, m, i) <==>
            !Overtaken(writes, subs, resource, m, Day(c, i)) || OrZero(DailyValue(daily, resource, Day(c, i), m)) == 0.0
  {
    var slot := Day(c, i) % SUMMARY_DAYS;
    ShownAfterWrites(daily, ring, subs, horizon, writes, resource, c, m, i);
    UnwrittenCellStays(daily, Records(writes), resource, m, Day(c, i));
    LastTakerTakes(writes, subs, resource, m, slot);
    forall w | w in writes && Takes(w, subs, resource, m, slot) ensures w.r.day != Day(c, i) {
      RecordIsWritten(writes, w);
    }
  }

  function LastWriter(writes: seq<Write>, resource: string, m: Metric, day: nat): Option<Write> {
    if writes == [] then None
    else
      var last := writes[|writes| - 1];
      if last.r.Key() == resource && last.r.day == day && last.r.Of(m).Some? then Some(last)
      else LastWriter(writes[..|writes| - 1], resource, m, day)
  }

  lemma {:induction false} CellIsItsLastWriters(daily: Daily, writes: seq<Write>, resource: string, m: Metric, day: nat)
    ensures DailyValue(DailyAfter(daily, Records(writes)), resource, day, m) ==
      match LastWriter(writes, resource, m, day)
      case None => DailyValue(daily, resource, day, m)
      case Some(w) => w.r.Of(m)
  {
    if writes != [] {
      RecordsOfPrefix(writes);
      CellIsItsLastWriters(daily, writes[..|writes| - 1], resource, m, day);
    }
  }

  /**
   * And if the writes may rewrite the day itself, which changes its daily row but its slot only within its
   * page's window: it shows the daily row's value if and only if the last row to carry the day and the last to
   * take its slot amount to the same.
   */
  lemma RewrittenDayIsShownExactlyWhenEqual(daily: Daily, ring: Ring, subs: Subscriptions, horizon: nat,
      writes: seq<Write>, resource: string, c: Coverage, m: Metric, i: nat)
    requires Refines(daily, ring, subs, horizon) && resource != "" && subs(resource).Some?
    requires c.end >= DAYS && i < DAYS && c.start <= Day(c, i) && horizon < Day(c, i) + SUMMARY_DAYS
    ensures ShowsDaily(DailyAfter(daily, Records(writes)), RingAfter(ring, writes, subs), subs, resource, c, m, i) <==>
            var stored, writer := DailyValue(daily, resource, Day(c, i), m), LastWriter(writes, resource, m, Day(c, i));
            OrZero(if writer.Some? then writer.value.r.Of(m) else stored) ==
            SlotAmount(LastTaker(writes, subs, resource, m, Day(c, i) % SUMMARY_DAYS), stored, m, Day(c, i))
  {
    ShownAfterWrites(daily, ring, subs, horizon, writes, resource, c, m, i);
    CellIsItsLastWriters(daily, writes, resource, m, Day(c, i));
  }

  lemma {:induction false} UnwrittenCellStays(daily: Daily, records: seq<Record>, resource: string, m: Metric, day: nat)
    requires !Carries(records, m, resource, day)
    ensures DailyValue(DailyAfter(daily, records), resource, day, m) == DailyValue(daily, resource, day, m)
  {
    if records != [] {
      var before, last := records[..|records| - 1], records[|records| - 1];
      assert last in records && forall r :: r in before ==> r in records;
      UnwrittenCellStays(daily, before, resource, m, day);
    }
  }

  /** A table of one record. */
  lemma OneRecord(subs: Subscriptions, r: Record)
    requires r.Key() != "" && subs(r.Key()).Some?
    ensures Refines(MergeDaily(map[], r), MergeRing(map[], r, subs, r.day), subs, r.day)
    ensures forall m: Metric :: DailyValue(MergeDaily(map[], r), r.Key(), r.day, m) == r.Of(m)
  {
    assert Refines(map[], map[], subs, r.day);
    MergeKeepsRefines(map[], map[], subs, r.day, r);
  }

  lemma OneWrite(daily: Daily, ring: Ring, subs: Subscriptions, w: Write)
    ensures DailyAfter(daily, Records([w])) == MergeDaily(daily, w.r)
    ensures RingAfter(ring, [w], subs) == MergeRing(ring, w.r, subs, w.end)
  {
    assert Records([w]) == [w.r] && [w.r][..0] == [] && [w][..0] == [];
    assert DailyAfter(daily, []) == daily && RingAfter(ring, [], subs) == ring;
  }

  /** Two days of one slot: the covered day is shown after its own write, and zero is shown after the other's. */
  lemma OtherDayTakesTheSlot(subs: Subscriptions, own: Record, other: Record, end: nat, c: Coverage)
    requires own.Key() != "" && other.Key() == own.Key() && subs(own.Key()).Some?
    requires own.hours.Some? && other.hours.Some?
    requires own.day != other.day && own.day % SUMMARY_DAYS == other.day % SUMMARY_DAYS
    requires Projected(other, subs, end) && OrZero(own.hours) != 0.0
    requires c.start <= c.end == own.day && c.end >= DAYS
    ensures var daily, ring := MergeDaily(map[], own), MergeRing(map[], own, subs, own.day);
      var daily', ring' := MergeDaily(daily, other), MergeRing(ring, other, subs, end);
      && Refines(daily, ring, subs, own.day) && ShowsDaily(daily, ring, subs, own.Key(), c, Hours, DAYS - 1)
      && DailyValue(daily', own.Key(), own.day, Hours) == own.hours
      && Shown(RowAt(ring', (subs(own.Key()).value, own.Key())), Hours, c)[DAYS - 1] == Some(0.0)
  {
    var resource, day, w := own.Key(), own.day, Write(other, end);
    var daily, ring := MergeDaily(map[], own), MergeRing(map[], own, subs, day);
    assert Day(c, DAYS - 1) == day;
    OneRecord(subs, own);
    ViewShowsTheDailyRows(daily, ring, subs, day, resource, c, Hours, DAYS - 1);
    OneWrite(daily, ring, subs, w);
    ShownAfterWrites(daily, ring, subs, day, [w], resource, c, Hours, DAYS - 1);
    assert Takes(w, subs, resource, Hours, day % SUMMARY_DAYS);
    assert LastTaker([w], subs, resource, Hours, day % SUMMARY_DAYS) == Some(other);
  }

  /**
   * A failed refresh can make the view wrong: day d had two hours and its coverage was recorded; the
   * refresh at d + 30 lands that day's page for the same resource and then fails, and the record stays.
   */
  lemma OvertakenDayShowsZero(subs: Subscriptions, resource: string, d: nat)
    requires resource != "" && Norm(resource) == resource && subs(resource).Some? && d >= DAYS
    ensures var c := Coverage(d, d);
      var old_ := Record(resource, d, Some(2.0), None);
      var new_ := Record(resource, d + SUMMARY_DAYS, Some(3.0), None);
      var daily, ring := MergeDaily(map[], old_), MergeRing(map[], old_, subs, d);
      var daily', ring' := MergeDaily(daily, new_), MergeRing(ring, new_, subs, d + SUMMARY_DAYS);
      && Refines(daily, ring, subs, d) && ShowsDaily(daily, ring, subs, resource, c, Hours, DAYS - 1)
      && Refines(daily', ring', subs, d + SUMMARY_DAYS)
      && DailyValue(daily', resource, d, Hours) == Some(2.0)
      && Shown(RowAt(ring', (subs(resource).value, resource)), Hours, c)[DAYS - 1] == Some(0.0)
  {
    var old_ := Record(resource, d, Some(2.0), None);
    var new_ := Record(resource, d + SUMMARY_DAYS, Some(3.0), None);
    OtherDayTakesTheSlot(subs, old_, new_, d + SUMMARY_DAYS, Coverage(d, d));
    InPlaceKeepsRefines(MergeDaily(map[], old_), MergeRing(map[], old_, subs, d), subs, d, d + SUMMARY_DAYS, new_);
  }

  /**
   * So can a horizon that moved back: days h - 30 to h are covered and day h has five hours.  The finalization
   * lag is then raised by one, and a projection rebuild at h - 1 rewrites its oldest day, h - 30.  Coverage still
   * ends at h, whose daily row still has its five hours, and the view shows zero for it.
   */
  lemma MovedBackHorizonShowsZero(subs: Subscriptions, resource: string, h: nat)
    requires resource != "" && Norm(resource) == resource && subs(resource).Some? && h >= DAYS
    ensures var c := Coverage(h - SUMMARY_DAYS, h);
      var newest := Record(resource, h, Some(5.0), None);
      var oldest := Record(resource, h - SUMMARY_DAYS, Some(2.0), None);
      var daily, ring := MergeDaily(map[], newest), MergeRing(map[], newest, subs, h);
      var daily', ring' := MergeDaily(daily, oldest), MergeRing(ring, oldest, subs, h - 1);
      && oldest.day <= h - 1 && !InPlace(oldest.day, h, h - 1)
      && Refines(daily, ring, subs, h) && ShowsDaily(daily, ring, subs, resource, c, Hours, DAYS - 1)
      && DailyValue(daily', resource, h, Hours) == Some(5.0)
      && Shown(RowAt(ring', (subs(resource).value, resource)), Hours, c)[DAYS - 1] == Some(0.0)
  {
    var newest := Record(resource, h, Some(5.0), None);
    var oldest := Record(resource, h - SUMMARY_DAYS, Some(2.0), None);
    OtherDayTakesTheSlot(subs, newest, oldest, h - 1, Coverage(h - SUMMARY_DAYS, h));
  }
}
