/**
 * Daily usage rows and their 30-slot read projection.  A projection row keeps, per metric and
 * slot (day modulo 30), the newest value written and the day it is for.
 */
module UsageStorage {
  import opened Options
  import opened Text

  const SUMMARY_DAYS: nat := 30

  datatype Metric = Hours | Cost

  /** One mapped query row: a stream fills in its own metric only. */
  datatype Record = Record(resourceId: string, day: nat, hours: Option<real>, cost: Option<real>) {
    function Key(): string { Norm(resourceId) }
    function Of(m: Metric): Option<real> { if m.Hours? then hours else cost }
  }

  datatype DailyRow = DailyRow(hours: Option<real>, cost: Option<real>) {
    function Of(m: Metric): Option<real> { if m.Hours? then hours else cost }
  }

  datatype Tagged = Tagged(day: nat, value: real)

  datatype RingRow = RingRow(hours: map<nat, Tagged>, cost: map<nat, Tagged>) {
    function Of(m: Metric): map<nat, Tagged> { if m.Hours? then hours else cost }
  }

  type Daily = map<(string, nat), DailyRow>

  type Ring = map<(string, string), RingRow>

  type Subscriptions = string -> Option<string>

  const NO_ROW := RingRow(map[], map[])

  // ---- reads ----

  function DailyValue(daily: Daily, resource: string, day: nat, m: Metric): Option<real> {
    if (resource, day) in daily then daily[(resource, day)].Of(m) else None
  }

  /** The slot's value when its tag is the day asked for. */
  function SlotValue(row: RingRow, day: nat, m: Metric): Option<real> {
    var slot := day % SUMMARY_DAYS;
    if slot in row.Of(m) && row.Of(m)[slot].day == day then Some(row.Of(m)[slot].value) else None
  }

  function RowAt(ring: Ring, key: (string, string)): RingRow {
    if key in ring then ring[key] else NO_ROW
  }

  // ---- writes ----

  function Or(new_: Option<real>, old_: Option<real>): Option<real> {
    if new_.Some? then new_ else old_
  }

  /** MERGE: a property the record lacks keeps its value. */
  function MergeDaily(daily: Daily, r: Record): Daily {
    var key := (r.Key(), r.day);
    var row := if key in daily then daily[key] else DailyRow(None, None);
    daily[key := DailyRow(Or(r.hours, row.hours), Or(r.cost, row.cost))]
  }

  function Tag(slots: map<nat, Tagged>, day: nat, value: Option<real>): map<nat, Tagged> {
    if value.Some? then slots[day % SUMMARY_DAYS := Tagged(day, value.value)] else slots
  }

  predicate Projected(r: Record, subs: Subscriptions, end: nat) {
    r.Key() != "" && subs(r.Key()).Some? && r.day <= end < r.day + SUMMARY_DAYS
  }

  function TagRow(row: RingRow, r: Record): RingRow {
    RingRow(Tag(row.hours, r.day, r.hours), Tag(row.cost, r.day, r.cost))
  }

  function MergeRing(ring: Ring, r: Record, subs: Subscriptions, end: nat): Ring {
    if !Projected(r, subs, end) then ring
    else ring[(subs(r.Key()).value, r.Key()) := TagRow(RowAt(ring, (subs(r.Key()).value, r.Key())), r)]
  }

  function DailyAfter(daily: Daily, records: seq<Record>): Daily {
    if records == [] then daily else MergeDaily(DailyAfter(daily, records[..|records| - 1]), records[|records| - 1])
  }

  /** A row and the horizon its page read when it landed: today less the finalization lag, as configured then. */
  datatype Write = Write(r: Record, end: nat)

  /** One page's rows share a horizon; a history of pages is their rows one after another. */
  function Page(records: seq<Record>, end: nat): seq<Write> {
    seq(|records|, i requires 0 <= i < |records| => Write(records[i], end))
  }

  function Records(writes: seq<Write>): seq<Record> {
    seq(|writes|, i requires 0 <= i < |writes| => writes[i].r)
  }

  function RingAfter(ring: Ring, writes: seq<Write>, subs: Subscriptions): Ring {
    if writes == [] then ring
    else
      var last := writes[|writes| - 1];
      MergeRing(RingAfter(ring, writes[..|writes| - 1], subs), last.r, subs, last.end)
  }

  lemma RecordsOfPrefix(writes: seq<Write>)
    requires writes != []
    ensures Records(writes)[..|writes| - 1] == Records(writes[..|writes| - 1])
    ensures Records(writes)[|writes| - 1] == writes[|writes| - 1].r
  {
  }

  lemma PageOfPrefix(records: seq<Record>, end: nat, k: nat)
    requires k < |records|
    ensures Page(records[..k + 1], end)[..k] == Page(records[..k], end)
    ensures Page(records[..k + 1], end)[k] == Write(records[k], end)
  {
  }

  lemma PageHasTheRecords(records: seq<Record>, end: nat)
    ensures Records(Page(records, end)) == records
  {
  }

  // ---- the projection refines the daily table ----

  ghost predicate TagsOk(row: RingRow, end: nat) {
    forall m: Metric, slot | slot in row.Of(m) :: row.Of(m)[slot].day <= end
        && row.Of(m)[slot].day % SUMMARY_DAYS == slot
  }

  /** Every day of the window up to end reads the same from the slot as from the daily row. */
  ghost predicate Refines(daily: Daily, ring: Ring, subs: Subscriptions, end: nat) {
    && (forall key | key in daily :: key.1 <= end)
    && (forall key | key in ring :: TagsOk(ring[key], end))
    && Agrees(daily, ring, subs, end)
  }

  ghost predicate Agrees(daily: Daily, ring: Ring, subs: Subscriptions, end: nat) {
    forall resource, day: nat, m: Metric | resource != "" && subs(resource).Some? && day <= end < day + SUMMARY_DAYS ::
      SlotValue(RowAt(ring, (subs(resource).value, resource)), day, m) == DailyValue(daily, resource, day, m)
  }

  /** One record of any day up to the horizon. */
  lemma MergeKeepsRefines(daily: Daily, ring: Ring, subs: Subscriptions, end: nat, r: Record)
    requires Refines(daily, ring, subs, end) && r.day <= end
    ensures Refines(MergeDaily(daily, r), MergeRing(ring, r, subs, end), subs, end)
  {
    var daily', ring' := MergeDaily(daily, r), MergeRing(ring, r, subs, end);
    forall resource, day: nat, m: Metric | resource != "" && subs(resource).Some? && day <= end < day + SUMMARY_DAYS
      ensures SlotValue(RowAt(ring', (subs(resource).value, resource)), day, m) == DailyValue(daily', resource, day, m)
    {
      assert SlotValue(RowAt(ring, (subs(resource).value, resource)), day, m) == DailyValue(daily, resource, day, m);
      if resource == r.Key() {
        if day != r.day && Projected(r, subs, end) { SlotsApart(day, r.day, end); }
      }
    }
    forall key | key in ring' ensures TagsOk(ring'[key], end) {
      TagRowOk(RowAt(ring, key), r, end);
      assert (key.0, key.1) == key;
    }
  }

  /** A record is projected exactly if it names a resource with a subscription and lies within the window. */
  lemma ProjectsExactly(ring: Ring, r: Record, subs: Subscriptions, end: nat)
    ensures var resource := Norm(r.resourceId);
      var ring' := MergeRing(ring, r, subs, end);
      && (resource == "" || subs(resource) == None || r.day > end || r.day + 30 <= end ==> ring' == ring)
      && (resource != "" && subs(resource).Some? && r.day <= end < r.day + 30 ==>
            var key := (subs(resource).value, resource);
            && key in ring'
            && (forall k | k != key :: (k in ring' <==> k in ring) && (k in ring ==> ring'[k] == ring[k]))
            && (r.hours.Some? ==>
                  r.day % 30 in ring'[key].hours && ring'[key].hours[r.day % 30] == Tagged(r.day, r.hours.value))
            && (r.cost.Some? ==>
                  r.day % 30 in ring'[key].cost && ring'[key].cost[r.day % 30] == Tagged(r.day, r.cost.value)))
  {
  }

  lemma TagRowOk(row: RingRow, r: Record, end: nat)
    requires TagsOk(row, end) && r.day <= end
    ensures TagsOk(TagRow(row, r), end)
  {
    forall m: Metric, slot | slot in TagRow(row, r).Of(m)
      ensures TagRow(row, r).Of(m)[slot].day <= end && TagRow(row, r).Of(m)[slot].day % SUMMARY_DAYS == slot
    {
      assert slot in row.Of(m) || slot == r.day % SUMMARY_DAYS;
    }
  }

  /** Two days of one window never share a slot. */
  lemma SlotsApart(d: nat, e: nat, end: nat)
    requires d <= end < d + SUMMARY_DAYS && e <= end < e + SUMMARY_DAYS && d != e
    ensures d % SUMMARY_DAYS != e % SUMMARY_DAYS
  {
  }

  /** The horizon may move on: the days that enter the window have neither rows nor tags. */
  lemma HorizonMoves(daily: Daily, ring: Ring, subs: Subscriptions, end: nat, end': nat)
    requires Refines(daily, ring, subs, end) && end <= end'
    ensures Refines(daily, ring, subs, end')
  {
    forall resource, day: nat, m: Metric | resource != "" && subs(resource).Some? && day <= end' < day + SUMMARY_DAYS
      ensures SlotValue(RowAt(ring, (subs(resource).value, resource)), day, m) == DailyValue(daily, resource, day, m)
    {
      if day > end {
        var row := RowAt(ring, (subs(resource).value, resource));
        assert TagsOk(row, end);
      }
    }
  }

  function Later(h: nat, end: nat): nat { if h < end then end else h }

  /**
   * A day's place for a write at horizon end, when the newest horizon so far is h: it is too old to be
   * projected at the write's own horizon, or is projected exactly if it is no older than the newest window.
   */
  predicate InPlace(day: nat, h: nat, end: nat) {
    day + SUMMARY_DAYS <= end || (day <= end <==> h < day + SUMMARY_DAYS)
  }

  /** Such a write does what one at the newest horizon would do, wherever its own horizon lies. */
  lemma InPlaceKeepsRefines(daily: Daily, ring: Ring, subs: Subscriptions, h: nat, end: nat, r: Record)
    requires Refines(daily, ring, subs, h) && InPlace(r.day, h, end)
    ensures Refines(MergeDaily(daily, r), MergeRing(ring, r, subs, end), subs, Later(h, end))
  {
    HorizonMoves(daily, ring, subs, h, Later(h, end));
    MergeKeepsRefines(daily, ring, subs, Later(h, end), r);
  }

  function Newest(h: nat, writes: seq<Write>): nat {
    if writes == [] then h else Later(Newest(h, writes[..|writes| - 1]), writes[|writes| - 1].end)
  }

  ghost predicate AllInPlace(h: nat, writes: seq<Write>) {
    writes == [] ||
    var before, last := writes[..|writes| - 1], writes[|writes| - 1];
    AllInPlace(h, before) && InPlace(last.r.day, Newest(h, before), last.end)
  }

  /** Any history of writes in place, whatever its horizons, keeps the window up to the newest of them right. */
  lemma {:induction false} WritesKeepRefines(daily: Daily, ring: Ring, subs: Subscriptions, h: nat,
      writes: seq<Write>)
    requires Refines(daily, ring, subs, h) && AllInPlace(h, writes)
    ensures Refines(DailyAfter(daily, Records(writes)), RingAfter(ring, writes, subs), subs, Newest(h, writes))
  {
    if writes != [] {
      var before, last := writes[..|writes| - 1], writes[|writes| - 1];
      WritesKeepRefines(daily, ring, subs, h, before);
      RecordsOfPrefix(writes);
      InPlaceKeepsRefines(DailyAfter(daily, Records(before)), RingAfter(ring, before, subs), subs, Newest(h, before),
                          last.end, last.r);
    }
  }

  lemma {:induction false} PageInPlace(h: nat, records: seq<Record>, end: nat)
    ensures records != [] ==> Newest(h, Page(records, end)) == Later(h, end)
    ensures (forall r | r in records :: InPlace(r.day, h, end)) ==> AllInPlace(h, Page(records, end))
  {
    if records != [] {
      var k := |records| - 1;
      assert records[..k + 1] == records;
      PageOfPrefix(records, end, k);
      PageInPlace(h, records[..k], end);
      assert records[k] in records;
    }
  }

  /** A slot's tag never moves back. */
  lemma TagsNeverMoveBack(ring: Ring, r: Record, subs: Subscriptions, end: nat, key: (string, string), m: Metric,
      slot: nat)
    requires key in ring && slot in ring[key].Of(m) && TagsOk(ring[key], end)
    ensures var ring' := MergeRing(ring, r, subs, end);
      key in ring' && slot in ring'[key].Of(m) && ring[key].Of(m)[slot].day <= ring'[key].Of(m)[slot].day
  {
    var t := ring[key].Of(m)[slot].day;
    if Projected(r, subs, end) && r.day % SUMMARY_DAYS == slot && r.day < t { SlotsApart(t, r.day, end); }
  }

  /** The projection agrees with the daily table at every horizon from one on. */
  ghost predicate StaysRight(daily: Daily, ring: Ring, subs: Subscriptions, from: nat) {
    forall end: nat | from <= end :: Agrees(daily, ring, subs, end)
  }

  /** The day of the newest window that has the day's slot. */
  function Holder(day: nat, h: nat): nat
    requires day <= h
  {
    h - (h - day) % SUMMARY_DAYS
  }

  lemma HolderIsInTheWindow(day: nat, h: nat)
    requires day <= h
    ensures Holder(day, h) <= h < Holder(day, h) + SUMMARY_DAYS
    ensures Holder(day, h) % SUMMARY_DAYS == day % SUMMARY_DAYS
  {
  }

  /** What saves a write out of place: the slot it takes was empty, or the value it fails to project is there. */
  ghost predicate Harmless(daily: Daily, r: Record, h: nat, end: nat) {
    forall m: Metric | r.Of(m).Some? ::
      if r.day <= end then r.day <= h && DailyValue(daily, r.Key(), Holder(r.day, h), m) == None
      else DailyValue(daily, r.Key(), r.day, m) == r.Of(m)
  }

  /** A day projected too late takes the slot of the newest window's day. */
  lemma SlotLost(daily: Daily, ring: Ring, subs: Subscriptions, h: nat, end: nat, r: Record, m: Metric)
    requires Refines(daily, ring, subs, h) && r.Key() != "" && subs(r.Key()).Some? && r.Of(m).Some?
    requires r.day <= end < r.day + SUMMARY_DAYS <= h && DailyValue(daily, r.Key(), Holder(r.day, h), m) != None
    ensures !Agrees(MergeDaily(daily, r), MergeRing(ring, r, subs, end), subs, h)
  {
    var e := Holder(r.day, h);
    HolderIsInTheWindow(r.day, h);
    assert DailyValue(MergeDaily(daily, r), r.Key(), e, m) != None;
    assert SlotValue(RowAt(MergeRing(ring, r, subs, end), (subs(r.Key()).value, r.Key())), e, m) == None;
  }

  /** A day after the write's horizon is stored but never projected. */
  lemma DayMissed(daily: Daily, ring: Ring, subs: Subscriptions, h: nat, end: nat, r: Record, m: Metric)
    requires Refines(daily, ring, subs, h) && r.Key() != "" && subs(r.Key()).Some? && r.Of(m).Some?
    requires end < r.day && h < r.day + SUMMARY_DAYS && DailyValue(daily, r.Key(), r.day, m) != r.Of(m)
    ensures !Agrees(MergeDaily(daily, r), MergeRing(ring, r, subs, end), subs, Later(h, r.day))
  {
    HorizonMoves(daily, ring, subs, h, Later(h, r.day));
    assert DailyValue(MergeDaily(daily, r), r.Key(), r.day, m) == r.Of(m);
    assert SlotValue(RowAt(ring, (subs(r.Key()).value, r.Key())), r.day, m) == DailyValue(daily, r.Key(), r.day, m);
  }

  lemma OnlyTheHolder(day: nat, other: nat, h: nat)
    requires other <= h && day <= h < day + SUMMARY_DAYS && day % SUMMARY_DAYS == other % SUMMARY_DAYS
    ensures day == Holder(other, h)
  {
    HolderIsInTheWindow(other, h);
    if day != Holder(other, h) { SlotsApart(day, Holder(other, h), h); }
  }

  /** What a day reads after a row's slots are written. */
  lemma TagRowReads(row: RingRow, r: Record, day: nat, m: Metric)
    ensures SlotValue(TagRow(row, r), day, m) ==
            if r.Of(m).None? || day % SUMMARY_DAYS != r.day % SUMMARY_DAYS then SlotValue(row, day, m)
            else if day == r.day then r.Of(m) else None
  {
  }

  lemma MergedRowAt(ring: Ring, r: Record, subs: Subscriptions, end: nat, resource: string)
    requires subs(resource).Some?
    ensures var key := (subs(resource).value, resource);
      RowAt(MergeRing(ring, r, subs, end), key) ==
        if resource == r.Key() && Projected(r, subs, end) then TagRow(RowAt(ring, key), r) else RowAt(ring, key)
  {
  }

  /** One cell after a harmless write that is projected too late, at one later horizon. */
  lemma HarmlessLateCell(daily: Daily, ring: Ring, subs: Subscriptions, h: nat, end: nat, r: Record, later: nat,
      resource: string, day: nat, m: Metric)
    requires Refines(daily, ring, subs, h) && Harmless(daily, r, h, end) && r.day <= end && r.day + SUMMARY_DAYS <= h
    requires resource != "" && subs(resource).Some? && Later(h, end) <= later && day <= later < day + SUMMARY_DAYS
    requires SlotValue(RowAt(ring, (subs(resource).value, resource)), day, m) == DailyValue(daily, resource, day, m)
    ensures SlotValue(RowAt(MergeRing(ring, r, subs, end), (subs(resource).value, resource)), day, m) ==
            DailyValue(MergeDaily(daily, r), resource, day, m)
  {
    MergedRowAt(ring, r, subs, end, resource);
    if resource == r.Key() {
      TagRowReads(RowAt(ring, (subs(resource).value, resource)), r, day, m);
      if r.Of(m).Some? && day % SUMMARY_DAYS == r.day % SUMMARY_DAYS && day <= h {
        OnlyTheHolder(day, r.day, h);
      }
    }
  }

  /** And after one that is not projected at all. */
  lemma HarmlessFutureCell(daily: Daily, subs: Subscriptions, h: nat, end: nat, r: Record, resource: string, day: nat,
      m: Metric)
    requires Harmless(daily, r, h, end) && r.day > end
    ensures DailyValue(MergeDaily(daily, r), resource, day, m) == DailyValue(daily, resource, day, m)
  {
    if r.Of(m).Some? { assert DailyValue(daily, r.Key(), r.day, m) == r.Of(m); }
  }

  lemma HarmlessStaysRight(daily: Daily, ring: Ring, subs: Subscriptions, h: nat, end: nat, r: Record)
    requires Refines(daily, ring, subs, h) && !InPlace(r.day, h, end) && Harmless(daily, r, h, end)
    ensures StaysRight(MergeDaily(daily, r), MergeRing(ring, r, subs, end), subs, Later(h, end))
  {
    var daily', ring' := MergeDaily(daily, r), MergeRing(ring, r, subs, end);
    forall later: nat | Later(h, end) <= later ensures Agrees(daily', ring', subs, later) {
      HorizonMoves(daily, ring, subs, h, later);
      forall resource, day: nat, m: Metric | resource != "" && subs(resource).Some? && day <= later < day + SUMMARY_DAYS
        ensures SlotValue(RowAt(ring', (subs(resource).value, resource)), day, m) ==
                DailyValue(daily', resource, day, m)
      {
        if r.day <= end {
          HarmlessLateCell(daily, ring, subs, h, end, r, later, resource, day, m);
        } else {
          HarmlessFutureCell(daily, subs, h, end, r, resource, day, m);
        }
      }
    }
  }

  /**
   * The exact condition, store by store: a write leaves the projection right for every horizon from the newest
   * one on if and only if its day is in its place, or it is harmless.
   */
  lemma ProjectionStaysRightExactlyInPlaceOrHarmless(daily: Daily, ring: Ring, subs: Subscriptions, h: nat, end: nat,
      r: Record)
    requires Refines(daily, ring, subs, h) && r.Key() != "" && subs(r.Key()).Some?
    ensures StaysRight(MergeDaily(daily, r), MergeRing(ring, r, subs, end), subs, Later(h, end)) <==>
            InPlace(r.day, h, end) || Harmless(daily, r, h, end)
  {
    var daily', ring' := MergeDaily(daily, r), MergeRing(ring, r, subs, end);
    if InPlace(r.day, h, end) {
      InPlaceKeepsRefines(daily, ring, subs, h, end, r);
      forall later: nat | Later(h, end) <= later ensures Agrees(daily', ring', subs, later) {
        HorizonMoves(daily', ring', subs, Later(h, end), later);
      }
    } else if Harmless(daily, r, h, end) {
      HarmlessStaysRight(daily, ring, subs, h, end, r);
    } else if r.day <= end {
      var m: Metric :| r.Of(m).Some? && DailyValue(daily, r.Key(), Holder(r.day, h), m) != None;
      SlotLost(daily, ring, subs, h, end, r, m);
    } else {
      var m: Metric :| r.Of(m).Some? && DailyValue(daily, r.Key(), r.day, m) != r.Of(m);
      DayMissed(daily, ring, subs, h, end, r, m);
    }
  }

  /** A store with one row, of the newest window's day that has the record's slot. */
  lemma OneRowRefines(subs: Subscriptions, h: nat, r: Record)
    requires r.day <= h && r.Key() != "" && subs(r.Key()).Some?
    ensures var old_ := r.(day := Holder(r.day, h));
      && Refines(MergeDaily(map[], old_), MergeRing(map[], old_, subs, h), subs, h)
      && forall m: Metric :: DailyValue(MergeDaily(map[], old_), r.Key(), Holder(r.day, h), m) == r.Of(m)
  {
    HolderIsInTheWindow(r.day, h);
    assert Refines(map[], map[], subs, h);
    MergeKeepsRefines(map[], map[], subs, h, r.(day := Holder(r.day, h)));
  }

  /**
   * The exact condition, over all stores that are right up to the newest horizon h: a write at end leaves every
   * one of them right from the later of both on if and only if its day is in its place.
   */
  lemma ProjectionStaysRightExactlyInPlace(subs: Subscriptions, h: nat, end: nat, r: Record)
    requires r.Key() != "" && subs(r.Key()).Some? && (r.hours.Some? || r.cost.Some?)
    ensures InPlace(r.day, h, end) <==>
      forall daily: Daily, ring: Ring | Refines(daily, ring, subs, h) ::
        StaysRight(MergeDaily(daily, r), MergeRing(ring, r, subs, end), subs, Later(h, end))
  {
    forall daily: Daily, ring: Ring | InPlace(r.day, h, end) && Refines(daily, ring, subs, h)
      ensures StaysRight(MergeDaily(daily, r), MergeRing(ring, r, subs, end), subs, Later(h, end))
    {
      ProjectionStaysRightExactlyInPlaceOrHarmless(daily, ring, subs, h, end, r);
    }
    if !InPlace(r.day, h, end) {
      var m := if r.hours.Some? then Hours else Cost;
      var old_ := if r.day <= end then r.(day := Holder(r.day, h)) else r;
      var daily: Daily := if r.day <= end then MergeDaily(map[], old_) else map[];
      var ring: Ring := if r.day <= end then MergeRing(map[], old_, subs, h) else map[];
      if r.day <= end { OneRowRefines(subs, h, r); }
      assert Refines(daily, ring, subs, h);
      assert !Harmless(daily, r, h, end) by { assert r.Of(m).Some?; }
      ProjectionStaysRightExactlyInPlaceOrHarmless(daily, ring, subs, h, end, r);
    }
  }

  // ---- paged MERGE loads are confluent ----

  /** Every row of every page is a row of its stream's full answer. */
  ghost predicate FromStreams(records: seq<Record>, answer: map<(Metric, string, nat), real>) {
    forall r, m: Metric | r in records && r.Of(m).Some? ::
      (m, r.Key(), r.day) in answer && answer[(m, r.Key(), r.day)] == r.Of(m).value
  }

  ghost predicate Carries(records: seq<Record>, m: Metric, resource: string, day: nat) {
    exists r :: r in records && r.Key() == resource && r.day == day && r.Of(m).Some?
  }

  /** Whatever the page split, stream order and replays, each cell ends as its own stream has it. */
  lemma {:induction false} EachMetricIsItsStreams(daily: Daily, records: seq<Record>,
      answer: map<(Metric, string, nat), real>,
                                                  m: Metric, resource: string, day: nat)
    requires FromStreams(records, answer)
    ensures DailyValue(DailyAfter(daily, records), resource, day, m) ==
            if Carries(records, m, resource, day) then Some(answer[(m, resource, day)])
                else DailyValue(daily, resource, day, m)
  {
    if records != [] {
      var before, last := records[..|records| - 1], records[|records| - 1];
      EachMetricIsItsStreams(daily, before, answer, m, resource, day);
      assert records == before + [last];
      assert forall r :: r in records <==> r in before || r == last;
    }
  }

  lemma {:induction false} RowsAreTheRecords(daily: Daily, records: seq<Record>, key: (string, nat))
    ensures key in DailyAfter(daily, records) <==> key in daily || exists r :: r in records && (r.Key(), r.day) == key
  {
    if records != [] {
      RowsAreTheRecords(daily, records[..|records| - 1], key);
      assert records == records[..|records| - 1] + [records[|records| - 1]];
    }
  }

  /** Two loads that landed the same rows, in any order and any number of times, leave the same table. */
  lemma SameRowsSameTable(daily: Daily, a: seq<Record>, b: seq<Record>, answer: map<(Metric, string, nat), real>)
    requires FromStreams(a, answer) && FromStreams(b, answer) && forall r :: r in a <==> r in b
    ensures DailyAfter(daily, a) == DailyAfter(daily, b)
  {
    var x, y := DailyAfter(daily, a), DailyAfter(daily, b);
    forall key ensures key in x <==> key in y {
      RowsAreTheRecords(daily, a, key);
      RowsAreTheRecords(daily, b, key);
    }
    forall key | key in x ensures x[key] == y[key] {
      forall m: Metric ensures DailyValue(x, key.0, key.1, m) == DailyValue(y, key.0, key.1, m) {
        EachMetricIsItsStreams(daily, a, answer, m, key.0, key.1);
        EachMetricIsItsStreams(daily, b, answer, m, key.0, key.1);
        assert Carries(a, m, key.0, key.1) <==> Carries(b, m, key.0, key.1);
      }
      assert (key.0, key.1) == key;
      assert DailyValue(x, key.0, key.1, Hours) == DailyValue(y, key.0, key.1, Hours);
      assert DailyValue(x, key.0, key.1, Cost) == DailyValue(y, key.0, key.1, Cost);
      assert x[key].Of(Hours) == y[key].Of(Hours) && x[key].Of(Cost) == y[key].Of(Cost);
    }
  }

  // ---- the store ----

  class UsageStore {
    const subs: Subscriptions
    var daily: Daily
    var ring: Ring
    ghost var horizon: nat

    ghost predicate Valid()
      reads this
    {
      Refines(daily, ring, subs, horizon)
    }

    constructor (subs: Subscriptions)
      ensures Valid() && this.subs == subs && daily == map[] && ring == map[] && horizon == 0
    {
      this.subs := subs;
      daily, ring, horizon := map[], map[], 0;
    }

    /** end is today minus the finalization lag, read when the page lands. */
    method UpsertDailyRecords(records: seq<Record>, end: nat)
      modifies this
      ensures old(Valid()) && (forall r | r in records :: InPlace(r.day, old(horizon), end)) ==> Valid()
      ensures horizon == if records == [] then old(horizon) else Later(old(horizon), end)
      ensures daily == DailyAfter(old(daily), records) && ring == RingAfter(old(ring), Page(records, end), subs)
    {
      PageInPlace(horizon, records, end);
      PageHasTheRecords(records, end);
      if Valid() && forall r | r in records :: InPlace(r.day, horizon, end) {
        WritesKeepRefines(daily, ring, subs, horizon, Page(records, end));
      }
      if records == [] { return; }
      horizon := Later(horizon, end);
      assert records[..|records|] == records;
      for k := 0 to |records|
        invariant daily == DailyAfter(old(daily), records[..k]) && ring == old(ring)
        invariant horizon == Later(old(horizon), end)
      {
        assert records[..k + 1][..k] == records[..k];
        daily := MergeDaily(daily, records[k]);
      }
      UpsertSummaryRecords(records, end);
    }

    /** The page's rows are first gathered per projection row, then merged into the table. */
    method UpsertSummaryRecords(records: seq<Record>, end: nat)
      modifies this`ring
      ensures ring == RingAfter(old(ring), Page(records, end), subs)
    {
      var entities: Ring := map[];
      assert MergedInto(ring, entities) == ring;
      for k := 0 to |records|
        invariant ring == old(ring)
        invariant MergedInto(ring, entities) == RingAfter(ring, Page(records[..k], end), subs)
      {
        var r := records[k];
        PageOfPrefix(records, end, k);
        if Projected(r, subs, end) {
          var key := (subs(r.Key()).value, r.Key());
          GatherOne(ring, entities, key, r);
          entities := entities[key := TagRow(RowAt(entities, key), r)];
        }
      }
      assert records[..|records|] == records;
      ring := MergedInto(ring, entities);
    }

    method DeleteSubscriptionsData(gone: set<string>)
      modifies this`daily, this`ring
      ensures old(Valid()) ==> Valid()
      ensures daily == map key | key in old(daily) && !Gone(subs, gone, key.0) :: old(daily)[key]
      ensures ring == map key | key in old(ring) && key.0 !in gone :: old(ring)[key]
    {
      if Valid() { DeletionKeepsRefines(daily, ring, subs, horizon, gone); }
      daily := map key | key in daily && !Gone(subs, gone, key.0) :: daily[key];
      ring := map key | key in ring && key.0 !in gone :: ring[key];
    }
  }

  function MergedRow(stored: RingRow, gathered: RingRow): RingRow {
    RingRow(stored.hours + gathered.hours, stored.cost + gathered.cost)
  }

  /** The MERGE of gathered rows into stored ones. */
  function MergedInto(ring: Ring, entities: Ring): Ring {
    map key | key in ring.Keys + entities.Keys ::
      if key in entities then MergedRow(RowAt(ring, key), entities[key]) else ring[key]
  }

  lemma MergeThenTag(stored: RingRow, gathered: RingRow, r: Record)
    ensures MergedRow(stored, TagRow(gathered, r)) == TagRow(MergedRow(stored, gathered), r)
    ensures MergedRow(stored, NO_ROW) == stored
  {
    assert stored.hours + Tag(gathered.hours, r.day, r.hours) == Tag(stored.hours + gathered.hours, r.day, r.hours);
    assert stored.cost + Tag(gathered.cost, r.day, r.cost) == Tag(stored.cost + gathered.cost, r.day, r.cost);
    assert stored.hours + map[] == stored.hours && stored.cost + map[] == stored.cost;
  }

  /** Gathering then merging is merging one by one. */
  lemma GatherOne(ring: Ring, entities: Ring, key: (string, string), r: Record)
    ensures MergedInto(ring, entities[key := TagRow(RowAt(entities, key), r)]) ==
            MergedInto(ring, entities)[key := TagRow(RowAt(MergedInto(ring, entities), key), r)]
  {
    var row, stored := RowAt(entities, key), RowAt(ring, key);
    MergeThenTag(stored, row, r);
    assert RowAt(MergedInto(ring, entities), key) == MergedRow(stored, row);
    MergeOneRow(ring, entities, key, TagRow(row, r));
  }

  lemma MergeOneRow(ring: Ring, entities: Ring, key: (string, string), row: RingRow)
    ensures MergedInto(ring, entities[key := row]) ==
        MergedInto(ring, entities)[key := MergedRow(RowAt(ring, key), row)]
  {
    var x, y := MergedInto(ring, entities[key := row]), MergedInto(ring, entities);
    assert forall k :: k in x <==> k in y || k == key;
  }

  predicate Gone(subs: Subscriptions, gone: set<string>, resource: string) {
    subs(resource).Some? && subs(resource).value in gone
  }

  lemma DeletionKeepsRefines(daily: Daily, ring: Ring, subs: Subscriptions, end: nat, gone: set<string>)
    requires Refines(daily, ring, subs, end)
    ensures Refines(map key | key in daily && !Gone(subs, gone, key.0) :: daily[key],
                    map key | key in ring && key.0 !in gone :: ring[key], subs, end)
  {
    var daily' := map key | key in daily && !Gone(subs, gone, key.0) :: daily[key];
    var ring': Ring := map key | key in ring && key.0 !in gone :: ring[key];
    forall resource, day: nat, m: Metric | resource != "" && subs(resource).Some? && day <= end < day + SUMMARY_DAYS
      ensures SlotValue(RowAt(ring', (subs(resource).value, resource)), day, m) == DailyValue(daily', resource, day, m)
    {
      assert SlotValue(RowAt(ring, (subs(resource).value, resource)), day, m) == DailyValue(daily, resource, day, m);
      if subs(resource).value in gone {
        assert DailyValue(daily', resource, day, m) == None;
        assert RowAt(ring', (subs(resource).value, resource)) == NO_ROW;
      }
    }
  }
}
