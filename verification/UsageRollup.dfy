/** Rolling totals, group rows and chart series over daily usage with missing days. */
module UsageRollup {
  import opened Options
  import opened Text
  import opened Decimals

  /** One value per day of the window; None is a day without coverage. */
  type Series = seq<Option<real>>

  function Sum(xs: seq<real>): real {
    if xs == [] then 0.0 else xs[0] + Sum(xs[1..])
  }

  function OrZero(v: Option<real>): real {
    if v.Some? then v.value else 0.0
  }

  function Amounts(values: Series): seq<real> {
    seq(|values|, i requires 0 <= i < |values| => OrZero(values[i]))
  }

  /** The sum of the last days values, or None when there are fewer or one is missing. */
  function Rolling(values: Series, days: nat): Option<real> {
    if |values| < days || None in values[|values| - days..] then None
    else Some(Sum(Amounts(values[|values| - days..])))
  }

  /** The total of one day more is that day's value and the total of the others, or missing with either. */
  lemma RollingIsTheSum(values: Series, days: nat)
    ensures Rolling(values, 0) == Some(0.0)
    ensures Rolling(values, days + 1) ==
            if |values| > days && values[|values| - days - 1].Some? && Rolling(values, days).Some?
            then Some(values[|values| - days - 1].value + Rolling(values, days).value)
            else None
  {
    assert values[|values|..] == [];
    if |values| > days {
      var from := |values| - days - 1;
      assert values[from..] == [values[from]] + values[from + 1..];
      assert Amounts(values[from..])[1..] == Amounts(values[from + 1..]);
    }
  }

  /** A source array may be shorter than the window: what it lacks is undefined. */
  function At(source: Series, i: nat): Option<real> {
    if i < |source| then source[i] else None
  }

  function Plus(total: Option<real>, v: Option<real>): Option<real> {
    if v.None? then total else Some(OrZero(total) + v.value)
  }

  function Total(start: Option<real>, rows: seq<Series>, i: nat): Option<real> {
    if rows == [] then start else Plus(Total(start, rows[..|rows| - 1], i), At(rows[|rows| - 1], i))
  }

  function Totals(empty: Series, rows: seq<Series>): Series {
    seq(|empty|, i requires 0 <= i < |empty| => Total(empty[i], rows, i))
  }

  method SumUsageValues(rows: seq<Series>, empty: Series) returns (values: Series)
    ensures values == Totals(empty, rows)
  {
    values := empty;
    for r := 0 to |rows|
      invariant |values| == |empty|
      invariant forall i | 0 <= i < |empty| :: values[i] == Total(empty[i], rows[..r], i)
    {
      var source := rows[r];
      assert rows[..r + 1][..r] == rows[..r];
      for index := 0 to |values|
        invariant |values| == |empty|
        invariant forall i | 0 <= i < |empty| :: values[i] == Total(empty[i], rows[..if i < index then r + 1 else r], i)
      {
        if index < |source| && source[index].Some? {
          values := values[index := Some(OrZero(values[index]) + source[index].value)];
        }
      }
    }
    assert rows[..|rows|] == rows;
  }

  // ---- conservation ----

  function Column(rows: seq<Series>, i: nat): seq<real> {
    seq(|rows|, r requires 0 <= r < |rows| => OrZero(At(rows[r], i)))
  }

  lemma {:induction false} SumLast(xs: seq<real>, x: real)
    ensures Sum(xs + [x]) == Sum(xs) + x
  {
    if xs == [] {
      assert [] + [x] == [x];
    } else {
      SumLast(xs[1..], x);
      assert (xs + [x])[1..] == xs[1..] + [x];
    }
  }

  /** A day's total is the start plus everything its rows have; it is missing only if all of them are. */
  lemma {:induction false} TotalAddsUp(start: Option<real>, rows: seq<Series>, i: nat)
    ensures OrZero(Total(start, rows, i)) == OrZero(start) + Sum(Column(rows, i))
    ensures Total(start, rows, i).None? <==> start.None? && forall r | r in rows :: At(r, i).None?
  {
    if rows != [] {
      var before, last := rows[..|rows| - 1], rows[|rows| - 1];
      TotalAddsUp(start, before, i);
      assert rows == before + [last];
      assert Column(rows, i) == Column(before, i) + [OrZero(At(last, i))];
      SumLast(Column(before, i), OrZero(At(last, i)));
      assert forall r :: r in rows <==> r in before || r == last;
    }
  }

  ghost predicate ZeroOrMissing(empty: Series) {
    forall v | v in empty :: v == None || v == Some(0.0)
  }

  ghost predicate SamePattern(child: Series, empty: Series) {
    |child| == |empty| && forall i | 0 <= i < |empty| :: child[i].None? <==> empty[i].None?
  }

  /** When a group's rolling total is shown: every day of the window is covered or has some value. */
  lemma RollingIsShown(empty: Series, rows: seq<Series>, days: nat)
    requires days <= |empty|
    ensures Rolling(Totals(empty, rows), days).Some? <==>
            forall i | |empty| - days <= i < |empty| :: empty[i].Some? || exists r :: r in rows && At(r, i).Some?
  {
    var t := Totals(empty, rows);
    forall i | 0 <= i < |empty| ensures t[i].None? <==> empty[i].None? && forall r | r in rows :: At(r, i).None? {
      TotalAddsUp(empty[i], rows, i);
    }
    assert forall i | |empty| - days <= i < |empty| :: t[i] == t[|empty| - days..][i - (|empty| - days)];
  }

  function Add(a: seq<real>, b: seq<real>): seq<real>
    requires |a| == |b|
  {
    seq(|a|, i requires 0 <= i < |a| => a[i] + b[i])
  }

  lemma {:induction false} SumOfAdd(a: seq<real>, b: seq<real>)
    requires |a| == |b|
    ensures Sum(Add(a, b)) == Sum(a) + Sum(b)
  {
    if a != [] {
      SumOfAdd(a[1..], b[1..]);
      assert Add(a, b)[1..] == Add(a[1..], b[1..]);
    }
  }

  function RollingSum(children: seq<Series>, days: nat): real {
    if children == [] then 0.0
    else RollingSum(children[..|children| - 1], days) + OrZero(Rolling(children[|children| - 1], days))
  }

  lemma {:induction false} ZeroSum(xs: seq<real>)
    requires forall i | 0 <= i < |xs| :: xs[i] == 0.0
    ensures Sum(xs) == 0.0
  {
    if xs != [] { ZeroSum(xs[1..]); }
  }

  /** Whether a rolling total is shown depends on the coverage pattern alone. */
  lemma SameWindowShown(child: Series, empty: Series, days: nat)
    requires SamePattern(child, empty)
    ensures Rolling(child, days).Some? <==> Rolling(empty, days).Some?
  {
    if days <= |empty| {
      var from := |empty| - days;
      forall i | 0 <= i < days ensures child[from..][i].None? <==> empty[from..][i].None? {
        assert child[from..][i] == child[from + i] && empty[from..][i] == empty[from + i];
      }
      if None in child[from..] {
        var i :| 0 <= i < days && child[from..][i] == None;
        assert empty[from..][i] == None;
      }
      if None in empty[from..] {
        var i :| 0 <= i < days && empty[from..][i] == None;
        assert child[from..][i] == None;
      }
    }
  }

  lemma TotalsKeepThePattern(empty: Series, children: seq<Series>)
    requires forall c | c in children :: SamePattern(c, empty)
    ensures SamePattern(Totals(empty, children), empty)
  {
    forall i | 0 <= i < |empty| ensures Totals(empty, children)[i].None? <==> empty[i].None? {
      TotalAddsUp(empty[i], children, i);
      forall c | c in children ensures At(c, i).None? <==> empty[i].None? { assert SamePattern(c, empty); }
    }
  }

  /** The amounts of a window. */
  function Window(s: Series, days: nat): seq<real>
    requires days <= |s|
  {
    Amounts(s[|s| - days..])
  }

  lemma OneChildMore(empty: Series, children: seq<Series>, days: nat)
    requires children != [] && days <= |empty| && forall c | c in children :: SamePattern(c, empty)
    ensures var before, last := children[..|children| - 1], children[|children| - 1];
      |last| == |empty| && Sum(Window(Totals(empty, children), days)) ==
          Sum(Window(Totals(empty, before), days)) + Sum(Window(last, days))
  {
    var before, last := children[..|children| - 1], children[|children| - 1];
    var t, b, from := Totals(empty, children), Totals(empty, before), |empty| - days;
    assert last in children;
    forall i | 0 <= i < days ensures Window(t, days)[i] == Window(b, days)[i] + Window(last, days)[i] {
      assert t[from..][i] == t[from + i] && b[from..][i] == b[from + i] && last[from..][i] == last[from + i];
      assert t[from + i] == Plus(b[from + i], last[from + i]);
    }
    assert Window(t, days) == Add(Window(b, days), Window(last, days));
    SumOfAdd(Window(b, days), Window(last, days));
  }

  lemma NoChildren(empty: Series, days: nat)
    requires ZeroOrMissing(empty) && days <= |empty|
    ensures Sum(Window(Totals(empty, []), days)) == 0.0
  {
    assert Totals(empty, []) == empty;
    var from := |empty| - days;
    forall i | 0 <= i < days ensures Window(empty, days)[i] == 0.0 {
      assert empty[from..][i] == empty[from + i] && empty[from + i] in empty;
    }
    ZeroSum(Window(empty, days));
  }

  /** With one coverage pattern, a group's rolling total is the sum of its children's, or missing with theirs. */
  lemma {:induction false} RollingConserves(empty: Series, children: seq<Series>, days: nat)
    requires ZeroOrMissing(empty) && forall c | c in children :: SamePattern(c, empty)
    ensures SamePattern(Totals(empty, children), empty)
    ensures forall c | c in children :: Rolling(c, days).Some? <==> Rolling(empty, days).Some?
    ensures Rolling(Totals(empty, children), days) ==
            if Rolling(empty, days).Some? then Some(RollingSum(children, days)) else None
  {
    var t := Totals(empty, children);
    TotalsKeepThePattern(empty, children);
    SameWindowShown(t, empty, days);
    forall c | c in children
      ensures Rolling(c, days).Some? <==> Rolling(empty, days).Some?
    {
      SameWindowShown(c, empty, days);
    }
    if Rolling(empty, days).Some? {
      assert Rolling(t, days) == Some(Sum(Window(t, days)));
      if children == [] {
        NoChildren(empty, days);
      } else {
        var before, last := children[..|children| - 1], children[|children| - 1];
        RollingConserves(empty, before, days);
        OneChildMore(empty, children, days);
        assert last in children;
        assert Rolling(last, days) == Some(Sum(Window(last, days)));
      }
    }
  }

  // ---- group rows ----

  datatype Reservation = Reservation(groupId: string, live: bool, quantity: Option<real>, hours: Series, cost: Series)

  datatype GroupRow = GroupRow(id: string, count: nat, quantity: real, hours: Series, cost: Series,
                               hourTotals: seq<Option<real>>, costTotals: seq<Option<real>>)

  const WINDOWS: seq<nat> := [1, 7, 30]

  function Children(reservations: seq<Reservation>, group: string): seq<Reservation> {
    if reservations == [] then []
    else
      (if Lower(reservations[0].groupId) == Lower(group) then [reservations[0]] else [])
      + Children(reservations[1..], group)
  }

  function Hours(rs: seq<Reservation>): seq<Series> {
    seq(|rs|, i requires 0 <= i < |rs| => rs[i].hours)
  }

  function Costs(rs: seq<Reservation>): seq<Series> {
    seq(|rs|, i requires 0 <= i < |rs| => rs[i].cost)
  }

  function Rollings(values: Series): seq<Option<real>> {
    seq(|WINDOWS|, k requires 0 <= k < |WINDOWS| => Rolling(values, WINDOWS[k]))
  }

  function LiveQuantities(rs: seq<Reservation>): seq<real> {
    if rs == [] then [] else (if rs[0].live then [OrZero(rs[0].quantity)] else []) + LiveQuantities(rs[1..])
  }

  function RowOf(group: string, children: seq<Reservation>, empty: Series): GroupRow {
    var hours, cost := Totals(empty, Hours(children)), Totals(empty, Costs(children));
    GroupRow(group, |LiveQuantities(children)|, Sum(LiveQuantities(children)), hours, cost, Rollings(hours),
        Rollings(cost))
  }

  // ---- a group row in terms of its reservations ----

  /** The totals over the last 1, 7 and 30 days. */
  ghost predicate AreRollings(totals: seq<Option<real>>, values: Series) {
    totals == [Rolling(values, 1), Rolling(values, 7), Rolling(values, 30)]
  }

  lemma RollingsAre(values: Series)
    ensures AreRollings(Rollings(values), values)
  {
  }

  /** A reservation is the group's, ignoring case. */
  ghost predicate InGroup(r: Reservation, group: string) {
    Lower(r.groupId) == Lower(group)
  }

  lemma {:induction false} ChildrenAreTheGroups(rs: seq<Reservation>, group: string, r: Reservation)
    ensures multiset(Children(rs, group))[r] == if InGroup(r, group) then multiset(rs)[r] else 0
  {
    if rs != [] {
      ChildrenAreTheGroups(rs[1..], group, r);
      assert rs == [rs[0]] + rs[1..];
    }
  }

  /** Each child's hours, or cost, of one day, zero where it has none. */
  function DayOf(children: seq<Reservation>, cost: bool, i: nat): seq<real> {
    if children == [] then []
    else
      var source := if cost then children[0].cost else children[0].hours;
      [if i < |source| && source[i].Some? then source[i].value else 0.0] + DayOf(children[1..], cost, i)
  }

  lemma {:induction false} DayIsTheColumn(children: seq<Reservation>, i: nat)
    ensures DayOf(children, false, i) == Column(Hours(children), i)
    ensures DayOf(children, true, i) == Column(Costs(children), i)
  {
    if children != [] {
      DayIsTheColumn(children[1..], i);
      assert Hours(children) == [children[0].hours] + Hours(children[1..]);
      assert Costs(children) == [children[0].cost] + Costs(children[1..]);
      assert Column(Hours(children), i) == [OrZero(At(children[0].hours, i))] + Column(Hours(children[1..]), i);
      assert Column(Costs(children), i) == [OrZero(At(children[0].cost, i))] + Column(Costs(children[1..]), i);
    }
  }

  ghost predicate AddsUp(values: Series, children: seq<Reservation>, cost: bool, empty: Series) {
    |values| == |empty| && forall i | 0 <= i < |empty| ::
      (if values[i].Some? then values[i].value else 0.0) ==
        (if empty[i].Some? then empty[i].value else 0.0) + Sum(DayOf(children, cost, i))
  }

  /** How many children are live, and what is reserved by them. */
  function LiveCount(children: seq<Reservation>): nat {
    if children == [] then 0 else LiveCount(children[1..]) + if children[0].live then 1 else 0
  }

  function LiveQuantity(children: seq<Reservation>): real {
    if children == [] then 0.0
    else LiveQuantity(children[1..])
         + if children[0].live && children[0].quantity.Some? then children[0].quantity.value else 0.0
  }

  lemma {:induction false} LiveQuantitiesAreTheLive(children: seq<Reservation>)
    ensures |LiveQuantities(children)| == LiveCount(children)
    ensures Sum(LiveQuantities(children)) == LiveQuantity(children)
  {
    if children != [] {
      LiveQuantitiesAreTheLive(children[1..]);
      if children[0].live {
        assert LiveQuantities(children)[1..] == LiveQuantities(children[1..]);
      } else {
        assert LiveQuantities(children) == LiveQuantities(children[1..]);
      }
    }
  }

  /**
   * A group's row: each day's hours and cost are those of its children and the start value, its rolling totals are
   * those of its own days, and it counts the live children and what they reserve.
   */
  ghost predicate RowTells(row: GroupRow, group: string, children: seq<Reservation>, empty: Series) {
    && row.id == group && row.count == LiveCount(children) && row.quantity == LiveQuantity(children)
    && AddsUp(row.hours, children, false, empty) && AddsUp(row.cost, children, true, empty)
    && AreRollings(row.hourTotals, row.hours) && AreRollings(row.costTotals, row.cost)
  }

  lemma RowOfTells(group: string, children: seq<Reservation>, empty: Series)
    ensures RowTells(RowOf(group, children, empty), group, children, empty)
  {
    var row := RowOf(group, children, empty);
    LiveQuantitiesAreTheLive(children);
    forall i | 0 <= i < |empty|
      ensures OrZero(row.hours[i]) == OrZero(empty[i]) + Sum(DayOf(children, false, i))
      ensures OrZero(row.cost[i]) == OrZero(empty[i]) + Sum(DayOf(children, true, i))
    {
      DayIsTheColumn(children, i);
      TotalAddsUp(empty[i], Hours(children), i);
      TotalAddsUp(empty[i], Costs(children), i);
    }
    RollingsAre(row.hours);
    RollingsAre(row.cost);
  }

  /** Children are bucketed by lower-case group id in one pass. */
  method BucketByGroup(reservations: seq<Reservation>) returns (buckets: map<string, seq<Reservation>>)
    ensures Buckets(buckets, reservations)
  {
    buckets := map[];
    for k := 0 to |reservations|
      invariant Buckets(buckets, reservations[..k])
    {
      assert reservations[..k + 1] == reservations[..k] + [reservations[k]];
      BucketOne(buckets, reservations[..k], reservations[k]);
      var id := Lower(reservations[k].groupId);
      buckets := buckets[id := (if id in buckets then buckets[id] else []) + [reservations[k]]];
    }
    assert reservations[..|reservations|] == reservations;
  }

  method BuildGroupRow(group: string, children: seq<Reservation>, empty: Series) returns (row: GroupRow)
    ensures row == RowOf(group, children, empty)
  {
    var hours := SumUsageValues(Hours(children), empty);
    var cost := SumUsageValues(Costs(children), empty);
    var quantities := LiveQuantities(children);
    row := GroupRow(group, |quantities|, Sum(quantities), hours, cost, Rollings(hours), Rollings(cost));
  }

  method BuildGroupRows(groups: seq<string>, reservations: seq<Reservation>, empty: Series)
    returns (rows: seq<GroupRow>)
    ensures |rows| == |groups|
    ensures forall g | 0 <= g < |groups| :: rows[g] == RowOf(groups[g], Children(reservations, groups[g]), empty)
    ensures forall g | 0 <= g < |groups| :: RowTells(rows[g], groups[g], Children(reservations, groups[g]), empty)
  {
    var buckets := BucketByGroup(reservations);
    rows := [];
    for g := 0 to |groups|
      invariant |rows| == g
      invariant forall k | 0 <= k < g :: rows[k] == RowOf(groups[k], Children(reservations, groups[k]), empty)
      invariant forall k | 0 <= k < g :: RowTells(rows[k], groups[k], Children(reservations, groups[k]), empty)
    {
      RowOfTells(groups[g], Children(reservations, groups[g]), empty);
      assert Children(reservations, groups[g]) == if Lower(groups[g]) in buckets then buckets[Lower(groups[g])] else [];
      var row := BuildGroupRow(groups[g], if Lower(groups[g]) in buckets then buckets[Lower(groups[g])] else [], empty);
      rows := rows + [row];
    }
  }

  ghost predicate Buckets(buckets: map<string, seq<Reservation>>, rs: seq<Reservation>) {
    forall g :: Children(rs, g) == if Lower(g) in buckets then buckets[Lower(g)] else []
  }

  lemma BucketOne(buckets: map<string, seq<Reservation>>, rs: seq<Reservation>, r: Reservation)
    requires Buckets(buckets, rs)
    ensures var id := Lower(r.groupId);
      Buckets(buckets[id := (if id in buckets then buckets[id] else []) + [r]], rs + [r])
  {
    forall g { ChildrenLast(rs, r, g); }
  }

  lemma {:induction false} ChildrenLast(rs: seq<Reservation>, r: Reservation, g: string)
    ensures Children(rs + [r], g) == Children(rs, g) + if Lower(r.groupId) == Lower(g) then [r] else []
  {
    if rs == [] {
      assert [] + [r] == [r];
    } else {
      ChildrenLast(rs[1..], r, g);
      assert (rs + [r])[1..] == rs[1..] + [r];
    }
  }

  // ---- chart series ----

  datatype ChartRow = ChartRow(key: string, name: string, values: Series, cost: Series)

  datatype ChartGroup = ChartGroup(key: string, name: string, values: Series, spend: real)

  ghost predicate Ordered(groups: seq<ChartGroup>) {
    forall i, j | 0 <= i < j < |groups| :: !Before(groups[j], groups[i])
  }

  /** Higher spend first, then by name. */
  predicate Before(a: ChartGroup, b: ChartGroup) {
    a.spend > b.spend || (a.spend == b.spend && Less(a.name, b.name))
  }

  function Find(groups: seq<ChartGroup>, key: string): (k: nat)
    ensures k <= |groups| && (k < |groups| ==> groups[k].key == key)
    ensures forall i | 0 <= i < k :: groups[i].key != key
  {
    if groups == [] || groups[0].key == key then 0 else 1 + Find(groups[1..], key)
  }

  function Shown(groups: seq<ChartGroup>, i: nat): seq<real> {
    seq(|groups|, g requires 0 <= g < |groups| => OrZero(At(groups[g].values, i)))
  }

  function Spends(groups: seq<ChartGroup>): seq<real> {
    seq(|groups|, g requires 0 <= g < |groups| => groups[g].spend)
  }

  function Keys(groups: seq<ChartGroup>): set<string> {
    set g | g in groups :: g.key
  }

  function RowKeys(rows: seq<ChartRow>): set<string> {
    set r | r in rows :: r.key
  }

  function Having(rows: seq<ChartRow>, key: string): seq<ChartRow> {
    if rows == [] then []
    else Having(rows[..|rows| - 1], key) + if rows[|rows| - 1].key == key then [rows[|rows| - 1]] else []
  }

  function RowValues(rows: seq<ChartRow>): seq<Series> {
    seq(|rows|, r requires 0 <= r < |rows| => rows[r].values)
  }

  function RowSpends(rows: seq<ChartRow>): seq<real> {
    seq(|rows|, r requires 0 <= r < |rows| => Sum(Amounts(rows[r].cost)))
  }

  function AddRow(g: ChartGroup, row: ChartRow): ChartGroup {
    g.(values := PlusRow(g.values, row.values), spend := g.spend + Sum(Amounts(row.cost)))
  }

  /** One group per key that occurs, holding exactly that key's rows. */
  ghost predicate Partitions(groups: seq<ChartGroup>, rows: seq<ChartRow>, days: nat) {
    && Keys(groups) == RowKeys(rows)
    && DistinctKeys(groups)
    && (forall g | g in groups :: Holds(g, rows, days))
  }

  /**
   * Each day's value is the total of the key's rows, null if they all are; the spend is what those rows
   * cost; the name is the first such row's.
   */
  ghost predicate Holds(g: ChartGroup, rows: seq<ChartRow>, days: nat) {
    var having := Having(rows, g.key);
    && g.values == Totals(Nulls(days), RowValues(having))
    && g.spend == Sum(RowSpends(having))
    && (having != [] ==> g.name == having[0].name)
  }

  /** The groups add up to the rows, day by day and in spend. */
  ghost predicate Conserves(groups: seq<ChartGroup>, rows: seq<ChartRow>, days: nat) {
    && (forall i | 0 <= i < days :: Sum(Shown(groups, i)) == Sum(Column(RowValues(rows), i)))
    && Sum(Spends(groups)) == Sum(RowSpends(rows))
  }

  function Nulls(days: nat): Series {
    seq(days, _ => None)
  }

  lemma {:induction false} SumUpdate(xs: seq<real>, k: nat, x: real)
    requires k < |xs|
    ensures Sum(xs[k := x]) == Sum(xs) - xs[k] + x
  {
    if k > 0 {
      SumUpdate(xs[1..], k - 1, x);
      assert xs[k := x][1..] == xs[1..][k - 1 := x];
    }
  }

  lemma RowsLast(rows: seq<ChartRow>, row: ChartRow, i: nat)
    ensures Sum(Column(RowValues(rows + [row]), i)) == Sum(Column(RowValues(rows), i)) + OrZero(At(row.values, i))
    ensures Sum(RowSpends(rows + [row])) == Sum(RowSpends(rows)) + Sum(Amounts(row.cost))
  {
    assert Column(RowValues(rows + [row]), i) == Column(RowValues(rows), i) + [OrZero(At(row.values, i))];
    SumLast(Column(RowValues(rows), i), OrZero(At(row.values, i)));
    assert RowSpends(rows + [row]) == RowSpends(rows) + [Sum(Amounts(row.cost))];
    SumLast(RowSpends(rows), Sum(Amounts(row.cost)));
  }

  lemma AddRowConserves(groups: seq<ChartGroup>, rows: seq<ChartRow>, days: nat, row: ChartRow, k: nat)
    requires Conserves(groups, rows, days) && k < |groups| && |groups[k].values| == days
    ensures Conserves(groups[k := AddRow(groups[k], row)], rows + [row], days)
  {
    var groups' := groups[k := AddRow(groups[k], row)];
    forall i | 0 <= i < days ensures Sum(Shown(groups', i)) == Sum(Column(RowValues(rows + [row]), i)) {
      assert Shown(groups', i) == Shown(groups, i)[k := OrZero(groups'[k].values[i])];
      SumUpdate(Shown(groups, i), k, OrZero(groups'[k].values[i]));
      RowsLast(rows, row, i);
    }
    assert Spends(groups') == Spends(groups)[k := groups'[k].spend];
    SumUpdate(Spends(groups), k, groups'[k].spend);
    RowsLast(rows, row, 0);
  }

  lemma NewGroupConserves(groups: seq<ChartGroup>, rows: seq<ChartRow>, days: nat, key: string, name: string)
    requires Conserves(groups, rows, days)
    ensures Conserves(groups + [ChartGroup(key, name, Nulls(days), 0.0)], rows, days)
  {
    var g := ChartGroup(key, name, Nulls(days), 0.0);
    forall i | 0 <= i < days ensures Sum(Shown(groups + [g], i)) == Sum(Shown(groups, i)) {
      assert Shown(groups + [g], i) == Shown(groups, i) + [0.0];
      SumLast(Shown(groups, i), 0.0);
    }
    assert Spends(groups + [g]) == Spends(groups) + [0.0];
    SumLast(Spends(groups), 0.0);
  }

  lemma HavingLast(rows: seq<ChartRow>, row: ChartRow, key: string)
    ensures Having(rows + [row], key) == Having(rows, key) + if row.key == key then [row] else []
  {
    assert (rows + [row])[..|rows|] == rows;
  }

  function PlusRow(values: Series, row: Series): Series {
    seq(|values|, i requires 0 <= i < |values| => Plus(values[i], At(row, i)))
  }

  lemma TotalsLast(empty: Series, rows: seq<Series>, row: Series)
    ensures Totals(empty, rows + [row]) == PlusRow(Totals(empty, rows), row)
  {
    assert (rows + [row])[..|rows|] == rows;
  }

  lemma SpendsLast(having: seq<ChartRow>, row: ChartRow)
    ensures Sum(RowSpends(having + [row])) == Sum(RowSpends(having)) + Sum(Amounts(row.cost))
  {
    assert RowSpends(having + [row]) == RowSpends(having) + [Sum(Amounts(row.cost))];
    SumLast(RowSpends(having), Sum(Amounts(row.cost)));
  }

  lemma ValuesLast(having: seq<ChartRow>, row: ChartRow, days: nat)
    ensures Totals(Nulls(days), RowValues(having + [row])) ==
        PlusRow(Totals(Nulls(days), RowValues(having)), row.values)
  {
    assert RowValues(having + [row]) == RowValues(having) + [row.values];
    TotalsLast(Nulls(days), RowValues(having), row.values);
  }

  /** What becomes of the row's own group. */
  lemma OwnGroupAfterRow(g: ChartGroup, rows: seq<ChartRow>, days: nat, row: ChartRow)
    requires Holds(g, rows, days) && g.key == row.key && (Having(rows, g.key) == [] ==> g.name == row.name)
    ensures Holds(AddRow(g, row), rows + [row], days)
  {
    var having := Having(rows, g.key);
    HavingLast(rows, row, g.key);
    SpendsLast(having, row);
    ValuesLast(having, row, days);
    assert (having + [row])[0] == if having == [] then row else having[0];
  }

  /** What becomes of any other. */
  lemma OtherGroupAfterRow(g: ChartGroup, rows: seq<ChartRow>, days: nat, row: ChartRow)
    requires Holds(g, rows, days) && g.key != row.key
    ensures Holds(g, rows + [row], days)
  {
    HavingLast(rows, row, g.key);
    assert Having(rows, g.key) + [] == Having(rows, g.key);
  }

  lemma AddRowPartitions(groups: seq<ChartGroup>, rows: seq<ChartRow>, days: nat, row: ChartRow, k: nat)
    requires k < |groups| && groups[k].key == row.key
    requires Keys(groups) == RowKeys(rows) + {row.key}
    requires DistinctKeys(groups)
    requires forall g | g in groups :: Holds(g, rows, days)
    requires Having(rows, row.key) == [] ==> groups[k].name == row.name
    ensures Partitions(groups[k := AddRow(groups[k], row)], rows + [row], days)
  {
    var groups' := groups[k := AddRow(groups[k], row)];
    forall g | g in groups' ensures Holds(g, rows + [row], days) {
      var i :| 0 <= i < |groups'| && groups'[i] == g;
      assert groups[i] in groups;
      if i == k { OwnGroupAfterRow(groups[i], rows, days, row); } else {
        OtherGroupAfterRow(groups[i], rows, days, row);
      }
    }
    assert RowKeys(rows + [row]) == RowKeys(rows) + {row.key};
    AddRowKeepsKeys(groups, row, k);
  }

  lemma AddRowKeepsKeys(groups: seq<ChartGroup>, row: ChartRow, k: nat)
    requires k < |groups| && DistinctKeys(groups)
    ensures Keys(groups[k := AddRow(groups[k], row)]) == Keys(groups)
        && DistinctKeys(groups[k := AddRow(groups[k], row)])
  {
    var groups' := groups[k := AddRow(groups[k], row)];
    forall i | 0 <= i < |groups|
      ensures groups'[i].key == groups[i].key && groups'[i] in groups' && groups[i] in groups
    {
    }
    forall key ensures key in Keys(groups') <==> key in Keys(groups) {
      if key in Keys(groups') { var i :| 0 <= i < |groups'| && groups'[i].key == key; assert groups[i].key == key; }
      if key in Keys(groups) { var i :| 0 <= i < |groups| && groups[i].key == key; assert groups'[i].key == key; }
    }
  }

  lemma {:induction false} SomeRowHasIt(rows: seq<ChartRow>, key: string)
    requires key in RowKeys(rows)
    ensures Having(rows, key) != []
  {
    if rows[|rows| - 1].key != key {
      assert rows == rows[..|rows| - 1] + [rows[|rows| - 1]];
      SomeRowHasIt(rows[..|rows| - 1], key);
    }
  }

  lemma NoRowsNoValues(rows: seq<ChartRow>, key: string)
    requires key !in RowKeys(rows)
    ensures Having(rows, key) == []
  {
    if rows != [] {
      assert rows[|rows| - 1] in rows;
      assert RowKeys(rows[..|rows| - 1]) <= RowKeys(rows);
      NoRowsNoValues(rows[..|rows| - 1], key);
    }
  }

  function InsertGroup(groups: seq<ChartGroup>, g: ChartGroup): seq<ChartGroup> {
    if groups == [] || Before(g, groups[0]) then [g] + groups else [groups[0]] + InsertGroup(groups[1..], g)
  }

  lemma {:induction false} InsertGroupKeeps(groups: seq<ChartGroup>, g: ChartGroup)
    requires Ordered(groups)
    ensures Ordered(InsertGroup(groups, g))
    ensures forall x :: x in InsertGroup(groups, g) <==> x in groups || x == g
  {
    if groups == [] || Before(g, groups[0]) {
      forall j | 0 <= j < |groups| ensures !Before(groups[j], g) { BeforeIsStrict(g, groups[0], groups[j]); }
    } else {
      InsertGroupKeeps(groups[1..], g);
      assert groups == [groups[0]] + groups[1..];
      var rest := InsertGroup(groups[1..], g);
      forall j | 0 <= j < |rest| ensures !Before(rest[j], groups[0]) {
        assert rest[j] in rest;
        if rest[j] != g { assert rest[j] in groups[1..]; }
      }
    }
  }

  lemma BeforeIsStrict(a: ChartGroup, b: ChartGroup, c: ChartGroup)
    requires Before(a, b) && (c == b || !Before(c, b))
    ensures !Before(c, a)
  {
    LessIsStrict(b.name);
    if Before(c, a) && c.spend == a.spend && a.spend == b.spend { LessTrans(c.name, a.name, b.name); }
  }

  ghost predicate DistinctKeys(groups: seq<ChartGroup>) {
    forall i, j | 0 <= i < j < |groups| :: groups[i].key != groups[j].key
  }

  lemma {:induction false} InsertGroupSums(groups: seq<ChartGroup>, g: ChartGroup, i: nat)
    ensures Sum(Shown(InsertGroup(groups, g), i)) == Sum(Shown(groups, i)) + OrZero(At(g.values, i))
    ensures Sum(Spends(InsertGroup(groups, g))) == Sum(Spends(groups)) + g.spend
  {
    var all := InsertGroup(groups, g);
    assert Shown(all, i)[1..] == Shown(all[1..], i) && Spends(all)[1..] == Spends(all[1..]);
    if groups == [] || Before(g, groups[0]) {
      assert all[1..] == groups;
    } else {
      InsertGroupSums(groups[1..], g, i);
      assert Shown(groups, i)[1..] == Shown(groups[1..], i) && Spends(groups)[1..] == Spends(groups[1..]);
    }
  }

  lemma {:induction false} InsertGroupDistinct(groups: seq<ChartGroup>, g: ChartGroup)
    requires DistinctKeys(groups) && forall x | x in groups :: x.key != g.key
    ensures DistinctKeys(InsertGroup(groups, g))
    ensures forall x :: x in InsertGroup(groups, g) <==> x in groups || x == g
  {
    if !(groups == [] || Before(g, groups[0])) {
      InsertGroupDistinct(groups[1..], g);
      assert groups == [groups[0]] + groups[1..];
      var rest := InsertGroup(groups[1..], g);
      forall j | 0 <= j < |rest| ensures rest[j].key != groups[0].key {
        assert rest[j] in rest;
      }
    }
  }

  ghost predicate SameSums(a: seq<ChartGroup>, b: seq<ChartGroup>) {
    (forall i: nat :: Sum(Shown(a, i)) == Sum(Shown(b, i))) && Sum(Spends(a)) == Sum(Spends(b))
  }

  lemma InsertKeepsSums(chart: seq<ChartGroup>, before: seq<ChartGroup>, g: ChartGroup)
    requires SameSums(chart, before)
    ensures SameSums(InsertGroup(chart, g), before + [g])
  {
    forall i: nat ensures Sum(Shown(InsertGroup(chart, g), i)) == Sum(Shown(before + [g], i)) {
      InsertGroupSums(chart, g, i);
      assert Shown(before + [g], i) == Shown(before, i) + [OrZero(At(g.values, i))];
      SumLast(Shown(before, i), OrZero(At(g.values, i)));
    }
    InsertGroupSums(chart, g, 0);
    assert Spends(before + [g]) == Spends(before) + [g.spend];
    SumLast(Spends(before), g.spend);
  }

  /** The groups in display order: the same groups, each once. */
  method SortGroups(groups: seq<ChartGroup>) returns (chart: seq<ChartGroup>)
    requires DistinctKeys(groups)
    ensures Ordered(chart) && DistinctKeys(chart) && SameSums(chart, groups)
    ensures forall g :: g in chart <==> g in groups
  {
    chart := [];
    for k := 0 to |groups|
      invariant Ordered(chart) && DistinctKeys(chart) && SameSums(chart, groups[..k])
      invariant forall g :: g in chart <==> g in groups[..k]
    {
      assert groups[..k + 1] == groups[..k] + [groups[k]];
      InsertKeepsSums(chart, groups[..k], groups[k]);
      InsertGroupKeeps(chart, groups[k]);
      InsertGroupDistinct(chart, groups[k]);
      chart := InsertGroup(chart, groups[k]);
    }
    assert groups[..|groups|] == groups;
  }

  /** One day's values of the rows of a key, zero where they have none, and what those rows cost. */
  function KeyDay(rows: seq<ChartRow>, key: string, i: nat): real {
    if rows == [] then 0.0
    else
      var row := rows[|rows| - 1];
      KeyDay(rows[..|rows| - 1], key, i)
      + if row.key == key && i < |row.values| && row.values[i].Some? then row.values[i].value else 0.0
  }

  function Cost(costs: Series): real {
    if costs == [] then 0.0
    else (if costs[0].Some? then costs[0].value else 0.0) + Cost(costs[1..])
  }

  function KeySpend(rows: seq<ChartRow>, key: string): real {
    if rows == [] then 0.0
    else
      var row := rows[|rows| - 1];
      KeySpend(rows[..|rows| - 1], key) + if row.key == key then Cost(row.cost) else 0.0
  }

  lemma {:induction false} CostIsTheSum(costs: Series)
    ensures Sum(Amounts(costs)) == Cost(costs)
  {
    if costs != [] {
      CostIsTheSum(costs[1..]);
      assert Amounts(costs)[1..] == Amounts(costs[1..]);
    }
  }

  lemma {:induction false} KeySums(rows: seq<ChartRow>, key: string, i: nat)
    ensures Sum(Column(RowValues(Having(rows, key)), i)) == KeyDay(rows, key, i)
    ensures Sum(RowSpends(Having(rows, key))) == KeySpend(rows, key)
  {
    if rows != [] {
      var before, row := rows[..|rows| - 1], rows[|rows| - 1];
      KeySums(before, key, i);
      CostIsTheSum(row.cost);
      if row.key == key { RowsLast(Having(before, key), row, i); } else {
        assert Having(rows, key) == Having(before, key);
      }
    }
  }

  /** A chart group: its days and spend are those of the rows of its key. */
  ghost predicate GroupTells(g: ChartGroup, rows: seq<ChartRow>, days: nat) {
    && |g.values| == days && g.spend == KeySpend(rows, g.key)
    && forall i | 0 <= i < days :: (if g.values[i].Some? then g.values[i].value else 0.0) == KeyDay(rows, g.key, i)
  }

  lemma HoldsTells(g: ChartGroup, rows: seq<ChartRow>, days: nat)
    requires Holds(g, rows, days)
    ensures GroupTells(g, rows, days)
  {
    KeySums(rows, g.key, 0);
    forall i | 0 <= i < days
      ensures OrZero(g.values[i]) == KeyDay(rows, g.key, i)
    {
      KeySums(rows, g.key, i);
      TotalAddsUp(None, RowValues(Having(rows, g.key)), i);
    }
  }

  /** Higher spend first, and by name within one spend. */
  ghost predicate BySpendThenName(chart: seq<ChartGroup>) {
    forall i, j | 0 <= i < j < |chart| ::
      chart[i].spend > chart[j].spend || (chart[i].spend == chart[j].spend && !Less(chart[j].name, chart[i].name))
  }

  method BuildChart(rows: seq<ChartRow>, days: nat) returns (chart: seq<ChartGroup>)
    ensures Ordered(chart) && Partitions(chart, rows, days) && Conserves(chart, rows, days)
    ensures BySpendThenName(chart) && forall g | g in chart :: GroupTells(g, rows, days)
  {
    var groups: seq<ChartGroup> := [];
    for r := 0 to |rows|
      invariant Partitions(groups, rows[..r], days) && Conserves(groups, rows[..r], days)
    {
      groups := ChartOneRow(groups, rows[..r], rows[r], days);
      assert rows[..r + 1] == rows[..r] + [rows[r]];
    }
    assert rows[..|rows|] == rows;
    chart := SortGroups(groups);
    assert Keys(chart) == Keys(groups);
    forall g | g in chart ensures GroupTells(g, rows, days) { HoldsTells(g, rows, days); }
  }

  method ChartOneRow(groups: seq<ChartGroup>, ghost before: seq<ChartRow>, row: ChartRow, days: nat)
    returns (groups': seq<ChartGroup>)
    requires Partitions(groups, before, days) && Conserves(groups, before, days)
    ensures Partitions(groups', before + [row], days) && Conserves(groups', before + [row], days)
  {
    groups' := groups;
    var k := Find(groups, row.key);
    if k == |groups| {
      forall g | g in groups ensures g.key != row.key {
        var i :| 0 <= i < |groups| && groups[i] == g;
      }
      assert row.key !in Keys(groups);
      NoRowsNoValues(before, row.key);
      NewGroupConserves(groups, before, days, row.key, row.name);
      groups' := groups + [ChartGroup(row.key, row.name, Nulls(days), 0.0)];
      assert Keys(groups') == Keys(groups) + {row.key};
      assert Totals(Nulls(days), RowValues([])) == Nulls(days);
    } else {
      assert groups[k] in groups;
      SomeRowHasIt(before, row.key);
      assert Keys(groups) == RowKeys(before) + {row.key};
    }
    assert groups'[k] in groups';
    AddRowConserves(groups', before, days, row, k);
    AddRowPartitions(groups', before, days, row, k);
    groups' := groups'[k := AddRow(groups'[k], row)];
  }
}
