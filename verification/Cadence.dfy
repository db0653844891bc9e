/** The fixed-grid cadence: slots are anchored to the epoch, never to the previous run. */
module Cadence {
  import opened Options

  /** Instants are microseconds since the epoch; slots and settings are whole seconds. */
  const MICROS := 1_000_000

  function SlotStart(now: nat, anchor: int, frequency: int): int
    requires frequency > 0
  {
    (now / MICROS - anchor) / frequency * frequency + anchor
  }

  predicate IsDue(now: nat, last: Option<nat>, anchor: int, frequency: int) {
    frequency > 0 && (last.None? || last.value < SlotStart(now, anchor, frequency) * MICROS)
  }

  function GridPoint(k: int, anchor: int, frequency: int): int {
    k * frequency + anchor
  }

  ghost predicate OnGrid(second: int, anchor: int, frequency: int) {
    exists k :: second == GridPoint(k, anchor, frequency)
  }

  lemma Multiples(a: int, b: int, f: int)
    requires f > 0 && a < b
    ensures a * f + f <= b * f
  {
    assert (b - a - 1) * f >= 0;
    assert b * f == (b - a - 1) * f + a * f + f;
  }

  /** Two grid points are at least one period apart. */
  lemma GridPointsApart(g: int, h: int, anchor: int, f: int)
    requires f > 0 && OnGrid(g, anchor, f) && OnGrid(h, anchor, f) && g < h
    ensures g + f <= h
  {
    var a :| g == GridPoint(a, anchor, f);
    var b :| h == GridPoint(b, anchor, f);
    if b < a { Multiples(b, a, f); } else if a < b { Multiples(a, b, f); }
  }

  /** The slot is the one grid point with slot <= now < slot + frequency. */
  lemma SlotIsTheGridCell(now: nat, anchor: int, frequency: int, g: int)
    requires frequency > 0
    ensures var slot := SlotStart(now, anchor, frequency);
      && OnGrid(slot, anchor, frequency)
      && slot * MICROS <= now < (slot + frequency) * MICROS
      && ((OnGrid(g, anchor, frequency) && g * MICROS <= now < (g + frequency) * MICROS) <==> g == slot)
  {
    var slot := SlotStart(now, anchor, frequency);
    assert slot == GridPoint((now / MICROS - anchor) / frequency, anchor, frequency);
    if OnGrid(g, anchor, frequency) && g * MICROS <= now < (g + frequency) * MICROS {
      if g < slot { GridPointsApart(g, slot, anchor, frequency); }
      if slot < g { GridPointsApart(slot, g, anchor, frequency); }
    }
  }

  lemma SlotsAreMonotone(t: nat, u: nat, anchor: int, frequency: int)
    requires frequency > 0 && t <= u
    ensures SlotStart(t, anchor, frequency) <= SlotStart(u, anchor, frequency)
  {
    var s, v := SlotStart(t, anchor, frequency), SlotStart(u, anchor, frequency);
    SlotIsTheGridCell(t, anchor, frequency, s);
    SlotIsTheGridCell(u, anchor, frequency, v);
    if v < s { GridPointsApart(v, s, anchor, frequency); }
  }

  /** After a dispatch at last, the next due instant is exactly the next grid point. */
  lemma DueFromTheNextGridPoint(now: nat, last: nat, anchor: int, frequency: int)
    requires frequency > 0
    ensures IsDue(now, Some(last), anchor, frequency) <==>
        now >= (SlotStart(last, anchor, frequency) + frequency) * MICROS
  {
    var s, v := SlotStart(last, anchor, frequency), SlotStart(now, anchor, frequency);
    SlotIsTheGridCell(last, anchor, frequency, s);
    SlotIsTheGridCell(now, anchor, frequency, v);
    if s < v { GridPointsApart(s, v, anchor, frequency); }
    if v <= s && s + frequency <= now / MICROS {
      PeriodLater(s, anchor, frequency);
      GridPointsApart(v, s + frequency, anchor, frequency);
    }
  }

  lemma PeriodLater(g: int, anchor: int, f: int)
    requires OnGrid(g, anchor, f)
    ensures OnGrid(g + f, anchor, f)
  {
    var a :| g == GridPoint(a, anchor, f);
    assert g + f == GridPoint(a + 1, anchor, f);
  }

  /** A pipeline is due exactly if it is not manual and has never run or a grid point has come since it did. */
  lemma DueExactlyWhenAGridPointHasCome(now: nat, last: Option<nat>, anchor: int, frequency: int)
    ensures IsDue(now, last, anchor, frequency) <==>
            frequency > 0 && (last == None || PointSince(last.value, now, anchor, frequency))
  {
    if frequency > 0 && last.Some? {
      var slot := SlotStart(now, anchor, frequency);
      SlotIsTheGridCell(now, anchor, frequency, slot);
      if PointSince(last.value, now, anchor, frequency) {
        var g :| OnGrid(g, anchor, frequency) && last.value < g * MICROS <= now;
        if slot < g { GridPointsApart(slot, g, anchor, frequency); }
      }
    }
  }

  ghost predicate PointSince(last: nat, now: nat, anchor: int, frequency: int) {
    exists g :: OnGrid(g, anchor, frequency) && last < g * MICROS <= now
  }

  /** The displayed nextDueAt, last + frequency, is never early: the pipeline is due by then. */
  lemma DueByTheDisplayedTime(last: nat, anchor: int, frequency: int)
    requires frequency > 0
    ensures IsDue(last + frequency * MICROS, Some(last), anchor, frequency)
  {
    DueFromTheNextGridPoint(last + frequency * MICROS, last, anchor, frequency);
    SlotIsTheGridCell(last, anchor, frequency, 0);
  }

  // ---- sequences of recorded dispatch times ----

  ghost predicate LaterSlots(slot: int, d: seq<nat>, anchor: int, frequency: int)
    requires frequency > 0
  {
    forall i | 0 <= i < |d| :: slot < SlotStart(d[i], anchor, frequency)
  }

  ghost predicate SlotsIncrease(d: seq<nat>, anchor: int, frequency: int)
    requires frequency > 0
  {
    forall i, j | 0 <= i < j < |d| :: SlotStart(d[i], anchor, frequency) < SlotStart(d[j], anchor, frequency)
  }

  /** A dispatch that was due is recorded in a later slot, even if the recorded time crosses into the next one. */
  lemma DueMeansALaterSlot(now: nat, recorded: nat, last: nat, anchor: int, frequency: int)
    requires frequency > 0 && now <= recorded && IsDue(now, Some(last), anchor, frequency)
    ensures SlotStart(last, anchor, frequency) < SlotStart(recorded, anchor, frequency) && last < recorded
  {
    SlotIsTheGridCell(last, anchor, frequency, 0);
    SlotIsTheGridCell(now, anchor, frequency, 0);
    SlotsAreMonotone(now, recorded, anchor, frequency);
  }

  lemma PrependSlot(t: nat, d: seq<nat>, anchor: int, frequency: int)
    requires frequency > 0 && SlotsIncrease(d, anchor, frequency)
    requires LaterSlots(SlotStart(t, anchor, frequency), d, anchor, frequency)
    ensures SlotsIncrease([t] + d, anchor, frequency)
  {
  }
}
