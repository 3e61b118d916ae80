/**
 Recurrences in a time zone. The program lists a few nearby occurrences and picks the nearest instant;
 here the list is proved long enough, for every zone whose offsets differ by at most 24 hours.
 */
module Aware {
  import opened Wrappers
  import opened Calendar
  import opened Schedule

  /**
   A zone: the offset from UTC at each instant, and the offset that turns a wall-clock time into an
   instant (the first one for an ambiguous time; a time inside a gap moves past the gap, which is the
   offset before it). All offsets lie in one day from `base`.
   */
  datatype Zone = Zone(base: int, utcOffset: int -> int, wallOffset: Wall -> int)

  ghost predicate Bounded(z: Zone) {
    && (forall t: int :: z.base <= z.utcOffset(t) <= z.base + DAY)
    && (forall w: Wall :: z.base <= z.wallOffset(w) <= z.base + DAY)
  }

  function Instant(z: Zone, w: Wall): int {
    w.Micros() - z.wallOffset(w)
  }

  /** `now.astimezone(zone).replace(tzinfo=None)`. */
  function WallNow(z: Zone, now: int): (w: Wall)
    ensures w.Proper() && w.Micros() == now + z.utcOffset(now)
  {
    var local := now + z.utcOffset(now);
    Wall(local / DAY, local % DAY)
  }

  // ---------------------------------------------------------------- the candidate list

  ghost predicate InWindow(r: Rule, wallNow: Wall, w: Wall)
    requires Normal(r) && wallNow.day >= 1
  {
    match r.recurrence
    case Daily => wallNow.day - 2 <= w.day <= wallNow.day + 2
    case Weekly => wallNow.day - 21 <= w.day <= wallNow.day + 21
    case Biweekly => wallNow.day - 21 <= w.day <= wallNow.day + 21
    case _ => exists k: nat :: NearIndex(r, wallNow) - 2 <= k < NearIndex(r, wallNow) + 4 && w == Occurrence(r, k)
  }

  /** `_aware_schedule_candidates`, as wall-clock times. */
  method WallSlots(r: Rule, wallNow: Wall) returns (slots: seq<Wall>)
    requires Normal(r) && wallNow.day >= 1
    ensures forall w :: w in slots <==> IsSlot(r, w) && InWindow(r, wallNow, w)
  {
    if r.recurrence.Daily? {
      slots := DailySlots(r, wallNow);
    } else if r.recurrence.Weekly? || r.recurrence.Biweekly? {
      slots := WeeklySlots(r, wallNow);
    } else {
      slots := MonthlySlots(r, wallNow);
    }
  }

  method DailySlots(r: Rule, wallNow: Wall) returns (slots: seq<Wall>)
    requires Normal(r) && r.recurrence.Daily? && wallNow.day >= 1
    ensures forall w :: w in slots <==> IsSlot(r, w) && InWindow(r, wallNow, w)
  {
    slots := [];
    for delta := -2 to 3
      invariant forall w :: w in slots <==> w.clock == r.clock && wallNow.day - 2 <= w.day < wallNow.day + delta
    {
      slots := slots + [SameDay(r, wallNow.Plus(delta))];
    }
  }

  method WeeklySlots(r: Rule, wallNow: Wall) returns (slots: seq<Wall>)
    requires Normal(r) && (r.recurrence.Weekly? || r.recurrence.Biweekly?) && wallNow.day >= 1
    ensures forall w :: w in slots <==> IsSlot(r, w) && InWindow(r, wallNow, w)
  {
    hide Weekday, WeekStart;
    slots := [];
    for delta := -21 to 22
      invariant forall w :: w in slots <==> IsSlot(r, w) && wallNow.day - 21 <= w.day < wallNow.day + delta
    {
      var day := wallNow.day + delta;
      if Weekday(day) != r.weekday {
        continue;
      }
      var weeks := (WeekStart(day) - WeekStart(r.anchor.day)) / 7;
      if r.recurrence.Biweekly? && (weeks < 0 || weeks % 2 != 0) {
        continue;
      }
      slots := slots + [Wall(day, r.clock)];
    }
  }

  method MonthlySlots(r: Rule, wallNow: Wall) returns (slots: seq<Wall>)
    requires Normal(r) && ByMonth(r) && wallNow.day >= 1
    ensures forall w :: w in slots <==> IsSlot(r, w) && InWindow(r, wallNow, w)
  {
    hide MonthOf, ShiftMonths;
    var nearIndex := Max(0, (MonthOf(wallNow.day) - MonthOf(r.anchor.day)) / MonthStep(r));
    var low := Max(0, nearIndex - 2);
    slots := [];
    for index := low to nearIndex + 4
      invariant |slots| == index - low
      invariant forall i | 0 <= i < |slots| :: slots[i] == Occurrence(r, low + i)
    {
      slots := slots + [Wall(ShiftMonths(r.anchor.day, index * MonthStep(r)), r.clock)];
    }
    ListedOccurrences(r, wallNow, slots, low);
  }

  lemma ListedOccurrences(r: Rule, wallNow: Wall, slots: seq<Wall>, low: nat)
    requires Normal(r) && ByMonth(r) && wallNow.day >= 1
    requires low == Max(0, NearIndex(r, wallNow) - 2) && |slots| == NearIndex(r, wallNow) + 4 - low
    requires forall i | 0 <= i < |slots| :: slots[i] == Occurrence(r, low + i)
    ensures forall w :: w in slots <==> IsSlot(r, w) && InWindow(r, wallNow, w)
  {
    hide Occurrence, NearIndex;
    forall w | w in slots
      ensures IsSlot(r, w) && InWindow(r, wallNow, w)
    {
      var i :| 0 <= i < |slots| && slots[i] == w;
      assert w == Occurrence(r, low + i);
    }
    forall w | IsSlot(r, w) && InWindow(r, wallNow, w)
      ensures w in slots
    {
      var k: nat :| NearIndex(r, wallNow) - 2 <= k < NearIndex(r, wallNow) + 4 && w == Occurrence(r, k);
      assert slots[k - low] == w;
    }
  }

  // ---------------------------------------------------------------- the nearest instant

  /** `t` is the first instant of an occurrence after `now`, among those that `among` admits. */
  ghost predicate IsFirst(r: Rule, z: Zone, among: Wall -> bool, now: int, t: Option<int>)
    requires Normal(r)
  {
    match t
    case Some(i) =>
      && now < i && (exists w :: IsSlot(r, w) && among(w) && Instant(z, w) == i)
      && forall w | IsSlot(r, w) && among(w) && now < Instant(z, w) :: i <= Instant(z, w)
    case None => forall w | IsSlot(r, w) && among(w) :: Instant(z, w) <= now
  }

  /** `t` is the last instant of an occurrence up to `now`, among those that `among` admits. */
  ghost predicate IsLast(r: Rule, z: Zone, among: Wall -> bool, now: int, t: Option<int>)
    requires Normal(r)
  {
    match t
    case Some(i) =>
      && i <= now && (exists w :: IsSlot(r, w) && among(w) && Instant(z, w) == i)
      && forall w | IsSlot(r, w) && among(w) && Instant(z, w) <= now :: Instant(z, w) <= i
    case None => forall w | IsSlot(r, w) && among(w) :: now < Instant(z, w)
  }

  ghost function Listed(r: Rule, z: Zone, now: int): Wall -> bool
    requires Normal(r) && WallNow(z, now).day >= 1
  {
    var wallNow := WallNow(z, now);
    w => InWindow(r, wallNow, w)
  }

  ghost function Anywhere(): Wall -> bool {
    w => true
  }

  method NearestAwareRun(r: Rule, z: Zone, now: int, nextRun: bool) returns (t: Option<int>)
    requires Normal(r) && WallNow(z, now).day >= 1
    ensures nextRun ==> IsFirst(r, z, Listed(r, z, now), now, t)
    ensures !nextRun ==> IsLast(r, z, Listed(r, z, now), now, t)
  {
    hide IsSlot, InWindow, Instant;
    var candidates := WallSlots(r, WallNow(z, now));
    t := None;
    for i := 0 to |candidates|
      invariant t.None? ==> forall k | 0 <= k < i :: (Instant(z, candidates[k]) > now) != nextRun
      invariant t.Some? ==>
        && (t.value > now) == nextRun
        && (exists k | 0 <= k < i :: Instant(z, candidates[k]) == t.value)
        && forall k | 0 <= k < i && (Instant(z, candidates[k]) > now) == nextRun ::
             if nextRun then t.value <= Instant(z, candidates[k]) else Instant(z, candidates[k]) <= t.value
    {
      var instant := Instant(z, candidates[i]);
      if (instant > now) == nextRun {
        if t.None? || (if nextRun then instant < t.value else instant > t.value) {
          t := Some(instant);
        }
      }
    }
    assert forall w | IsSlot(r, w) && Listed(r, z, now)(w) :: w in candidates;
  }

  /** The previous run is not after now, the next one is, and no other occurrence lies between. */
  lemma RunsSplitNow(r: Rule, z: Zone, among: Wall -> bool, now: int, p: int, n: int, w: Wall)
    requires Normal(r) && IsLast(r, z, among, now, Some(p)) && IsFirst(r, z, among, now, Some(n))
    ensures p <= now < n
    ensures IsSlot(r, w) && among(w) ==> Instant(z, w) <= p || n <= Instant(z, w)
    ensures exists s, t :: IsSlot(r, s) && Instant(z, s) == p && IsSlot(r, t) && Instant(z, t) == n
  {
    hide IsSlot, Instant;
    var s :| IsSlot(r, s) && among(s) && Instant(z, s) == p;
    var t :| IsSlot(r, t) && among(t) && Instant(z, t) == n;
    assert IsSlot(r, s) && Instant(z, s) == p && IsSlot(r, t) && Instant(z, t) == n;
  }

  // ---------------------------------------------------------------- the list is long enough

  /** Two days ahead is certainly later, two days behind certainly earlier, whatever the offsets. */
  lemma TwoDaysDecide(z: Zone, now: int, w: Wall)
    requires Bounded(z) && w.Proper()
    ensures w.day >= WallNow(z, now).day + 2 ==> Instant(z, w) > now
    ensures w.day <= WallNow(z, now).day - 2 ==> Instant(z, w) < now
  {
    var a, b := z.utcOffset(now), z.wallOffset(w);
  }

  /** Occurrences a day or more apart keep their order as instants. */
  lemma InstantsInOrder(z: Zone, a: Wall, b: Wall)
    requires Bounded(z) && a.clock == b.clock && a.day < b.day
    ensures Instant(z, a) <= Instant(z, b)
  {
    var x, y := z.wallOffset(a), z.wallOffset(b);
  }

  lemma SlotClock(r: Rule, w: Wall)
    requires Normal(r) && IsSlot(r, w)
    ensures w.clock == r.clock && w.Proper()
  {
  }

  /** Every unlisted occurrence is well past, or not before a listed one that is well ahead. */
  ghost predicate NextCovered(r: Rule, wallNow: Wall)
    requires Normal(r) && wallNow.day >= 1
  {
    forall s: Wall | IsSlot(r, s) && !InWindow(r, wallNow, s) ::
      s.day <= wallNow.day - 2
      || exists c: Wall :: IsSlot(r, c) && InWindow(r, wallNow, c) && wallNow.day + 2 <= c.day <= s.day
  }

  ghost predicate PreviousCovered(r: Rule, wallNow: Wall)
    requires Normal(r) && wallNow.day >= 1
  {
    forall s: Wall | IsSlot(r, s) && !InWindow(r, wallNow, s) ::
      s.day >= wallNow.day + 2
      || exists c: Wall :: IsSlot(r, c) && InWindow(r, wallNow, c) && s.day <= c.day <= wallNow.day - 2
  }

  lemma CoveredFirst(r: Rule, z: Zone, now: int, t: Option<int>)
    requires Normal(r) && Bounded(z) && WallNow(z, now).day >= 1 && NextCovered(r, WallNow(z, now))
    requires IsFirst(r, z, Listed(r, z, now), now, t)
    ensures IsFirst(r, z, Anywhere(), now, t)
  {
    hide IsSlot, InWindow, Instant, WallNow, Bounded;
    var wallNow := WallNow(z, now);
    forall s: Wall | IsSlot(r, s) && now < Instant(z, s)
      ensures t.Some? && t.value <= Instant(z, s)
    {
      SlotClock(r, s);
      if InWindow(r, wallNow, s) {
        assert Listed(r, z, now)(s);
      } else {
        TwoDaysDecide(z, now, s);
        var c: Wall :| IsSlot(r, c) && InWindow(r, wallNow, c) && wallNow.day + 2 <= c.day <= s.day;
        assert Listed(r, z, now)(c);
        SlotClock(r, c);
        TwoDaysDecide(z, now, c);
        if c != s {
          InstantsInOrder(z, c, s);
        }
      }
    }
    if t.Some? {
      var w :| IsSlot(r, w) && Listed(r, z, now)(w) && Instant(z, w) == t.value;
      assert Anywhere()(w);
    }
  }

  lemma CoveredLast(r: Rule, z: Zone, now: int, t: Option<int>)
    requires Normal(r) && Bounded(z) && WallNow(z, now).day >= 1 && PreviousCovered(r, WallNow(z, now))
    requires IsLast(r, z, Listed(r, z, now), now, t)
    ensures IsLast(r, z, Anywhere(), now, t)
  {
    hide IsSlot, InWindow, Instant, WallNow, Bounded;
    var wallNow := WallNow(z, now);
    forall s: Wall | IsSlot(r, s) && Instant(z, s) <= now
      ensures t.Some? && Instant(z, s) <= t.value
    {
      SlotClock(r, s);
      if InWindow(r, wallNow, s) {
        assert Listed(r, z, now)(s);
      } else {
        TwoDaysDecide(z, now, s);
        var c: Wall :| IsSlot(r, c) && InWindow(r, wallNow, c) && s.day <= c.day <= wallNow.day - 2;
        assert Listed(r, z, now)(c);
        SlotClock(r, c);
        TwoDaysDecide(z, now, c);
        if c != s {
          InstantsInOrder(z, s, c);
        }
      }
    }
    if t.Some? {
      var w :| IsSlot(r, w) && Listed(r, z, now)(w) && Instant(z, w) == t.value;
      assert Anywhere()(w);
    }
  }

  // ---------------------------------------------------------------- each recurrence

  lemma DailyCovered(r: Rule, wallNow: Wall)
    requires Normal(r) && r.recurrence.Daily? && wallNow.day >= 1
    ensures NextCovered(r, wallNow) && PreviousCovered(r, wallNow)
  {
    assert IsSlot(r, Wall(wallNow.day + 2, r.clock)) && InWindow(r, wallNow, Wall(wallNow.day + 2, r.clock));
    assert IsSlot(r, Wall(wallNow.day - 2, r.clock)) && InWindow(r, wallNow, Wall(wallNow.day - 2, r.clock));
  }

  lemma WeeklyCovered(r: Rule, wallNow: Wall)
    requires Normal(r) && r.recurrence.Weekly? && wallNow.day >= 1
    ensures NextCovered(r, wallNow) && PreviousCovered(r, wallNow)
  {
    WeekdayShift(wallNow.day + 2, r.weekday);
    WeekdayShift(wallNow.day - 2, r.weekday);
    var ahead := Wall(wallNow.day + 2 + (r.weekday - Weekday(wallNow.day + 2)) % 7, r.clock);
    var behind := Wall(wallNow.day - 2 - (Weekday(wallNow.day - 2) - r.weekday) % 7, r.clock);
    hide Weekday;
    assert IsSlot(r, ahead) && InWindow(r, wallNow, ahead);
    assert IsSlot(r, behind) && InWindow(r, wallNow, behind);
  }

  lemma MonthlyCovered(r: Rule, wallNow: Wall)
    requires Normal(r) && ByMonth(r) && wallNow.day >= 1
    ensures NextCovered(r, wallNow) && PreviousCovered(r, wallNow)
  {
    hide Occurrence, NearIndex;
    var near := NearIndex(r, wallNow);
    forall s: Wall | IsSlot(r, s) && !InWindow(r, wallNow, s)
      ensures s.day <= wallNow.day - 2
        || exists c: Wall :: IsSlot(r, c) && InWindow(r, wallNow, c) && wallNow.day + 2 <= c.day <= s.day
      ensures s.day >= wallNow.day + 2
        || exists c: Wall :: IsSlot(r, c) && InWindow(r, wallNow, c) && s.day <= c.day <= wallNow.day - 2
    {
      var k: nat :| s == Occurrence(r, k);
      assert k < near - 2 || near + 4 <= k;
      if k < near - 2 {
        OccurrencesApart(r, k, near - 2);
        OccurrencesApart(r, near - 2, near - 1);
        NearIndexSplits(r, wallNow, near - 1);
        assert IsSlot(r, Occurrence(r, near - 2)) && InWindow(r, wallNow, Occurrence(r, near - 2));
      } else {
        NearIndexSplits(r, wallNow, near + 1);
        OccurrencesApart(r, near + 1, near + 2);
        OccurrencesApart(r, near + 2, k);
        assert IsSlot(r, Occurrence(r, near + 2)) && InWindow(r, wallNow, Occurrence(r, near + 2));
      }
    }
  }

  /** The first day of a two-weekly cycle: the rule's weekday in the anchor's week. */
  function FirstDay(r: Rule): int {
    WeekStart(r.anchor.day) + r.weekday
  }

  lemma {:induction false} CycleShift(r: Rule, w: Wall, j: nat)
    requires Normal(r) && r.recurrence.Biweekly? && IsSlot(r, w)
    ensures IsSlot(r, w.Plus(14 * j))
  {
    hide Weekday, WeekStart;
    if j > 0 {
      CycleShift(r, w, j - 1);
      var day := w.day + 14 * (j - 1);
      WeekLater(r, day);
      WeekLater(r, day + 7);
    }
  }

  lemma FirstIsFirst(r: Rule, w: Wall)
    requires Normal(r) && r.recurrence.Biweekly?
    ensures IsSlot(r, Wall(FirstDay(r), r.clock))
    ensures IsSlot(r, w) ==> FirstDay(r) <= w.day
  {
  }

  /** From an occurrence on day `s`, one in any later fortnight. */
  lemma InFortnight(r: Rule, s: Wall, from: int) returns (c: Wall)
    requires Normal(r) && r.recurrence.Biweekly? && IsSlot(r, s) && s.day < from
    ensures IsSlot(r, c) && from <= c.day < from + 14 && s.day <= c.day
  {
    var j := (from - s.day + 13) / 14;
    CycleShift(r, s, j);
    c := s.Plus(14 * j);
  }

  lemma BiweeklyPreviousCovered(r: Rule, wallNow: Wall)
    requires Normal(r) && r.recurrence.Biweekly? && wallNow.day >= 1
    ensures PreviousCovered(r, wallNow)
  {
    forall s: Wall | IsSlot(r, s) && !InWindow(r, wallNow, s) && s.day < wallNow.day + 2
      ensures exists c: Wall :: IsSlot(r, c) && InWindow(r, wallNow, c) && s.day <= c.day <= wallNow.day - 2
    {
      hide IsSlot;
      var c := InFortnight(r, s, wallNow.day - 15);
      assert InWindow(r, wallNow, c);
    }
  }

  lemma BiweeklyNextCovered(r: Rule, wallNow: Wall)
    requires Normal(r) && r.recurrence.Biweekly? && wallNow.day >= 1 && FirstDay(r) <= wallNow.day + 21
    ensures NextCovered(r, wallNow)
  {
    hide IsSlot, FirstDay;
    var first := Wall(FirstDay(r), r.clock);
    FirstIsFirst(r, first);
    var c: Wall;
    if first.day < wallNow.day + 2 {
      c := InFortnight(r, first, wallNow.day + 2);
    } else {
      c := first;
    }
    assert InWindow(r, wallNow, c);
    forall s: Wall | IsSlot(r, s) && !InWindow(r, wallNow, s) && s.day > wallNow.day - 2
      ensures wallNow.day + 2 <= c.day <= s.day
    {
    }
  }

  /**
   The previous run: for every recurrence, the last listed occurrence up to now is the last of all.
   */
  lemma PreviousRunIsComplete(r: Rule, z: Zone, now: int, t: Option<int>)
    requires Normal(r) && Bounded(z) && WallNow(z, now).day >= 1
    requires IsLast(r, z, Listed(r, z, now), now, t)
    ensures IsLast(r, z, Anywhere(), now, t)
  {
    hide IsSlot, PreviousCovered, IsLast;
    var wallNow := WallNow(z, now);
    match r.recurrence {
      case Daily => DailyCovered(r, wallNow);
      case Weekly => WeeklyCovered(r, wallNow);
      case Biweekly => BiweeklyPreviousCovered(r, wallNow);
      case _ => MonthlyCovered(r, wallNow);
    }
    CoveredLast(r, z, now, t);
  }

  /**
   The next run: the first listed occurrence after now is the first of all, except that a two-weekly
   rule whose first day is more than three weeks ahead gets no next run although it has one.
   */
  lemma NextRunIsCompleteIff(r: Rule, z: Zone, now: int, t: Option<int>)
    requires Normal(r) && Bounded(z) && WallNow(z, now).day >= 1
    requires IsFirst(r, z, Listed(r, z, now), now, t)
    ensures IsFirst(r, z, Anywhere(), now, t) <==>
      (r.recurrence.Biweekly? ==> FirstDay(r) <= WallNow(z, now).day + 21)
  {
    var wallNow := WallNow(z, now);
    if r.recurrence.Biweekly? && FirstDay(r) > wallNow.day + 21 {
      FarAnchorHasNoNext(r, z, now, t);
    } else {
      hide IsSlot, NextCovered, IsFirst, FirstDay;
      match r.recurrence {
        case Daily => DailyCovered(r, wallNow);
        case Weekly => WeeklyCovered(r, wallNow);
        case Biweekly => BiweeklyNextCovered(r, wallNow);
        case _ => MonthlyCovered(r, wallNow);
      }
      CoveredFirst(r, z, now, t);
    }
  }

  lemma FarAnchorHasNoNext(r: Rule, z: Zone, now: int, t: Option<int>)
    requires Normal(r) && Bounded(z) && WallNow(z, now).day >= 1
    requires r.recurrence.Biweekly? && FirstDay(r) > WallNow(z, now).day + 21
    requires IsFirst(r, z, Listed(r, z, now), now, t)
    ensures t.None? && !IsFirst(r, z, Anywhere(), now, t)
  {
    hide IsSlot, FirstDay, Instant;
    var first := Wall(FirstDay(r), r.clock);
    FirstIsFirst(r, first);
    SlotClock(r, first);
    TwoDaysDecide(z, now, first);
    assert Anywhere()(first);
    if t.Some? {
      var w :| IsSlot(r, w) && Listed(r, z, now)(w) && Instant(z, w) == t.value;
      FirstIsFirst(r, w);
    }
  }

  /** A later search never finds an earlier run. */
  lemma PreviousRunMovesForward(r: Rule, z: Zone, now: int, later: int, t: Option<int>, u: Option<int>)
    requires Normal(r) && Bounded(z) && WallNow(z, now).day >= 1 && WallNow(z, later).day >= 1
    requires IsLast(r, z, Listed(r, z, now), now, t) && IsLast(r, z, Listed(r, z, later), later, u)
    requires now <= later && t.Some?
    ensures t.value <= now && u.Some? && t.value <= u.value
  {
    PreviousRunIsComplete(r, z, now, t);
    PreviousRunIsComplete(r, z, later, u);
    hide IsSlot, Instant, Listed;
    var w :| IsSlot(r, w) && Anywhere()(w) && Instant(z, w) == t.value;
  }
}
