/**
 Recurrences on a naive wall clock. `IsSlot` says which times are occurrences of a rule; the program's
 two searches are proved to return the least occurrence after now and the greatest one up to now.
 */
module Schedule {
  import opened Wrappers
  import opened Calendar

  datatype Recurrence = Daily | Weekly | Biweekly | Monthly | Quarterly

  /** `clock` is the normalized time of day; `weekday` is 0 for Monday. */
  datatype Rule = Rule(recurrence: Recurrence, weekday: int, clock: int, anchor: Wall)

  predicate Normal(r: Rule) {
    0 <= r.weekday < 7 && 0 <= r.clock < DAY && r.anchor.day >= 1
  }

  // ---------------------------------------------------------------- occurrences

  predicate OnWeekday(r: Rule, t: Wall) {
    t.clock == r.clock && Weekday(t.day) == r.weekday
  }

  /** Whole weeks from the anchor's week to the day's. */
  function WeeksFromAnchor(r: Rule, day: int): int {
    (WeekStart(day) - WeekStart(r.anchor.day)) / 7
  }

  predicate InCycle(r: Rule, day: int) {
    WeeksFromAnchor(r, day) >= 0 && WeeksFromAnchor(r, day) % 2 == 0
  }

  function MonthStep(r: Rule): (n: nat)
    ensures n == 1 || n == 3
  {
    if r.recurrence.Quarterly? then 3 else 1
  }

  predicate ByMonth(r: Rule) {
    r.recurrence.Monthly? || r.recurrence.Quarterly?
  }

  /** The k-th monthly or quarterly occurrence, always shifted from the anchor. */
  function Occurrence(r: Rule, k: nat): Wall
    requires r.anchor.day >= 1
  {
    Wall(ShiftMonths(r.anchor.day, k * MonthStep(r)), r.clock)
  }

  ghost predicate IsSlot(r: Rule, t: Wall)
    requires Normal(r)
  {
    match r.recurrence
    case Daily => t.clock == r.clock
    case Weekly => OnWeekday(r, t)
    case Biweekly => OnWeekday(r, t) && InCycle(r, t.day)
    case _ => exists k: nat :: t == Occurrence(r, k)
  }

  /** `t` is the first occurrence after `now`. */
  ghost predicate IsNext(r: Rule, now: Wall, t: Wall)
    requires Normal(r)
  {
    IsSlot(r, t) && now.Less(t) && forall s: Wall | now.Less(s) && s.Less(t) :: !IsSlot(r, s)
  }

  predicate NotBefore(floor: Option<Wall>, t: Wall) {
    floor.Some? ==> floor.value.AtMost(t)
  }

  /** `t` is the last occurrence from `floor` up to `now`, if there is one. */
  ghost predicate IsPrevious(r: Rule, floor: Option<Wall>, now: Wall, t: Option<Wall>)
    requires Normal(r)
  {
    match t
    case Some(p) =>
      && IsSlot(r, p) && p.AtMost(now) && NotBefore(floor, p)
      && forall s: Wall | p.Less(s) && s.AtMost(now) :: !IsSlot(r, s)
    case None => forall s: Wall | s.AtMost(now) && NotBefore(floor, s) :: !IsSlot(r, s)
  }

  // ---------------------------------------------------------------- daily

  /** `now.replace(hour=..., minute=..., second=0, microsecond=0)`. */
  function SameDay(r: Rule, t: Wall): Wall {
    Wall(t.day, r.clock)
  }

  function NextDaily(r: Rule, now: Wall): (t: Wall)
    requires Normal(r) && r.recurrence.Daily?
    ensures IsNext(r, now, t)
  {
    var candidate := SameDay(r, now);
    if now.Less(candidate) then candidate else candidate.Plus(1)
  }

  function PreviousDaily(r: Rule, now: Wall): (t: Wall)
    requires Normal(r) && r.recurrence.Daily?
    ensures IsPrevious(r, None, now, Some(t))
  {
    var candidate := SameDay(r, now);
    if now.Less(candidate) then candidate.Plus(-1) else candidate
  }

  // ---------------------------------------------------------------- weekly and two-weekly

  lemma WeekdayShift(day: int, w: int)
    requires 0 <= w < 7
    ensures Weekday(day + (w - Weekday(day)) % 7) == w
    ensures Weekday(day - (Weekday(day) - w) % 7) == w
  {
    var v := Weekday(day);
    var ahead, back := (w - v) % 7, (v - w) % 7;
    assert ahead == w - v || ahead == w - v + 7;
    assert back == v - w || back == v - w + 7;
  }

  lemma WeekLater(r: Rule, day: int)
    ensures Weekday(day + 7) == Weekday(day) == Weekday(day - 7)
    ensures WeeksFromAnchor(r, day + 7) == WeeksFromAnchor(r, day) + 1
  {
  }

  /** Days on the same weekday are whole weeks apart. */
  lemma SameWeekdayApart(a: int, b: int)
    requires Weekday(a) == Weekday(b) && a < b
    ensures a + 7 <= b
  {
  }

  /** No time on the weekday lies strictly between one week's and the next, or the one before. */
  lemma NothingBetween(r: Rule, a: Wall)
    requires OnWeekday(r, a)
    ensures forall s: Wall | a.Less(s) && s.Less(a.Plus(7)) :: !OnWeekday(r, s)
    ensures forall s: Wall | a.Plus(-7).Less(s) && s.Less(a) :: !OnWeekday(r, s)
  {
    hide Weekday;
    forall s: Wall | a.Less(s) && s.Less(a.Plus(7))
      ensures !OnWeekday(r, s)
    {
      if OnWeekday(r, s) { SameWeekdayApart(a.day, s.day); }
    }
    forall s: Wall | a.Plus(-7).Less(s) && s.Less(a)
      ensures !OnWeekday(r, s)
    {
      if OnWeekday(r, s) { SameWeekdayApart(s.day, a.day); }
    }
  }

  function StepsToCycle(weeksBetween: int): nat {
    if weeksBetween < 0 then 2 - weeksBetween else weeksBetween % 2
  }

  method NextWeekly(r: Rule, now: Wall, intervalWeeks: nat) returns (t: Wall)
    requires Normal(r)
    requires (r.recurrence.Weekly? && intervalWeeks == 1) || (r.recurrence.Biweekly? && intervalWeeks == 2)
    ensures IsNext(r, now, t)
  {
    var candidate := SameDay(r, now);
    WeekdayShift(now.day, r.weekday);
    candidate := candidate.Plus((r.weekday - Weekday(candidate.day)) % 7);
    WeekLater(r, candidate.day);
    if candidate.AtMost(now) {
      candidate := candidate.Plus(7);
    }
    hide Weekday;
    NothingBetween(r, candidate);
    if intervalWeeks <= 1 {
      return candidate;
    }
    t := NextInCycle(r, now, candidate, intervalWeeks);
  }

  /** The loop of `_next_weekly_run`: week by week to the next one of the cycle. */
  method NextInCycle(r: Rule, now: Wall, first: Wall, intervalWeeks: nat) returns (candidate: Wall)
    requires Normal(r) && r.recurrence.Biweekly? && intervalWeeks == 2
    requires OnWeekday(r, first) && now.Less(first)
    requires forall s: Wall | now.Less(s) && s.Less(first) :: !IsSlot(r, s)
    ensures IsNext(r, now, candidate)
  {
    candidate := first;
    hide Weekday;
    while true
      invariant OnWeekday(r, candidate) && now.Less(candidate)
      invariant forall s: Wall | now.Less(s) && s.Less(candidate) :: !IsSlot(r, s)
      decreases StepsToCycle(WeeksFromAnchor(r, candidate.day))
    {
      var weeksBetween := (WeekStart(candidate.day) - WeekStart(r.anchor.day)) / 7;
      if weeksBetween >= 0 && weeksBetween % intervalWeeks == 0 {
        return;
      }
      WeekLater(r, candidate.day);
      NothingBetween(r, candidate);
      candidate := candidate.Plus(7);
    }
  }

  lemma AfterAnchorWeek(r: Rule, day: int)
    requires r.anchor.day <= day
    ensures WeeksFromAnchor(r, day) >= 0
  {
  }

  /** The two-weekly search stops at the anchor itself, so its floor is the anchor, not the anchor's week. */
  method PreviousWeekly(r: Rule, now: Wall, intervalWeeks: nat) returns (t: Option<Wall>)
    requires Normal(r)
    requires (r.recurrence.Weekly? && intervalWeeks == 1) || (r.recurrence.Biweekly? && intervalWeeks == 2)
    ensures IsPrevious(r, if r.recurrence.Biweekly? then Some(r.anchor) else None, now, t)
    ensures r.recurrence.Weekly? ==> t.Some?
  {
    var candidate := SameDay(r, now);
    WeekdayShift(now.day, r.weekday);
    candidate := candidate.Plus(-((Weekday(candidate.day) - r.weekday) % 7));
    WeekLater(r, candidate.day);
    if now.Less(candidate) {
      candidate := candidate.Plus(-7);
    }
    hide Weekday;
    NothingBetween(r, candidate);
    if intervalWeeks <= 1 {
      return Some(candidate);
    }
    if candidate.Less(r.anchor) {
      return None;
    }
    while !candidate.Less(r.anchor)
      invariant OnWeekday(r, candidate) && candidate.AtMost(now)
      invariant forall s: Wall | candidate.Less(s) && s.AtMost(now) :: !IsSlot(r, s)
      decreases candidate.day - r.anchor.day + 7
    {
      AfterAnchorWeek(r, candidate.day);
      var weeksBetween := (WeekStart(candidate.day) - WeekStart(r.anchor.day)) / 7;
      if weeksBetween % intervalWeeks == 0 {
        return Some(candidate);
      }
      WeekLater(r, candidate.day);
      NothingBetween(r, candidate);
      candidate := candidate.Plus(-7);
    }
    return None;
  }

  // ---------------------------------------------------------------- monthly and quarterly

  /** Occurrences strictly increase, and are at least four weeks apart. */
  lemma OccurrencesApart(r: Rule, a: nat, b: nat)
    requires Normal(r) && a < b
    ensures Occurrence(r, a).day + 28 <= Occurrence(r, b).day
  {
    ShiftsApart(r.anchor.day, a * MonthStep(r), b * MonthStep(r));
  }

  lemma OccurrenceMonth(r: Rule, k: nat)
    requires Normal(r)
    ensures Occurrence(r, k).day >= 1
    ensures MonthOf(Occurrence(r, k).day) == MonthOf(r.anchor.day) + k * MonthStep(r)
  {
    ShiftedMonth(r.anchor.day, k * MonthStep(r));
  }

  lemma OccurrenceInOrder(r: Rule, a: nat, b: nat)
    requires Normal(r)
    ensures Occurrence(r, a).Less(Occurrence(r, b)) <==> a < b
  {
    if a < b {
      OccurrencesApart(r, a, b);
    } else if b < a {
      OccurrencesApart(r, b, a);
    }
  }

  lemma StepBounds(months: int, n: nat)
    requires n == 1 || n == 3
    ensures months >= 0 ==> months / n >= 0 && (months / n) * n <= months < (months / n) * n + n
    ensures months < 0 ==> months / n < 0
  {
  }

  lemma StepsInOrder(a: nat, b: nat, n: nat)
    requires (n == 1 || n == 3) && a < b
    ensures a * n + n <= b * n
  {
  }

  /** `max(0, months_since_anchor // interval)`: the occurrence at or before the month of `now`. */
  function NearIndex(r: Rule, now: Wall): nat
    requires Normal(r) && now.day >= 1
  {
    Max(0, (MonthOf(now.day) - MonthOf(r.anchor.day)) / MonthStep(r))
  }

  lemma NearIndexBounds(r: Rule, now: Wall)
    requires Normal(r) && now.day >= 1
    ensures
      var from, n, k := MonthOf(r.anchor.day), MonthStep(r), NearIndex(r, now);
      if from <= MonthOf(now.day) then from + k * n <= MonthOf(now.day) < from + k * n + n else k == 0
  {
    hide MonthOf, MonthStep;
    StepBounds(MonthOf(now.day) - MonthOf(r.anchor.day), MonthStep(r));
  }

  lemma EarlierMonth(a: int, b: int)
    requires 1 <= a && 1 <= b && MonthOf(a) < MonthOf(b)
    ensures a < b
  {
    if b <= a {
      MonthOfMonotone(b, a);
    }
  }

  /** Occurrences before the near one are past; those after it are to come. */
  lemma NearIndexSplits(r: Rule, now: Wall, k: nat)
    requires Normal(r) && now.day >= 1
    ensures k < NearIndex(r, now) ==> Occurrence(r, k).day < now.day
    ensures k > NearIndex(r, now) ==> now.day < Occurrence(r, k).day
  {
    hide MonthOf, MonthStep, Occurrence, NearIndex;
    var near := NearIndex(r, now);
    NearIndexBounds(r, now);
    OccurrenceMonth(r, k);
    if k < near {
      StepsInOrder(k, near, MonthStep(r));
      EarlierMonth(Occurrence(r, k).day, now.day);
    } else if k > near {
      StepsInOrder(near, k, MonthStep(r));
      EarlierMonth(now.day, Occurrence(r, k).day);
    }
  }

  method NextMonthly(r: Rule, now: Wall, intervalMonths: nat) returns (t: Wall)
    requires Normal(r) && ByMonth(r) && intervalMonths == MonthStep(r) && now.day >= 1
    ensures IsNext(r, now, t)
  {
    hide MonthOf, ShiftMonths, MonthStart, IsNext;
    var monthsSinceAnchor := MonthOf(now.day) - MonthOf(r.anchor.day);
    var index: nat := Max(0, monthsSinceAnchor / intervalMonths);
    assert index == NearIndex(r, now);
    t := Wall(ShiftMonths(r.anchor.day, index * intervalMonths), r.clock);
    if index > 0 {
      NearIndexSplits(r, now, index - 1);
    }
    while t.AtMost(now)
      invariant t == Occurrence(r, index)
      invariant index > 0 ==> Occurrence(r, index - 1).AtMost(now)
      decreases now.day - t.day
    {
      OccurrencesApart(r, index, index + 1);
      index := index + 1;
      t := Wall(ShiftMonths(r.anchor.day, index * intervalMonths), r.clock);
    }
    NextOccurrence(r, now, index);
  }

  lemma NextOccurrence(r: Rule, now: Wall, index: nat)
    requires Normal(r) && ByMonth(r)
    requires now.Less(Occurrence(r, index))
    requires index > 0 ==> Occurrence(r, index - 1).AtMost(now)
    ensures IsNext(r, now, Occurrence(r, index))
  {
    hide Occurrence;
    var t := Occurrence(r, index);
    forall s: Wall | now.Less(s) && s.Less(t)
      ensures !IsSlot(r, s)
    {
      if IsSlot(r, s) {
        var k: nat :| s == Occurrence(r, k);
        OccurrenceInOrder(r, k, index);
        if index > 0 {
          OccurrenceInOrder(r, index - 1, k);
        }
      }
    }
  }

  method PreviousMonthly(r: Rule, now: Wall, intervalMonths: nat) returns (t: Option<Wall>)
    requires Normal(r) && ByMonth(r) && intervalMonths == MonthStep(r) && now.day >= 1
    ensures IsPrevious(r, None, now, t)
  {
    var first := SameDay(r, r.anchor);
    hide MonthOf, ShiftMonths, MonthStart, IsPrevious;
    FirstOccurrence(r);
    if now.Less(first) {
      NothingUpTo(r, now);
      return None;
    }
    var monthsSinceAnchor := MonthOf(now.day) - MonthOf(r.anchor.day);
    var index: int := Max(0, monthsSinceAnchor / intervalMonths);
    assert index == NearIndex(r, now);
    var candidate := Wall(ShiftMonths(r.anchor.day, index * intervalMonths), r.clock);
    if now.Less(candidate) {
      index := index - 1;
      NearIndexSplits(r, now, index);
      candidate := Wall(ShiftMonths(r.anchor.day, index * intervalMonths), r.clock);
    }
    LastOccurrence(r, now, index);
    return Some(candidate);
  }

  lemma FirstOccurrence(r: Rule)
    requires Normal(r)
    ensures Occurrence(r, 0) == SameDay(r, r.anchor)
  {
  }

  lemma NothingUpTo(r: Rule, now: Wall)
    requires Normal(r) && ByMonth(r) && now.Less(Occurrence(r, 0))
    ensures IsPrevious(r, None, now, None)
  {
    forall s: Wall | s.AtMost(now)
      ensures !IsSlot(r, s)
    {
      if IsSlot(r, s) {
        var k: nat :| s == Occurrence(r, k);
        OccurrenceInOrder(r, k, 0);
      }
    }
  }

  lemma LastOccurrence(r: Rule, now: Wall, index: nat)
    requires Normal(r) && ByMonth(r) && now.day >= 1
    requires Occurrence(r, index).AtMost(now)
    requires index == NearIndex(r, now) || now.Less(Occurrence(r, index + 1))
    ensures IsPrevious(r, None, now, Some(Occurrence(r, index)))
  {
    hide Occurrence, NearIndex;
    var p := Occurrence(r, index);
    forall s: Wall | p.Less(s) && s.AtMost(now)
      ensures !IsSlot(r, s)
    {
      if IsSlot(r, s) {
        var k: nat :| s == Occurrence(r, k);
        OccurrenceInOrder(r, index, k);
        NearIndexSplits(r, now, k);
        OccurrenceInOrder(r, k, index + 1);
      }
    }
  }

  // ---------------------------------------------------------------- any recurrence

  /** `get_next_auto_monitor_run`, for an enabled rule without a time zone. */
  method NextRun(r: Rule, now: Wall) returns (t: Wall)
    requires Normal(r) && now.day >= 1
    ensures IsNext(r, now, t)
  {
    hide IsNext, MonthOf;
    match r.recurrence {
      case Daily => t := NextDaily(r, now);
      case Weekly => t := NextWeekly(r, now, 1);
      case Biweekly => t := NextWeekly(r, now, 2);
      case Monthly => t := NextMonthly(r, now, 1);
      case Quarterly => t := NextMonthly(r, now, 3);
    }
  }

  /** The choice in `get_previous_auto_monitor_run`, likewise. */
  method PreviousRun(r: Rule, now: Wall) returns (t: Option<Wall>)
    requires Normal(r) && now.day >= 1
    ensures IsPrevious(r, if r.recurrence.Biweekly? then Some(r.anchor) else None, now, t)
  {
    hide IsPrevious, MonthOf;
    match r.recurrence {
      case Daily => t := Some(PreviousDaily(r, now));
      case Weekly => t := PreviousWeekly(r, now, 1);
      case Biweekly => t := PreviousWeekly(r, now, 2);
      case Monthly => t := PreviousMonthly(r, now, 1);
      case Quarterly => t := PreviousMonthly(r, now, 3);
    }
  }

  // ---------------------------------------------------------------- adjacency

  /** Nothing lies between the previous occurrence and the next one. */
  lemma PreviousAndNextAreAdjacent(r: Rule, floor: Option<Wall>, now: Wall, p: Wall, n: Wall)
    requires Normal(r) && IsPrevious(r, floor, now, Some(p)) && IsNext(r, now, n)
    ensures p.Less(n) && forall s: Wall | p.Less(s) && s.Less(n) :: !IsSlot(r, s)
    ensures r.recurrence.Daily? ==> n == p.Plus(1)
    ensures r.recurrence.Weekly? ==> n == p.Plus(7)
    ensures r.recurrence.Biweekly? ==> n == p.Plus(14)
    ensures ByMonth(r) ==> p.day >= 1 && n.day >= 1
    ensures r.recurrence.Monthly? ==> MonthOf(n.day) == MonthOf(p.day) + 1
    ensures r.recurrence.Quarterly? ==> MonthOf(n.day) == MonthOf(p.day) + 3
  {
    hide IsSlot, MonthOf;
    match r.recurrence {
      case Daily => DailyAdjacent(r, p, n);
      case Weekly => WeeklyAdjacent(r, p, n);
      case Biweekly => BiweeklyAdjacent(r, p, n);
      case _ => MonthsAdjacent(r, p, n);
    }
  }

  lemma DailyAdjacent(r: Rule, p: Wall, n: Wall)
    requires Normal(r) && r.recurrence.Daily? && IsSlot(r, p) && IsSlot(r, n) && p.Less(n)
    requires forall s: Wall | p.Less(s) && s.Less(n) :: !IsSlot(r, s)
    ensures n == p.Plus(1)
  {
    assert IsSlot(r, p.Plus(1));
  }

  lemma WeeklyAdjacent(r: Rule, p: Wall, n: Wall)
    requires Normal(r) && r.recurrence.Weekly? && IsSlot(r, p) && IsSlot(r, n) && p.Less(n)
    requires forall s: Wall | p.Less(s) && s.Less(n) :: !IsSlot(r, s)
    ensures n == p.Plus(7)
  {
    hide Weekday;
    WeekLater(r, p.day);
    assert IsSlot(r, p.Plus(7));
    NothingBetween(r, p);
  }

  lemma MonthsAdjacent(r: Rule, p: Wall, n: Wall)
    requires Normal(r) && ByMonth(r) && IsSlot(r, p) && IsSlot(r, n) && p.Less(n)
    requires forall s: Wall | p.Less(s) && s.Less(n) :: !IsSlot(r, s)
    ensures p.day >= 1 && n.day >= 1
    ensures MonthOf(n.day) == MonthOf(p.day) + if r.recurrence.Monthly? then 1 else 3
  {
    hide Occurrence, MonthOf;
    var k := MonthlyAdjacent(r, p, n);
    OccurrenceMonth(r, k);
    OccurrenceMonth(r, k + 1);
  }

  lemma MonthlyAdjacent(r: Rule, p: Wall, n: Wall) returns (k: nat)
    requires Normal(r) && ByMonth(r) && IsSlot(r, p) && IsSlot(r, n) && p.Less(n)
    requires forall s: Wall | p.Less(s) && s.Less(n) :: !IsSlot(r, s)
    ensures p == Occurrence(r, k) && n == Occurrence(r, k + 1)
  {
    hide Occurrence;
    k :| p == Occurrence(r, k);
    var m: nat :| n == Occurrence(r, m);
    OccurrenceInOrder(r, k, m);
    OccurrenceInOrder(r, k, k + 1);
    OccurrenceInOrder(r, k + 1, m);
    assert IsSlot(r, Occurrence(r, k + 1));
  }

  lemma BiweeklyAdjacent(r: Rule, p: Wall, n: Wall)
    requires Normal(r) && r.recurrence.Biweekly? && IsSlot(r, p) && IsSlot(r, n) && p.Less(n)
    requires forall s: Wall | p.Less(s) && s.Less(n) :: !IsSlot(r, s)
    ensures n == p.Plus(14)
  {
    hide Weekday;
    WeekLater(r, p.day);
    WeekLater(r, p.day + 7);
    assert IsSlot(r, p.Plus(14));
    NothingBetween(r, p);
    NothingBetween(r, p.Plus(7));
    assert !IsSlot(r, p.Plus(7));
  }

  /** A later search never finds an earlier occurrence. */
  lemma PreviousMovesForward(r: Rule, floor: Option<Wall>, now: Wall, later: Wall, p: Option<Wall>, q: Option<Wall>)
    requires Normal(r) && IsPrevious(r, floor, now, p) && IsPrevious(r, floor, later, q)
    requires now.AtMost(later) && p.Some?
    ensures p.value.AtMost(now) && q.Some? && p.value.AtMost(q.value)
  {
    hide IsSlot;
  }

  // ---------------------------------------------------------------- what an occurrence is

  /** In months, `months` after the anchor's: on the anchor's day of the month, or the month's last. */
  predicate OnAnchorDay(r: Rule, t: Wall)
    requires r.anchor.day >= 1 && t.day >= 1
  {
    DayOfMonth(t.day) == Min(DayOfMonth(r.anchor.day), MonthLength(MonthOf(t.day)))
  }

  /** The month of `t` is the anchor's, or later by a multiple of `step`. */
  predicate InMonth(r: Rule, t: Wall, step: nat)
    requires r.anchor.day >= 1 && t.day >= 1 && step > 0
  {
    MonthOf(r.anchor.day) <= MonthOf(t.day) && (MonthOf(t.day) - MonthOf(r.anchor.day)) % step == 0
  }

  /**
   A time is an occurrence exactly when it is the rule's time of day, on any day, on the rule's weekday, on
   that of every second week from the anchor's on, or on the anchor's day of each month, or of each third.
   */
  lemma SlotMeans(r: Rule, t: Wall)
    requires Normal(r)
    ensures IsSlot(r, t) <==> (t.clock == r.clock &&
                               match r.recurrence
                               case Daily => true
                               case Weekly => Weekday(t.day) == r.weekday
                               case Biweekly =>
                                 var monday := r.anchor.day - Weekday(r.anchor.day);
                                 monday <= t.day && (t.day - monday) % 14 == r.weekday
                               case Monthly => t.day >= 1 && InMonth(r, t, 1) && OnAnchorDay(r, t)
                               case Quarterly => t.day >= 1 && InMonth(r, t, 3) && OnAnchorDay(r, t))
  {
    match r.recurrence {
      case Biweekly => BiweeklyMeans(r, t);
      case Monthly => MonthlyMeans(r, t, 1);
      case Quarterly => MonthlyMeans(r, t, 3);
      case _ =>
    }
  }

  lemma BiweeklyMeans(r: Rule, t: Wall)
    requires Normal(r) && r.recurrence.Biweekly?
    ensures
      var monday := r.anchor.day - Weekday(r.anchor.day);
      Weekday(t.day) == r.weekday && InCycle(r, t.day) <==> monday <= t.day && (t.day - monday) % 14 == r.weekday
  {
    var monday := r.anchor.day - Weekday(r.anchor.day);
    assert Weekday(monday) == 0;
    assert t.day - monday == 7 * WeeksFromAnchor(r, t.day) + Weekday(t.day);
  }

  lemma MonthlyMeans(r: Rule, t: Wall, step: nat)
    requires Normal(r) && ((r.recurrence.Monthly? && step == 1) || (r.recurrence.Quarterly? && step == 3))
    ensures IsSlot(r, t) <==> t.clock == r.clock && t.day >= 1 && InMonth(r, t, step) && OnAnchorDay(r, t)
  {
    hide MonthOf, ShiftMonths, MonthLength, DayOfMonth;
    if IsSlot(r, t) {
      var k: nat :| t == Occurrence(r, k);
      ShiftedMonth(r.anchor.day, k * step);
      MultipleIs(k, step);
    }
    if t.clock == r.clock && t.day >= 1 && InMonth(r, t, step) && OnAnchorDay(r, t) {
      var k: nat := (MonthOf(t.day) - MonthOf(r.anchor.day)) / step;
      assert k * step == MonthOf(t.day) - MonthOf(r.anchor.day);
      ShiftedMonth(r.anchor.day, k * step);
      SameDate(t.day, Occurrence(r, k).day);
      assert t == Occurrence(r, k);
    }
  }

  lemma MultipleIs(k: nat, step: nat)
    requires step == 1 || step == 3
    ensures (k * step) % step == 0
  {
  }

  lemma SameDate(a: int, b: int)
    requires a >= 1 && b >= 1 && MonthOf(a) == MonthOf(b) && DayOfMonth(a) == DayOfMonth(b)
    ensures a == b
  {
  }
}
