/** The proleptic Gregorian calendar on day numbers (1 is Monday, 1 January of year 1), and wall-clock times. */
module Calendar {
  import opened Wrappers

  /** Microseconds in a day. */
  const DAY: int := 86_400_000_000

  /** A wall-clock time: a day number and the microseconds since its midnight. */
  datatype Wall = Wall(day: int, clock: int) {

    predicate Proper() {
      0 <= clock < DAY
    }

    predicate Less(that: Wall) {
      day < that.day || (day == that.day && clock < that.clock)
    }

    predicate AtMost(that: Wall) {
      !that.Less(this)
    }

    function Plus(days: int): Wall {
      Wall(day + days, clock)
    }

    /** The same time as a count of microseconds. */
    function Micros(): int {
      day * DAY + clock
    }
  }

  lemma MicrosOrder(a: Wall, b: Wall)
    requires a.Proper() && b.Proper()
    ensures a.Less(b) <==> a.Micros() < b.Micros()
  {
  }

  /** Monday is 0. */
  function Weekday(day: int): (w: int)
    ensures 0 <= w < 7
  {
    (day + 6) % 7
  }

  function WeekStart(day: int): int {
    day - Weekday(day)
  }

  // ---------------------------------------------------------------- months, counted from January of year 1

  predicate Leap(year: int) {
    year % 4 == 0 && (year % 100 != 0 || year % 400 == 0)
  }

  function MonthLength(m: nat): (n: int)
    ensures 28 <= n <= 31
  {
    var month := m % 12 + 1;
    if month == 2 then (if Leap(m / 12 + 1) then 29 else 28)
    else if month in {4, 6, 9, 11} then 30 else 31
  }

  /** The day number of the first of the month. */
  function MonthStart(m: nat): int {
    if m == 0 then 1 else MonthStart(m - 1) + MonthLength(m - 1)
  }

  function MonthFrom(day: int, m: nat): (r: nat)
    requires MonthStart(m) <= day
    ensures MonthStart(r) <= day < MonthStart(r + 1)
    decreases day - MonthStart(m)
  {
    if day < MonthStart(m + 1) then m else MonthFrom(day, m + 1)
  }

  function MonthOf(day: int): (r: nat)
    requires 1 <= day
    ensures MonthStart(r) <= day < MonthStart(r + 1)
  {
    MonthFrom(day, 0)
  }

  function DayOfMonth(day: int): (d: int)
    requires 1 <= day
    ensures 1 <= d <= MonthLength(MonthOf(day))
  {
    day - MonthStart(MonthOf(day)) + 1
  }

  lemma {:induction false} MonthsApart(a: nat, b: nat)
    requires a <= b
    ensures MonthStart(a) + 28 * (b - a) <= MonthStart(b)
  {
    if a < b {
      MonthsApart(a, b - 1);
    }
  }

  /** A day lies in one month only. */
  lemma MonthOfUnique(day: int, m: nat)
    requires 1 <= day && MonthStart(m) <= day < MonthStart(m + 1)
    ensures MonthOf(day) == m
  {
    var r := MonthOf(day);
    if r < m {
      MonthsApart(r + 1, m);
    } else if m < r {
      MonthsApart(m + 1, r);
    }
  }

  lemma MonthOfMonotone(a: int, b: int)
    requires 1 <= a <= b
    ensures MonthOf(a) <= MonthOf(b)
  {
    if MonthOf(b) < MonthOf(a) {
      MonthsApart(MonthOf(b) + 1, MonthOf(a));
    }
  }

  /** `_shift_months`, on days: the same day of the month, clamped to the month's length. */
  function ShiftMonths(day: int, months: nat): (r: int)
    requires 1 <= day
    ensures MonthStart(MonthOf(day) + months) <= r < MonthStart(MonthOf(day) + months + 1)
  {
    var m := MonthOf(day) + months;
    MonthStart(m) + Min(DayOfMonth(day), MonthLength(m)) - 1
  }

  lemma MonthStartPositive(m: nat)
    ensures MonthStart(m) >= 1
  {
    MonthsApart(0, m);
  }

  lemma ShiftedMonth(day: int, months: nat)
    requires 1 <= day
    ensures ShiftMonths(day, months) >= 1
    ensures MonthOf(ShiftMonths(day, months)) == MonthOf(day) + months
    ensures DayOfMonth(ShiftMonths(day, months)) == Min(DayOfMonth(day), MonthLength(MonthOf(day) + months))
  {
    MonthStartPositive(MonthOf(day) + months);
    MonthOfUnique(ShiftMonths(day, months), MonthOf(day) + months);
  }

  /** Later months give later days, at least four weeks apart although the day is clamped. */
  lemma ShiftsApart(day: int, a: nat, b: nat)
    requires 1 <= day && a < b
    ensures ShiftMonths(day, a) + 28 <= ShiftMonths(day, b)
  {
    hide MonthLength, MonthOf;
    var m := MonthOf(day);
    MonthsApart(m + a + 1, m + b);
    if a + 1 < b {
      MonthsApart(m + a + 2, m + b);
      assert MonthStart(m + a + 2) == MonthStart(m + a + 1) + MonthLength(m + a + 1);
    }
  }

  // ---------------------------------------------------------------- the calendar against its closed form

  lemma Quarter(m: nat)
    ensures MonthStart(m + 3) == MonthStart(m) + MonthLength(m) + MonthLength(m + 1) + MonthLength(m + 2)
  {
    hide MonthLength;
    assert MonthStart(m + 2) == MonthStart(m + 1) + MonthLength(m + 1);
  }

  lemma MonthLengthAt(y: nat, i: nat)
    requires i < 12
    ensures MonthLength(12 * y + i) ==
      if i == 1 then (if Leap(y + 1) then 29 else 28) else if i in {3, 5, 8, 10} then 30 else 31
  {
  }

  lemma YearLength(y: nat)
    ensures MonthStart(12 * y + 12) == MonthStart(12 * y) + if Leap(y + 1) then 366 else 365
  {
    hide MonthLength, MonthStart, Leap;
    var m := 12 * y;
    Quarter(m);
    Quarter(m + 3);
    Quarter(m + 6);
    Quarter(m + 9);
    MonthLengthAt(y, 0); MonthLengthAt(y, 1); MonthLengthAt(y, 2);
    MonthLengthAt(y, 3); MonthLengthAt(y, 4); MonthLengthAt(y, 5);
    MonthLengthAt(y, 6); MonthLengthAt(y, 7); MonthLengthAt(y, 8);
    MonthLengthAt(y, 9); MonthLengthAt(y, 10); MonthLengthAt(y, 11);
  }

  lemma LeapDays(y: nat)
    ensures (y + 1) / 4 == y / 4 + (if (y + 1) % 4 == 0 then 1 else 0)
    ensures (y + 1) / 100 == y / 100 + (if (y + 1) % 100 == 0 then 1 else 0)
    ensures (y + 1) / 400 == y / 400 + (if (y + 1) % 400 == 0 then 1 else 0)
    ensures (y + 1) % 400 == 0 ==> (y + 1) % 100 == 0
    ensures (y + 1) % 100 == 0 ==> (y + 1) % 4 == 0
  {
  }

  function LeapsBefore(y: nat): int {
    y / 4 - y / 100 + y / 400
  }

  lemma LeapYears(y: nat)
    ensures LeapsBefore(y + 1) == LeapsBefore(y) + if Leap(y + 1) then 1 else 0
  {
    LeapDays(y);
  }

  /** Month lengths add up to the Gregorian rule: 365 days a year, and the leap days before it. */
  lemma {:induction false} YearStart(y: nat)
    ensures MonthStart(12 * y) == 1 + 365 * y + LeapsBefore(y)
  {
    if y > 0 {
      hide MonthStart, Leap, LeapsBefore;
      var x := y - 1;
      YearStart(x);
      YearLength(x);
      LeapYears(x);
      assert 12 * y == 12 * x + 12;
    }
  }

  /** Weekdays run on without a break, and 1 January 2024, which is day 738886, was a Monday. */
  lemma WeekdaysRunOn(day: int)
    ensures Weekday(day + 1) == if Weekday(day) == 6 then 0 else Weekday(day) + 1
    ensures MonthStart(12 * 2023) == 738_886 && Weekday(738_886) == 0
  {
    hide MonthStart;
    YearStart(2023);
  }
}
