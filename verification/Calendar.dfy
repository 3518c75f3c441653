/**
  The proleptic Gregorian calendar and UTC instants at minute resolution.
  Day 0 is 1 January of year 1, a Monday; minute 0 is its first minute.
 */
module Calendar {

  predicate IsLeap(y: int) {
    y % 4 == 0 && (y % 100 != 0 || y % 400 == 0)
  }

  function DaysIn(y: int, m: int): (n: int)
    requires 1 <= m <= 12
    ensures 28 <= n <= 31
  {
    if m == 2 then (if IsLeap(y) then 29 else 28)
    else if m == 4 || m == 6 || m == 9 || m == 11 then 30
    else 31
  }

  /** Days from 1 January of year 1 to 1 January of year y. */
  function DaysBeforeYear(y: int): int {
    365 * (y - 1) + (y - 1) / 4 - (y - 1) / 100 + (y - 1) / 400
  }

  function DaysBeforeMonth(y: int, m: int): (n: int)
    requires 1 <= m <= 12
    ensures 28 * (m - 1) <= n <= 31 * (m - 1)
    decreases m
  {
    if m == 1 then 0 else DaysBeforeMonth(y, m - 1) + DaysIn(y, m - 1)
  }

  /** Linear in d, so a day past the end of the month is a day of the next one. */
  function DayNumber(y: int, m: int, d: int): int
    requires 1 <= m <= 12
  {
    DaysBeforeYear(y) + DaysBeforeMonth(y, m) + d - 1
  }

  datatype Date = Date(y: int, m: int, d: int)

  predicate Valid(t: Date) {
    1 <= t.m <= 12 && 1 <= t.d <= DaysIn(t.y, t.m)
  }

  lemma YearLength(y: int)
    ensures DaysBeforeYear(y + 1) - DaysBeforeYear(y) == if IsLeap(y) then 366 else 365
  {
    Carry(y, 4);
    Carry(y, 100);
    Carry(y, 400);
  }

  lemma Carry(y: int, n: int)
    requires n == 4 || n == 100 || n == 400
    ensures y / n - (y - 1) / n == if y % n == 0 then 1 else 0
  {
  }

  lemma MonthsOfYear(y: int)
    ensures DaysBeforeMonth(y, 12) + 31 == if IsLeap(y) then 366 else 365
  {
    var feb := if IsLeap(y) then 29 else 28;
    assert DaysBeforeMonth(y, 2) == 31;
    assert DaysBeforeMonth(y, 3) == 31 + feb;
    assert DaysBeforeMonth(y, 4) == 62 + feb;
    assert DaysBeforeMonth(y, 5) == 92 + feb;
    assert DaysBeforeMonth(y, 6) == 123 + feb;
    assert DaysBeforeMonth(y, 7) == 153 + feb;
    assert DaysBeforeMonth(y, 8) == 184 + feb;
    assert DaysBeforeMonth(y, 9) == 215 + feb;
    assert DaysBeforeMonth(y, 10) == 245 + feb;
    assert DaysBeforeMonth(y, 11) == 276 + feb;
  }

  /** The first day of the month after (y, m). */
  function NextMonthStart(y: int, m: int): Date
    requires 1 <= m <= 12
  {
    if m == 12 then Date(y + 1, 1, 1) else Date(y, m + 1, 1)
  }

  lemma MonthLength(y: int, m: int)
    requires 1 <= m <= 12
    ensures var next := NextMonthStart(y, m);
      DayNumber(next.y, next.m, next.d) == DayNumber(y, m, 1) + DaysIn(y, m)
  {
    if m == 12 {
      MonthsOfYear(y);
      YearLength(y);
    }
  }

  function Tomorrow(t: Date): Date
    requires Valid(t)
  {
    if t.d < DaysIn(t.y, t.m) then t.(d := t.d + 1) else NextMonthStart(t.y, t.m)
  }

  function Yesterday(t: Date): (r: Date)
    requires Valid(t)
    ensures Valid(r)
  {
    if t.d > 1 then t.(d := t.d - 1)
    else if t.m > 1 then Date(t.y, t.m - 1, DaysIn(t.y, t.m - 1))
    else Date(t.y - 1, 12, 31)
  }

  lemma TomorrowNumber(t: Date)
    requires Valid(t)
    ensures Valid(Tomorrow(t)) && DayNumber(Tomorrow(t).y, Tomorrow(t).m, Tomorrow(t).d) == DayNumber(t.y, t.m, t.d) + 1
  {
    MonthLength(t.y, t.m);
  }

  lemma YesterdayNumber(t: Date)
    requires Valid(t)
    ensures DayNumber(Yesterday(t).y, Yesterday(t).m, Yesterday(t).d) == DayNumber(t.y, t.m, t.d) - 1
  {
    if t.d == 1 {
      var r := Yesterday(t);
      MonthLength(r.y, r.m);
    }
  }

  /** The date of day n, counting from day 0. */
  function DateOf(n: int): (t: Date)
    ensures Valid(t)
    decreases if n < 0 then -n else n
  {
    if n == 0 then Date(1, 1, 1)
    else if n > 0 then (TomorrowNumber(DateOf(n - 1)); Tomorrow(DateOf(n - 1)))
    else Yesterday(DateOf(n + 1))
  }

  /** Every day has a date, and its number is that day. */
  lemma {:induction false} DateOfNumber(n: int)
    ensures var t := DateOf(n);
      DayNumber(t.y, t.m, t.d) == n
    decreases if n < 0 then -n else n
  {
    if n > 0 {
      DateOfNumber(n - 1);
      TomorrowNumber(DateOf(n - 1));
    } else if n < 0 {
      DateOfNumber(n + 1);
      YesterdayNumber(DateOf(n + 1));
    }
  }

  lemma {:induction false} YearsGrow(y: int, z: int)
    requires y < z
    ensures DaysBeforeYear(y) + 365 <= DaysBeforeYear(z)
    decreases z - y
  {
    YearLength(z - 1);
    if y < z - 1 {
      YearsGrow(y, z - 1);
    }
  }

  lemma {:induction false} MonthsGrow(y: int, m: int, k: int)
    requires 1 <= m < k <= 12
    ensures DaysBeforeMonth(y, m) + DaysIn(y, m) <= DaysBeforeMonth(y, k)
    decreases k - m
  {
    if m < k - 1 {
      MonthsGrow(y, m, k - 1);
    }
  }

  predicate Before(a: Date, b: Date) {
    a.y < b.y || (a.y == b.y && (a.m < b.m || (a.m == b.m && a.d < b.d)))
  }

  lemma WithinYear(t: Date)
    requires Valid(t)
    ensures DaysBeforeYear(t.y) <= DayNumber(t.y, t.m, t.d) < DaysBeforeYear(t.y + 1)
  {
    MonthsOfYear(t.y);
    YearLength(t.y);
    if t.m < 12 {
      MonthsGrow(t.y, t.m, 12);
    }
  }

  /** Dates are numbered in calendar order. */
  lemma NumberOrder(a: Date, b: Date)
    requires Valid(a) && Valid(b) && Before(a, b)
    ensures DayNumber(a.y, a.m, a.d) < DayNumber(b.y, b.m, b.d)
  {
    if a.y < b.y {
      WithinYear(a);
      WithinYear(b);
      if a.y + 1 < b.y {
        YearsGrow(a.y + 1, b.y);
      }
    } else if a.m < b.m {
      MonthsGrow(a.y, a.m, b.m);
    }
  }

  lemma OrderOfNumbers(a: Date, b: Date)
    requires Valid(a) && Valid(b) && DayNumber(a.y, a.m, a.d) <= DayNumber(b.y, b.m, b.d)
    ensures !Before(b, a)
  {
    if Before(b, a) {
      NumberOrder(b, a);
    }
  }

  /** So a valid date is the date of its own number. */
  lemma DateOfUnique(t: Date)
    requires Valid(t)
    ensures DateOf(DayNumber(t.y, t.m, t.d)) == t
  {
    var n := DayNumber(t.y, t.m, t.d);
    DateOfNumber(n);
    var u := DateOf(n);
    if Before(t, u) {
      NumberOrder(t, u);
    } else if Before(u, t) {
      NumberOrder(u, t);
    }
  }

  // ------------------------------------------------------------------ minutes

  const DAY: int := 1440

  type Minute = int

  function DayOf(t: Minute): int {
    t / DAY
  }

  function YearOf(t: Minute): int {
    DateOf(DayOf(t)).y
  }

  function MonthOf(t: Minute): int {
    DateOf(DayOf(t)).m
  }

  function DayOfMonth(t: Minute): int {
    DateOf(DayOf(t)).d
  }

  function HourOf(t: Minute): int {
    t % DAY / 60
  }

  function MinuteOf(t: Minute): int {
    t % 60
  }

  /** Sunday is 0. */
  function WeekdayOf(t: Minute): int {
    (DayOf(t) + 1) % 7
  }

  /** Weekdays follow one another, and come round after seven days. */
  lemma NextWeekday(t: Minute)
    ensures WeekdayOf(t + DAY) == (WeekdayOf(t) + 1) % 7
  {
    assert DayOf(t + DAY) == DayOf(t) + 1;
  }

  /** The instant of a calendar reading; days, hours and minutes past their range carry over. */
  function Instant(y: int, m: int, d: int, h: int, mi: int): Minute
    requires 1 <= m <= 12
  {
    DayNumber(y, m, d) * DAY + h * 60 + mi
  }

  /** Same clock time, years and days later. */
  function AddDate(t: Minute, years: int, days: int): Minute {
    Instant(YearOf(t) + years, MonthOf(t), DayOfMonth(t) + days, HourOf(t), MinuteOf(t))
  }

  /** A minute is its day and its time of day. */
  lemma DayAndTime(t: Minute)
    ensures DayOf(t) * DAY + HourOf(t) * 60 + MinuteOf(t) == t
    ensures 0 <= HourOf(t) <= 23 && 0 <= MinuteOf(t) <= 59
  {
  }

  lemma DayAndTimeUnique(n: int, h: int, mi: int)
    requires 0 <= h <= 23 && 0 <= mi <= 59
    ensures var t := n * DAY + h * 60 + mi;
      DayOf(t) == n && HourOf(t) == h && MinuteOf(t) == mi
  {
    var t := n * DAY + h * 60 + mi;
    assert DayOf(t) == n && t % DAY == h * 60 + mi;
    assert t == 60 * (n * 24 + h) + mi;
  }

  lemma Reading(t: Minute)
    ensures Valid(DateOf(DayOf(t)))
    ensures 0 <= HourOf(t) <= 23 && 0 <= MinuteOf(t) <= 59
    ensures Instant(YearOf(t), MonthOf(t), DayOfMonth(t), HourOf(t), MinuteOf(t)) == t
  {
    DayAndTime(t);
    DateOfNumber(DayOf(t));
  }

  /** Reading an instant back. */
  lemma ReadInstant(y: int, m: int, d: int, h: int, mi: int)
    requires Valid(Date(y, m, d)) && 0 <= h <= 23 && 0 <= mi <= 59
    ensures var t := Instant(y, m, d, h, mi);
      && YearOf(t) == y && MonthOf(t) == m && DayOfMonth(t) == d && HourOf(t) == h && MinuteOf(t) == mi
      && DayOf(t) == DayNumber(y, m, d)
  {
    DayAndTimeUnique(DayNumber(y, m, d), h, mi);
    DateOfUnique(Date(y, m, d));
  }

  /** 1 January 1970 was a Thursday, 719162 days after 1 January of year 1. */
  lemma EpochWeekday()
    ensures DayNumber(1970, 1, 1) == 719162
    ensures WeekdayOf(Instant(1970, 1, 1, 0, 0)) == 4
  {
    DayAndTimeUnique(DayNumber(1970, 1, 1), 0, 0);
  }

  /** Midnight after t. */
  lemma NextMidnight(t: Minute)
    ensures Instant(YearOf(t), MonthOf(t), DayOfMonth(t) + 1, 0, 0) == (DayOf(t) + 1) * DAY > t
  {
    DateOfNumber(DayOf(t));
  }

  lemma NextHour(t: Minute)
    ensures Instant(YearOf(t), MonthOf(t), DayOfMonth(t), HourOf(t) + 1, 0) == (t / 60 + 1) * 60 > t
  {
    Reading(t);
  }

  /** The first minute of the month after t's. */
  function NextMonth(t: Minute): Minute {
    var next := NextMonthStart(YearOf(t), MonthOf(t));
    Instant(next.y, next.m, next.d, 0, 0)
  }

  /** Up to there the month is t's month. */
  lemma SameMonth(t: Minute, u: Minute)
    requires t <= u < NextMonth(t)
    ensures YearOf(u) == YearOf(t) && MonthOf(u) == MonthOf(t)
    ensures DayOfMonth(u) == DayOfMonth(t) + DayOf(u) - DayOf(t)
  {
    Reading(t);
    var y, m := YearOf(t), MonthOf(t);
    MonthLength(y, m);
    DateOfNumber(DayOf(t));
    var d := DayOf(u) - DayNumber(y, m, 1) + 1;
    assert DayOf(t) <= DayOf(u);
    assert DayOf(u) < DayNumber(y, m, 1) + DaysIn(y, m);
    DateOfUnique(Date(y, m, d));
  }

  lemma NextMonthLater(t: Minute)
    ensures NextMonth(t) > t
  {
    Reading(t);
    MonthLength(YearOf(t), MonthOf(t));
    DateOfNumber(DayOf(t));
  }
}
