/**
  The next-fire search of a cron schedule, which skips whole months, days and
  hours, proved equal to trying every minute; and exactly when an accepted
  schedule fires inside the search window.
 */
module CronNext {
  import opened Common
  import opened Calendar

  /** Allowed values per field; the flags say a day field was not written as `*`. */
  datatype Schedule = Schedule(
    min: set<int>, hour: set<int>, dom: set<int>, mon: set<int>, dow: set<int>,
    domRestricted: bool, dowRestricted: bool)

  const MINUTE_NS: int := 60_000_000_000

  /** Both day fields restricted: either one. One restricted: that one. None: any day. */
  predicate DayMatches(s: Schedule, t: Minute) {
    if s.domRestricted && s.dowRestricted then DayOfMonth(t) in s.dom || WeekdayOf(t) in s.dow
    else if s.domRestricted then DayOfMonth(t) in s.dom
    else if s.dowRestricted then WeekdayOf(t) in s.dow
    else true
  }

  predicate Matches(s: Schedule, t: Minute) {
    MonthOf(t) in s.mon && DayMatches(s, t) && HourOf(t) in s.hour && MinuteOf(t) in s.min
  }

  /** The first candidate: the minute boundary after the instant. */
  function FirstMinute(afterNs: int): Minute {
    afterNs / MINUTE_NS + 1
  }

  function Limit(t: Minute): Minute {
    AddDate(t, 4, 1)
  }

  predicate NoMatchIn(s: Schedule, lo: Minute, hi: Minute) {
    forall u :: lo <= u < hi ==> !Matches(s, u)
  }

  // -------------------------------------------------------- skips are sound

  lemma MonthSkipSound(s: Schedule, t: Minute)
    requires MonthOf(t) !in s.mon
    ensures NextMonth(t) > t && NoMatchIn(s, t, NextMonth(t))
  {
    NextMonthLater(t);
    forall u | t <= u < NextMonth(t) ensures !Matches(s, u) {
      SameMonth(t, u);
    }
  }

  lemma DaySkipSound(s: Schedule, t: Minute)
    requires !DayMatches(s, t)
    ensures var next := Instant(YearOf(t), MonthOf(t), DayOfMonth(t) + 1, 0, 0);
      next > t && NoMatchIn(s, t, next)
  {
    NextMidnight(t);
    RestOfDay(s, t, (DayOf(t) + 1) * DAY);
  }

  lemma RestOfDay(s: Schedule, t: Minute, next: Minute)
    requires !DayMatches(s, t) && next == (DayOf(t) + 1) * DAY
    ensures NoMatchIn(s, t, next)
  {
    forall u | t <= u < next ensures !Matches(s, u) {
      assert DayOf(u) == DayOf(t);
    }
  }

  lemma HourSkipSound(s: Schedule, t: Minute)
    requires HourOf(t) !in s.hour
    ensures var next := Instant(YearOf(t), MonthOf(t), DayOfMonth(t), HourOf(t) + 1, 0);
      next > t && NoMatchIn(s, t, next)
  {
    NextHour(t);
    forall u | t <= u < (t / 60 + 1) * 60 ensures !Matches(s, u) {
      assert u / 60 == t / 60;
      HourFromQuotient(t);
      HourFromQuotient(u);
    }
  }

  lemma HourFromQuotient(t: Minute)
    ensures HourOf(t) == (t / 60) % 24
  {
    var n, r := t / DAY, t % DAY;
    assert t == n * DAY + r;
    assert t / 60 == n * 24 + r / 60;
  }

  /** t is the first minute boundary after the instant. */
  predicate FirstAfter(afterNs: int, t: Minute) {
    (t - 1) * MINUTE_NS <= afterNs < t * MINUTE_NS
  }

  lemma FirstMinuteIs(afterNs: int)
    ensures FirstAfter(afterNs, FirstMinute(afterNs))
    ensures forall t :: FirstAfter(afterNs, t) ==> t == FirstMinute(afterNs)
    ensures forall u: Minute :: u * MINUTE_NS > afterNs <==> u >= FirstMinute(afterNs)
  {
    var q := afterNs / MINUTE_NS;
    assert q * MINUTE_NS <= afterNs < (q + 1) * MINUTE_NS;
  }

  /**
    The earliest match strictly after the instant, if one lies inside the window
    of four years and a day from the first minute boundary after it.
   */
  ghost predicate IsNext(s: Schedule, afterNs: int, r: Option<Minute>) {
    forall first :: FirstAfter(afterNs, first) ==>
      if r.Some? then
        && r.value * MINUTE_NS > afterNs && r.value < Limit(first) && Matches(s, r.value)
        && (forall u: Minute :: u * MINUTE_NS > afterNs && u < r.value ==> !Matches(s, u))
      else
        forall u: Minute :: u * MINUTE_NS > afterNs && u < Limit(first) ==> !Matches(s, u)
  }

  /** In minutes. */
  lemma IsNextMeans(s: Schedule, afterNs: int, r: Option<Minute>)
    ensures var first := FirstMinute(afterNs);
      IsNext(s, afterNs, r) <==>
        if r.Some? then first <= r.value < Limit(first) && Matches(s, r.value) && NoMatchIn(s, first, r.value)
        else NoMatchIn(s, first, Limit(first))
  {
    FirstMinuteIs(afterNs);
  }

  /** The window ends four years and a day later at the same time of day. */
  lemma LimitReading(t: Minute)
    requires Valid(Date(YearOf(t) + 4, MonthOf(t), DayOfMonth(t) + 1))
    ensures var end := Limit(t);
      && YearOf(end) == YearOf(t) + 4 && MonthOf(end) == MonthOf(t) && DayOfMonth(end) == DayOfMonth(t) + 1
      && HourOf(end) == HourOf(t) && MinuteOf(end) == MinuteOf(t)
  {
    Reading(t);
    ReadInstant(YearOf(t) + 4, MonthOf(t), DayOfMonth(t) + 1, HourOf(t), MinuteOf(t));
  }

  /**
    The search: the earliest matching minute strictly after the instant and
    before the window's end, or None when there is none.
   */
  method Next(s: Schedule, afterNs: int) returns (r: Option<Minute>)
    ensures IsNext(s, afterNs, r)
  {
    IsNextMeans(s, afterNs, None);
    var t := FirstMinute(afterNs);
    var limit := Limit(t);
    ghost var first := t;
    while t < limit
      invariant first <= t && NoMatchIn(s, first, t)
      decreases limit - t
    {
      if MonthOf(t) !in s.mon {
        MonthSkipSound(s, t);
        t := NextMonth(t);
        continue;
      }
      if !DayMatches(s, t) {
        DaySkipSound(s, t);
        t := Instant(YearOf(t), MonthOf(t), DayOfMonth(t) + 1, 0, 0);
        continue;
      }
      if HourOf(t) !in s.hour {
        HourSkipSound(s, t);
        t := Instant(YearOf(t), MonthOf(t), DayOfMonth(t), HourOf(t) + 1, 0);
        continue;
      }
      if MinuteOf(t) !in s.min {
        t := t + 1;
        continue;
      }
      IsNextMeans(s, afterNs, Some(t));
      return Some(t);
    }
    return None;
  }

  /** Trying every minute. */
  function EveryMinute(s: Schedule, t: Minute, limit: Minute): Option<Minute>
    decreases limit - t
  {
    if t >= limit then None
    else if Matches(s, t) then Some(t)
    else EveryMinute(s, t + 1, limit)
  }

  /** What the search's contract describes is what trying every minute finds. */
  lemma {:induction false} EarliestIsEveryMinute(s: Schedule, t: Minute, limit: Minute, r: Option<Minute>)
    requires if r.Some? then t <= r.value < limit && Matches(s, r.value) && NoMatchIn(s, t, r.value)
             else NoMatchIn(s, t, limit)
    ensures r == EveryMinute(s, t, limit)
    decreases limit - t
  {
    if t < limit && !Matches(s, t) {
      EarliestIsEveryMinute(s, t + 1, limit, r);
    }
  }

  // ------------------------------------------------------------- feasibility

  /** Some value is one a calendar reading can have; there may be others. */
  predicate Meets(values: set<int>, lo: int, hi: int) {
    exists v :: v in values && lo <= v <= hi
  }

  /** What parsing guarantees of the fields. */
  predicate WellFormed(s: Schedule) {
    && Meets(s.min, 0, 59) && Meets(s.hour, 0, 23)
    && Meets(s.dom, 1, 31) && Meets(s.mon, 1, 12) && Meets(s.dow, 0, 6)
  }

  const MAX_DAYS: seq<int> := [0, 31, 29, 31, 30, 31, 30, 31, 31, 30, 31, 30, 31]

  /** Some allowed day exists in some allowed month of a leap year, unless the weekday is restricted. */
  predicate Feasible(s: Schedule) {
    s.dom == {} || s.dowRestricted
    || exists m, d :: 1 <= m <= 12 && m in s.mon && d in s.dom && 1 <= d <= MAX_DAYS[m]
  }

  method CheckFeasible(s: Schedule) returns (ok: bool)
    ensures ok == Feasible(s)
  {
    if s.dom == {} || s.dowRestricted {
      return true;
    }
    for m := 1 to 13
      invariant forall k, d :: 1 <= k < m && k in s.mon && d in s.dom ==> !(1 <= d <= MAX_DAYS[k])
    {
      if m !in s.mon {
        continue;
      }
      if exists d :: d in s.dom && 1 <= d <= MAX_DAYS[m] {
        return true;
      }
    }
    return false;
  }

  predicate Accepted(s: Schedule) {
    WellFormed(s) && Feasible(s)
  }

  /** The schedule has an allowed day other than 29 February. */
  predicate HasOrdinaryDay(s: Schedule) {
    s.dowRestricted || !s.domRestricted
    || exists m, d :: 1 <= m <= 12 && m in s.mon && d in s.dom && 1 <= d <= MAX_DAYS[m] && !(m == 2 && d == 29)
  }

  /** A time of day, in minutes, the schedule allows. */
  predicate TimeAllowed(s: Schedule, tod: int) {
    0 <= tod < DAY && tod % 60 in s.min && tod / 60 in s.hour
  }

  lemma ClockTime(s: Schedule, h: int, mi: int)
    requires h in s.hour && mi in s.min && 0 <= h <= 23 && 0 <= mi <= 59
    ensures TimeAllowed(s, h * 60 + mi)
  {
    assert (h * 60 + mi) / 60 == h && (h * 60 + mi) % 60 == mi;
  }

  lemma SomeTime(s: Schedule)
    requires WellFormed(s)
    ensures exists tod :: TimeAllowed(s, tod)
  {
    var h :| h in s.hour && 0 <= h <= 23;
    var mi :| mi in s.min && 0 <= mi <= 59;
    ClockTime(s, h, mi);
  }

  ghost predicate AllowedFrom(s: Schedule, tod: int) {
    exists x :: x >= tod && TimeAllowed(s, x)
  }

  ghost predicate AllowedTo(s: Schedule, tod: int) {
    exists x :: x <= tod && TimeAllowed(s, x)
  }

  ghost function FirstFrom(s: Schedule, tod: int): (r: int)
    requires AllowedFrom(s, tod)
    ensures TimeAllowed(s, r) && r >= tod && forall x :: x >= tod && TimeAllowed(s, x) ==> r <= x
    decreases DAY - tod
  {
    if TimeAllowed(s, tod) then tod else FirstFrom(s, tod + 1)
  }

  ghost function LastTo(s: Schedule, tod: int): (r: int)
    requires AllowedTo(s, tod)
    ensures TimeAllowed(s, r) && r <= tod && forall x :: x <= tod && TimeAllowed(s, x) ==> x <= r
    decreases tod
  {
    if TimeAllowed(s, tod) then tod else LastTo(s, tod - 1)
  }

  /** The allowed time of day before all others. */
  ghost function FirstTime(s: Schedule): (r: int)
    requires WellFormed(s)
    ensures TimeAllowed(s, r) && forall x :: TimeAllowed(s, x) ==> r <= x
  {
    SomeTime(s);
    FirstFrom(s, 0)
  }

  /** And the one after all others. */
  ghost function LastTime(s: Schedule): (r: int)
    requires WellFormed(s)
    ensures TimeAllowed(s, r) && forall x :: TimeAllowed(s, x) ==> x <= r
  {
    SomeTime(s);
    LastTo(s, DAY - 1)
  }

  function LeapDay(y: int): Minute {
    Instant(y, 2, 29, 0, 0)
  }

  /** Some leap day is reached before the window ends and not over, for this schedule, when it begins. */
  ghost predicate LeapDayInReach(t: Minute, limit: Minute, first: int, last: int) {
    exists y :: IsLeap(y) && t <= LeapDay(y) + last && LeapDay(y) + first < limit
  }

  predicate Fires(s: Schedule, t: Minute, limit: Minute) {
    exists u :: t <= u < limit && Matches(s, u)
  }

  /** Every minute of the year after t's lies inside any window of two years or more. */
  lemma YearAfterInWindow(t: Minute, years: int, u: Minute)
    requires years >= 2 && YearOf(u) == YearOf(t) + 1
    ensures t < u < AddDate(t, years, 1)
  {
    YearBounds(t);
    YearBounds(u);
    NoEarlierThan(t, YearOf(t) + 2, years);
  }

  /** A window of n years does not end before the n-th year after begins. */
  lemma NoEarlierThan(t: Minute, z: int, years: int)
    requires z <= YearOf(t) + years
    ensures AddDate(t, years, 1) >= DaysBeforeYear(z) * DAY
  {
    DayAndTime(t);
    WithinYearLinear(YearOf(t) + years, MonthOf(t), DayOfMonth(t) + 1);
    if z < YearOf(t) + years {
      YearsGrow(z, YearOf(t) + years);
    }
  }

  lemma YearBounds(t: Minute)
    ensures DaysBeforeYear(YearOf(t)) * DAY <= t < DaysBeforeYear(YearOf(t) + 1) * DAY
  {
    Reading(t);
    WithinYear(DateOf(DayOf(t)));
    DateOfNumber(DayOf(t));
  }

  lemma WithinYearLinear(y: int, m: int, d: int)
    requires 1 <= m <= 12 && d >= 1
    ensures DayNumber(y, m, d) >= DaysBeforeYear(y)
  {
  }

  /** An allowed day of the year after t's, with any allowed time of day, is a firing. */
  lemma FiresNextYear(s: Schedule, t: Minute, years: int, m: int, d: int)
    requires years >= 2 && WellFormed(s) && m in s.mon && Valid(Date(YearOf(t) + 1, m, d))
    requires DayMatches(s, Instant(YearOf(t) + 1, m, d, 0, 0))
    ensures Fires(s, t, AddDate(t, years, 1))
  {
    var h :| h in s.hour && 0 <= h <= 23;
    var mi :| mi in s.min && 0 <= mi <= 59;
    var y := YearOf(t) + 1;
    var u := Instant(y, m, d, h, mi);
    SameDayMatches(s, y, m, d, h, mi);
    YearAfterInWindow(t, years, u);
  }

  lemma SameDayMatches(s: Schedule, y: int, m: int, d: int, h: int, mi: int)
    requires m in s.mon && h in s.hour && mi in s.min && Valid(Date(y, m, d)) && 0 <= h <= 23 && 0 <= mi <= 59
    requires DayMatches(s, Instant(y, m, d, 0, 0))
    ensures Matches(s, Instant(y, m, d, h, mi)) && YearOf(Instant(y, m, d, h, mi)) == y
  {
    ReadInstant(y, m, d, h, mi);
    ReadInstant(y, m, d, 0, 0);
  }

  /** The first seven days of a month meet every weekday. */
  lemma WeekdayDay(y: int, m: int, w: int) returns (d: int)
    requires 1 <= m <= 12 && 0 <= w <= 6
    ensures 1 <= d <= 7 && Valid(Date(y, m, d)) && WeekdayOf(Instant(y, m, d, 0, 0)) == w
  {
    var n := DayNumber(y, m, 1);
    d := 1 + (w - (n + 1)) % 7;
    ReadInstant(y, m, d, 0, 0);
    assert DayNumber(y, m, d) == n + d - 1;
    ModShift(n + 1, w);
  }

  lemma ModShift(n: int, w: int)
    requires 0 <= w <= 6
    ensures (n + (w - n) % 7) % 7 == w
  {
    var q := (w - n) / 7;
    assert (w - n) % 7 == w - n - 7 * q;
    assert n + (w - n) % 7 == w - 7 * q;
  }

  /** A schedule with an ordinary day fires within any window of two years or more. */
  lemma OrdinaryDayFires(s: Schedule, t: Minute, years: int)
    requires years >= 2 && WellFormed(s) && HasOrdinaryDay(s)
    ensures Fires(s, t, AddDate(t, years, 1))
  {
    var y := YearOf(t) + 1;
    if s.dowRestricted {
      var m :| m in s.mon && 1 <= m <= 12;
      var w :| w in s.dow && 0 <= w <= 6;
      var d := WeekdayDay(y, m, w);
      FiresNextYear(s, t, years, m, d);
    } else if !s.domRestricted {
      var m :| m in s.mon && 1 <= m <= 12;
      FiresNextYear(s, t, years, m, 1);
    } else {
      var m, d :| 1 <= m <= 12 && m in s.mon && d in s.dom && 1 <= d <= MAX_DAYS[m] && !(m == 2 && d == 29);
      ReadInstant(y, m, d, 0, 0);
      FiresNextYear(s, t, years, m, d);
    }
  }

  /** Without one, the only days it can fire on are leap days. */
  lemma OnlyLeapDays(s: Schedule, u: Minute)
    requires WellFormed(s) && !HasOrdinaryDay(s) && Matches(s, u)
    ensures IsLeap(YearOf(u)) && MonthOf(u) == 2 && DayOfMonth(u) == 29
    ensures u == LeapDay(YearOf(u)) + HourOf(u) * 60 + MinuteOf(u)
  {
    Reading(u);
    assert DayOfMonth(u) <= DaysIn(YearOf(u), MonthOf(u)) <= MAX_DAYS[MonthOf(u)];
  }

  lemma LeapDayMatches(s: Schedule, y: int, tod: int)
    requires WellFormed(s) && IsLeap(y) && 2 in s.mon && 29 in s.dom && s.domRestricted && !s.dowRestricted
    requires TimeAllowed(s, tod)
    ensures Matches(s, LeapDay(y) + tod)
  {
    ReadInstant(y, 2, 29, tod / 60, tod % 60);
  }

  /** A window of n years is longer than one day. */
  lemma WindowLong(t: Minute, years: int)
    requires years >= 2
    ensures AddDate(t, years, 1) > t + DAY
  {
    Reading(t);
    var y, m, d := YearOf(t), MonthOf(t), DayOfMonth(t);
    WithinYear(DateOf(DayOf(t)));
    WithinYearLinear(y + years, m, d + 1);
    if y + 2 < y + years {
      YearsGrow(y + 2, y + years);
    }
    YearLength(y + 1);
    DateOfNumber(DayOf(t));
  }

  /**
    Exactly when an accepted schedule fires in the search window: it has an
    ordinary day, or a leap day lies in reach of its first and last allowed
    time of day.
   */
  lemma FiresExactly(s: Schedule, t: Minute)
    requires Accepted(s)
    ensures Fires(s, t, Limit(t)) <==>
      HasOrdinaryDay(s) || LeapDayInReach(t, Limit(t), FirstTime(s), LastTime(s))
  {
    if HasOrdinaryDay(s) {
      OrdinaryDayFires(s, t, 4);
    } else {
      OnlyLeapDay(s);
      ReachedIffFires(s, t, Limit(t), FirstTime(s), LastTime(s));
    }
  }

  lemma OnlyLeapDay(s: Schedule)
    requires Accepted(s) && !HasOrdinaryDay(s)
    ensures 2 in s.mon && 29 in s.dom && s.domRestricted && !s.dowRestricted
  {
    var v :| v in s.dom && 1 <= v <= 31;
    assert s.dom != {};
    var m, d :| 1 <= m <= 12 && m in s.mon && d in s.dom && 1 <= d <= MAX_DAYS[m];
    assert m == 2 && d == 29;
  }

  lemma ReachedIffFires(s: Schedule, t: Minute, limit: Minute, first: int, last: int)
    requires Accepted(s) && !HasOrdinaryDay(s) && limit == Limit(t)
    requires first == FirstTime(s) && last == LastTime(s)
    ensures Fires(s, t, limit) <==> LeapDayInReach(t, limit, first, last)
  {
    OnlyLeapDay(s);
    if LeapDayInReach(t, limit, first, last) {
      var y :| IsLeap(y) && t <= LeapDay(y) + last && LeapDay(y) + first < limit;
      WindowLong(t, 4);
      var tod := if t <= LeapDay(y) + first then first else last;
      LeapDayMatches(s, y, tod);
      assert t <= LeapDay(y) + tod < limit;
    }
    if u :| t <= u < limit && Matches(s, u) {
      OnlyLeapDays(s, u);
      DayAndTime(u);
      ClockTime(s, HourOf(u), MinuteOf(u));
      assert IsLeap(YearOf(u)) && t <= LeapDay(YearOf(u)) + last && LeapDay(YearOf(u)) + first < limit;
    }
  }

  /** So the search returns a time exactly then. */
  lemma NextExactly(s: Schedule, afterNs: int, r: Option<Minute>)
    requires Accepted(s) && IsNext(s, afterNs, r)
    ensures var t := FirstMinute(afterNs);
      r.Some? <==> HasOrdinaryDay(s) || LeapDayInReach(t, Limit(t), FirstTime(s), LastTime(s))
  {
    var t := FirstMinute(afterNs);
    IsNextMeans(s, afterNs, r);
    FiresExactly(s, t);
    if Fires(s, t, Limit(t)) {
      var u :| t <= u < Limit(t) && Matches(s, u);
    }
  }

  // ------------------------------------------------------- leap-day windows

  /** A whole leap day inside the window. */
  ghost predicate HoldsLeapDay(t: Minute, limit: Minute) {
    exists y :: IsLeap(y) && t <= LeapDay(y) && LeapDay(y) + DAY <= limit
  }

  lemma HeldLeapDayFires(s: Schedule, t: Minute, limit: Minute)
    requires Accepted(s) && !HasOrdinaryDay(s) && HoldsLeapDay(t, limit)
    ensures Fires(s, t, limit)
  {
    OnlyLeapDay(s);
    var y :| IsLeap(y) && t <= LeapDay(y) && LeapDay(y) + DAY <= limit;
    LeapDayMatches(s, y, FirstTime(s));
  }

  /** Accepted schedules fire whenever the four-year window holds a leap day. */
  lemma AcceptedFires(s: Schedule, t: Minute)
    requires Accepted(s) && HoldsLeapDay(t, Limit(t))
    ensures Fires(s, t, Limit(t))
  {
    if HasOrdinaryDay(s) {
      OrdinaryDayFires(s, t, 4);
    } else {
      HeldLeapDayFires(s, t, Limit(t));
    }
  }

  lemma LeapDayInYear(y: int)
    requires IsLeap(y)
    ensures DaysBeforeYear(y) * DAY <= LeapDay(y) && LeapDay(y) + DAY <= DaysBeforeYear(y + 1) * DAY
  {
    WithinYear(Date(y, 2, 29));
  }

  /** A leap year strictly inside the window gives it a leap day. */
  lemma LeapYearInside(t: Minute, years: int, y: int)
    requires IsLeap(y) && YearOf(t) < y < YearOf(t) + years
    ensures HoldsLeapDay(t, AddDate(t, years, 1))
  {
    YearBounds(t);
    LeapDayInYear(y);
    if YearOf(t) + 1 < y {
      YearsGrow(YearOf(t) + 1, y);
    }
    NoEarlierThan(t, y + 1, years);
  }

  /** So do leap years at both ends: one leap day is still ahead, or the other is already inside. */
  lemma LeapYearsAtEnds(t: Minute, years: int)
    requires years >= 1 && IsLeap(YearOf(t)) && IsLeap(YearOf(t) + years)
    ensures HoldsLeapDay(t, AddDate(t, years, 1))
  {
    var y, z := YearOf(t), YearOf(t) + years;
    LeapDayInYear(y);
    if t <= LeapDay(y) {
      NoEarlierThan(t, y + 1, years);
      assert IsLeap(y) && t <= LeapDay(y) && LeapDay(y) + DAY <= AddDate(t, years, 1);
    } else {
      SamePlace(t, z);
      YearBounds(t);
      LeapDayInYear(z);
      if y + 1 < z {
        YearsGrow(y + 1, z);
      }
      assert IsLeap(z) && t <= LeapDay(z) && LeapDay(z) + DAY <= AddDate(t, years, 1);
    }
  }

  lemma SamePlace(t: Minute, z: int)
    requires IsLeap(YearOf(t)) && IsLeap(z) && t > LeapDay(YearOf(t))
    ensures AddDate(t, z - YearOf(t), 1) >= LeapDay(z) + DAY
  {
    var y, m, d := YearOf(t), MonthOf(t), DayOfMonth(t);
    Reading(t);
    assert DaysBeforeMonth(y, 2) == DaysBeforeMonth(z, 2) == 31;
    SameMonths(y, z, m);
    DateOfNumber(DayOf(t));
    assert DayOf(t) >= DayNumber(y, 2, 29);
  }

  lemma {:induction false} SameMonths(y: int, z: int, m: int)
    requires IsLeap(y) == IsLeap(z) && 1 <= m <= 12
    ensures DaysBeforeMonth(y, m) == DaysBeforeMonth(z, m)
    decreases m
  {
    if m > 1 {
      SameMonths(y, z, m - 1);
    }
  }

  /** Every four-year window starting in 1901 to 2095 holds a leap day. */
  lemma FourYearsAroundNow(t: Minute)
    requires 1901 <= YearOf(t) <= 2095
    ensures HoldsLeapDay(t, Limit(t))
  {
    var y := YearOf(t);
    LeapYearNear(y + 4 - y % 4);
    if y % 4 == 0 {
      LeapYearNear(y);
      LeapYearsAtEnds(t, 4);
    } else {
      LeapYearInside(t, 4, y + 4 - y % 4);
    }
  }

  lemma LeapYearNear(y: int)
    requires 1901 <= y <= 2099 && y % 4 == 0
    ensures IsLeap(y)
  {
    var century := y / 100;
    assert y == 100 * century + y % 100;
    assert y % 100 == 0 ==> century == 20;
  }

  /** Every eight-year window does, always. */
  lemma EightYears(t: Minute)
    ensures HoldsLeapDay(t, AddDate(t, 8, 1))
  {
    var y := YearOf(t);
    var z := y + 4 - y % 4;
    CenturiesApart(z);
    if IsLeap(z) {
      LeapYearInside(t, 8, z);
    } else if y % 4 != 0 {
      LeapYearInside(t, 8, z + 4);
    } else {
      LeapYearsAtEnds(t, 8);
    }
  }

  lemma CenturiesApart(z: int)
    requires z % 4 == 0
    ensures !IsLeap(z) ==> IsLeap(z - 4) && IsLeap(z + 4)
  {
    if !IsLeap(z) {
      LeapBeside(z, z - 4);
      LeapBeside(z, z + 4);
    }
  }

  lemma LeapBeside(z: int, y: int)
    requires z % 4 == 0 && !IsLeap(z) && (y == z - 4 || y == z + 4)
    ensures IsLeap(y)
  {
    Offset(z, y);
    FourApart(z, y);
  }

  lemma FourApart(z: int, y: int)
    requires z % 4 == 0 && (y == z - 4 || y == z + 4)
    ensures y % 4 == 0
  {
  }

  /** Four years either side of a century is not one. */
  lemma Offset(z: int, y: int)
    requires z % 100 == 0 && (y == z - 4 || y == z + 4)
    ensures y % 100 != 0
  {
    var m, k := z / 100, y / 100;
    assert z == 100 * m && y == 100 * k + y % 100;
    assert 100 * (k - m) + y % 100 == y - z;
  }

  /** With an eight-year window every accepted schedule would fire. */
  lemma EightYearsSuffice(s: Schedule, t: Minute)
    requires Accepted(s)
    ensures Fires(s, t, AddDate(t, 8, 1))
  {
    if HasOrdinaryDay(s) {
      OrdinaryDayFires(s, t, 8);
    } else {
      EightYears(t);
      HeldLeapDayFires(s, t, AddDate(t, 8, 1));
    }
  }

  /** The feasibility check turns away exactly the schedules that never fire. */
  lemma FeasibleMeans(s: Schedule)
    requires WellFormed(s) && (s.domRestricted || 1 in s.dom)
    ensures Feasible(s) <==> exists t :: Matches(s, t)
  {
    if Feasible(s) {
      EightYearsSuffice(s, 0);
      var u :| 0 <= u < AddDate(0, 8, 1) && Matches(s, u);
    }
    if u :| Matches(s, u) {
      Reading(u);
      var m, d := MonthOf(u), DayOfMonth(u);
      assert d <= DaysIn(YearOf(u), m) <= MAX_DAYS[m];
      if !s.domRestricted {
        assert 1 in s.dom && 1 <= MAX_DAYS[m];
      }
    }
  }

  /** With four years it may not: every schedule confined to leap days is silent when asked on 1 March 2096. */
  lemma LeapDayMissed(s: Schedule)
    requires WellFormed(s) && !HasOrdinaryDay(s)
    ensures var t := Instant(2096, 3, 1, 0, 0);
      !Fires(s, t, Limit(t))
  {
    var t := Instant(2096, 3, 1, 0, 0);
    ReadInstant(2096, 3, 1, 0, 0);
    assert Limit(t) == Instant(2100, 3, 2, 0, 0);
    forall u | t <= u < Limit(t)
      ensures !Matches(s, u)
    {
      NoLeapDayThere(u);
      if Matches(s, u) {
        OnlyLeapDays(s, u);
      }
    }
  }

  /** Midnight on 29 February. */
  const LEAP_MIDNIGHT := Schedule({0}, {0}, {29}, {2}, {0, 1, 2, 3, 4, 5, 6}, true, false)

  /** Such a schedule is accepted. */
  lemma LeapMidnightAccepted()
    ensures Accepted(LEAP_MIDNIGHT) && !HasOrdinaryDay(LEAP_MIDNIGHT)
  {
    var s := LEAP_MIDNIGHT;
    assert 0 in s.min && 0 in s.hour && 29 in s.dom && 2 in s.mon && 0 in s.dow;
    assert 29 <= MAX_DAYS[2];
  }

  lemma NoLeapDayThere(u: Minute)
    requires Instant(2096, 3, 1, 0, 0) <= u < Instant(2100, 3, 2, 0, 0)
    ensures !(MonthOf(u) == 2 && DayOfMonth(u) == 29)
  {
    DayAndTime(u);
    DateOfNumber(DayOf(u));
    OrderOfNumbers(Date(2096, 3, 1), DateOf(DayOf(u)));
    OrderOfNumbers(DateOf(DayOf(u)), Date(2100, 3, 2));
    NoLeapDate(DateOf(DayOf(u)));
  }

  lemma NoLeapDate(t: Date)
    requires Valid(t) && !Before(t, Date(2096, 3, 1)) && !Before(Date(2100, 3, 2), t)
    ensures !(t.m == 2 && t.d == 29)
  {
  }
}
