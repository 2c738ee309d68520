/**
 * The Gregorian calendar the app reaches through `Calendar.current`, in one fixed
 * time zone without daylight-saving shifts. A `Date` is a valid civil date-time
 * (proleptic Gregorian, any year, whole seconds); `Seconds` places it on a linear
 * timeline so that Foundation's `<` on `Date` is `Before`.
 *
 * Model assumption (Foundation's documented behaviour, not proved here): adding
 * months or years keeps the day of month when the target month has it and
 * otherwise clamps it to that month's last day (31 January + 1 month = 28 or 29
 * February; 29 February + 1 year = 28 February).
 */
module Calendar {

  datatype Civil = Civil(year: int, month: int, day: int, hour: int, minute: int, second: int)

  predicate IsLeapYear(y: int) {
    y % 4 == 0 && (y % 100 != 0 || y % 400 == 0)
  }

  function DaysInMonth(y: int, m: int): (n: int)
    requires 1 <= m <= 12
    ensures 28 <= n <= 31
    ensures n == 29 <==> m == 2 && IsLeapYear(y)
  {
    if m == 2 then (if IsLeapYear(y) then 29 else 28)
    else if m == 4 || m == 6 || m == 9 || m == 11 then 30
    else 31
  }

  function DaysInYear(y: int): int {
    if IsLeapYear(y) then 366 else 365
  }

  predicate ValidCivil(c: Civil) {
    && 1 <= c.month <= 12
    && 1 <= c.day <= DaysInMonth(c.year, c.month)
    && 0 <= c.hour < 24 && 0 <= c.minute < 60 && 0 <= c.second < 60
  }

  /** A point in time, as Foundation's `Date` seen through the fixed-zone calendar. */
  type Date = c: Civil | ValidCivil(c) witness Civil(1970, 1, 1, 0, 0, 0)

  // ---------------------------------------------------------------------------
  // The timeline
  // ---------------------------------------------------------------------------

  /** Days in the months of year `y` before month `m`. */
  function DaysBeforeMonth(y: int, m: int): (n: nat)
    requires 1 <= m <= 13
    ensures m > 1 ==> n == DaysBeforeMonth(y, m - 1) + DaysInMonth(y, m - 1)
  {
    if m == 1 then 0 else DaysBeforeMonth(y, m - 1) + DaysInMonth(y, m - 1)
  }

  lemma DaysBeforeMonthYear(y: int)
    ensures DaysBeforeMonth(y, 13) == DaysInYear(y)
  {
    assert DaysBeforeMonth(y, 3) == 31 + DaysInMonth(y, 2);
    assert DaysBeforeMonth(y, 7) == 31 + DaysInMonth(y, 2) + 31 + 30 + 31 + 30;
  }

  /** Days from 1 January of year 1 to 1 January of year `y` (negative before it). */
  function DaysBeforeYear(y: int): int
    decreases if y >= 1 then y - 1 else 1 - y
  {
    if y == 1 then 0
    else if y > 1 then DaysBeforeYear(y - 1) + DaysInYear(y - 1)
    else DaysBeforeYear(y + 1) - DaysInYear(y)
  }

  lemma DaysBeforeNextYear(y: int)
    ensures DaysBeforeYear(y + 1) == DaysBeforeYear(y) + DaysInYear(y)
  {
  }

  /** Index of the month of `d` counted from January of year 0. */
  function MonthIndex(d: Civil): int {
    d.year * 12 + d.month - 1
  }

  /** Day number of the first day of the month with index `k`. */
  function FirstDayOfMonthIndex(k: int): int {
    DaysBeforeYear(k / 12) + DaysBeforeMonth(k / 12, k % 12 + 1)
  }

  /** Day number of the civil day of `d`; day 0 is 1 January of year 1. */
  function DayNumber(d: Date): int {
    DaysBeforeYear(d.year) + DaysBeforeMonth(d.year, d.month) + d.day - 1
  }

  function SecondOfDay(d: Date): (s: nat)
    ensures s < 86400
  {
    d.hour * 3600 + d.minute * 60 + d.second
  }

  /** Position of `d` on the timeline, in seconds. */
  function Seconds(d: Date): int {
    DayNumber(d) * 86400 + SecondOfDay(d)
  }

  /** Foundation's `a < b` on dates. */
  predicate Before(a: Date, b: Date) {
    Seconds(a) < Seconds(b)
  }

  /** Foundation's `a >= b` on dates. */
  predicate NotBefore(a: Date, b: Date) {
    !Before(a, b)
  }

  lemma DayNumberByMonthIndex(d: Date)
    ensures DayNumber(d) == FirstDayOfMonthIndex(MonthIndex(d)) + d.day - 1
  {
    var k := MonthIndex(d);
    assert k / 12 == d.year && k % 12 + 1 == d.month;
  }

  lemma {:induction false} FirstDayOfNextMonthIndex(k: int)
    ensures FirstDayOfMonthIndex(k + 1) == FirstDayOfMonthIndex(k) + DaysInMonth(k / 12, k % 12 + 1)
  {
    var y, m := k / 12, k % 12 + 1;
    if m < 12 {
      assert (k + 1) / 12 == y && (k + 1) % 12 + 1 == m + 1;
    } else {
      assert (k + 1) / 12 == y + 1 && (k + 1) % 12 + 1 == 1;
      DaysBeforeNextYear(y);
      DaysBeforeMonthYear(y);
    }
  }

  lemma {:induction false} FirstDayMonotone(j: int, k: int)
    requires j <= k
    ensures FirstDayOfMonthIndex(j) <= FirstDayOfMonthIndex(k)
    decreases k - j
  {
    if j < k {
      FirstDayMonotone(j, k - 1);
      FirstDayOfNextMonthIndex(k - 1);
    }
  }

  /** A date in a later month falls on a later day. */
  lemma LaterMonthLaterDay(a: Date, b: Date)
    requires MonthIndex(a) < MonthIndex(b)
    ensures DayNumber(a) < DayNumber(b)
  {
    var ka := MonthIndex(a);
    DayNumberByMonthIndex(a);
    DayNumberByMonthIndex(b);
    assert ka / 12 == a.year && ka % 12 + 1 == a.month;
    FirstDayOfNextMonthIndex(ka);
    FirstDayMonotone(ka + 1, MonthIndex(b));
  }

  /** A date on a later day is later, whatever the times of day. */
  lemma LaterDayIsLater(a: Date, b: Date)
    requires DayNumber(a) < DayNumber(b)
    ensures Before(a, b)
  {
  }

  /** A date in a later month is later, whatever the days and times. */
  lemma LaterMonthIsLater(a: Date, b: Date)
    requires MonthIndex(a) < MonthIndex(b)
    ensures DayNumber(a) < DayNumber(b)
    ensures Before(a, b)
  {
    LaterMonthLaterDay(a, b);
    LaterDayIsLater(a, b);
  }

  /** Two dates on the same day number are the same calendar day. */
  lemma DayNumberInjective(a: Date, b: Date)
    requires DayNumber(a) == DayNumber(b)
    ensures a.year == b.year && a.month == b.month && a.day == b.day
  {
    if MonthIndex(a) < MonthIndex(b) {
      LaterMonthLaterDay(a, b);
    } else if MonthIndex(b) < MonthIndex(a) {
      LaterMonthLaterDay(b, a);
    } else {
      assert a.year == b.year && a.month == b.month;
      DayNumberByMonthIndex(a);
      DayNumberByMonthIndex(b);
    }
  }

  /** The timeline position determines the date: `Before` is a strict total order. */
  lemma SecondsInjective(a: Date, b: Date)
    ensures Seconds(a) == Seconds(b) <==> a == b
    ensures a != b ==> Before(a, b) || Before(b, a)
  {
    if Seconds(a) == Seconds(b) {
      if DayNumber(a) < DayNumber(b) {
        LaterDayIsLater(a, b);
      } else if DayNumber(b) < DayNumber(a) {
        LaterDayIsLater(b, a);
      } else {
        DayNumberInjective(a, b);
        assert SecondOfDay(a) == SecondOfDay(b);
        assert a.hour == b.hour;
      }
    }
  }

  // ---------------------------------------------------------------------------
  // Day steps
  // ---------------------------------------------------------------------------

  /** The same time of day on the following calendar day. */
  function NextDay(d: Date): (r: Date)
    ensures DayNumber(r) == DayNumber(d) + 1
    ensures SecondOfDay(r) == SecondOfDay(d)
  {
    if d.day < DaysInMonth(d.year, d.month) then
      d.(day := d.day + 1)
    else if d.month < 12 then
      var r: Date := d.(month := d.month + 1, day := 1);
      NextMonthFirstDay(d, r);
      r
    else
      var r: Date := d.(year := d.year + 1, month := 1, day := 1);
      NextYearFirstDay(d, r);
      r
  }

  lemma NextMonthFirstDay(d: Date, r: Date)
    requires d.day == DaysInMonth(d.year, d.month) && d.month < 12
    requires r == d.(month := d.month + 1, day := 1)
    ensures DayNumber(r) == DayNumber(d) + 1
  {
    assert DaysBeforeMonth(d.year, d.month + 1) == DaysBeforeMonth(d.year, d.month) + DaysInMonth(d.year, d.month);
  }

  lemma NextYearFirstDay(d: Date, r: Date)
    requires d.day == DaysInMonth(d.year, d.month) && d.month == 12
    requires r == d.(year := d.year + 1, month := 1, day := 1)
    ensures DayNumber(r) == DayNumber(d) + 1
  {
    DaysBeforeNextYear(d.year);
    DaysBeforeMonthYear(d.year);
    assert DaysBeforeMonth(d.year, 13) == DaysBeforeMonth(d.year, 12) + 31;
  }

  /** The same time of day on the preceding calendar day. */
  function PrevDay(d: Date): (r: Date)
    ensures DayNumber(r) == DayNumber(d) - 1
    ensures SecondOfDay(r) == SecondOfDay(d)
  {
    if d.day > 1 then
      d.(day := d.day - 1)
    else if d.month > 1 then
      var r: Date := d.(month := d.month - 1, day := DaysInMonth(d.year, d.month - 1));
      NextMonthFirstDay(r, d);
      r
    else
      var r: Date := d.(year := d.year - 1, month := 12, day := 31);
      NextYearFirstDay(r, d);
      r
  }

  /** `date(byAdding: .day, value: n, to: d)`. */
  function AddDays(d: Date, n: int): (r: Date)
    ensures DayNumber(r) == DayNumber(d) + n
    ensures SecondOfDay(r) == SecondOfDay(d)
    ensures Seconds(r) == Seconds(d) + n * 86400
    decreases if n >= 0 then n else -n
  {
    if n == 0 then d
    else if n > 0 then AddDays(NextDay(d), n - 1)
    else AddDays(PrevDay(d), n + 1)
  }

  // ---------------------------------------------------------------------------
  // Month and year steps (day of month clamped)
  // ---------------------------------------------------------------------------

  function Min(a: int, b: int): int { if a <= b then a else b }

  /** `date(byAdding: .month, value: n, to: d)`. */
  function AddMonths(d: Date, n: int): (r: Date)
    ensures MonthIndex(r) == MonthIndex(d) + n
    ensures r.day == Min(d.day, DaysInMonth(r.year, r.month))
    ensures SecondOfDay(r) == SecondOfDay(d) && r.hour == d.hour && r.minute == d.minute && r.second == d.second
  {
    var k := MonthIndex(d) + n;
    var y, m := k / 12, k % 12 + 1;
    d.(year := y, month := m, day := Min(d.day, DaysInMonth(y, m)))
  }

  /** `date(byAdding: .year, value: n, to: d)`. */
  function AddYears(d: Date, n: int): (r: Date)
    ensures r.year == d.year + n && r.month == d.month
    ensures MonthIndex(r) == MonthIndex(d) + 12 * n
    ensures r.day == Min(d.day, DaysInMonth(r.year, r.month))
    ensures SecondOfDay(r) == SecondOfDay(d) && r.hour == d.hour && r.minute == d.minute && r.second == d.second
  {
    var y := d.year + n;
    d.(year := y, day := Min(d.day, DaysInMonth(y, d.month)))
  }

  /** Moving forward by a positive number of days, months or years gives a later date. */
  lemma AddMonthsLater(d: Date, n: int)
    requires n > 0
    ensures Before(d, AddMonths(d, n))
  {
    LaterMonthIsLater(d, AddMonths(d, n));
  }

  lemma AddYearsLater(d: Date, n: int)
    requires n > 0
    ensures Before(d, AddYears(d, n))
  {
    LaterMonthIsLater(d, AddYears(d, n));
  }

  lemma AddMonthsEarlier(d: Date, n: int)
    requires n < 0
    ensures Before(AddMonths(d, n), d)
  {
    LaterMonthIsLater(AddMonths(d, n), d);
  }

  lemma AddYearsEarlier(d: Date, n: int)
    requires n < 0
    ensures Before(AddYears(d, n), d)
  {
    LaterMonthIsLater(AddYears(d, n), d);
  }

  // ---------------------------------------------------------------------------
  // Calendar units containing a date
  // ---------------------------------------------------------------------------

  /** `startOfDay(for:)`. */
  function StartOfDay(d: Date): (r: Date)
    ensures r.year == d.year && r.month == d.month && r.day == d.day
    ensures DayNumber(r) == DayNumber(d) && SecondOfDay(r) == 0
    ensures NotBefore(d, r)
  {
    d.(hour := 0, minute := 0, second := 0)
  }

  /** `dateInterval(of: .month, for:)?.start`. */
  function StartOfMonth(d: Date): (r: Date)
    ensures r.year == d.year && r.month == d.month && r.day == 1 && SecondOfDay(r) == 0
    ensures NotBefore(d, r)
  {
    d.(day := 1, hour := 0, minute := 0, second := 0)
  }

  /** `dateInterval(of: .quarter, for:)?.start`: January, April, July or October. */
  function StartOfQuarter(d: Date): (r: Date)
    ensures r.year == d.year && r.month in {1, 4, 7, 10} && r.month <= d.month < r.month + 3
    ensures r.day == 1 && SecondOfDay(r) == 0
    ensures NotBefore(d, r)
  {
    var qm := if d.month <= 3 then 1 else if d.month <= 6 then 4 else if d.month <= 9 then 7 else 10;
    var r: Date := Civil(d.year, qm, 1, 0, 0, 0);
    MonthStartNotAfter(d, r);
    r
  }

  /** Midnight on the first of a month no later in the same year is not after `d`. */
  lemma MonthStartNotAfter(d: Date, r: Date)
    requires r.year == d.year && r.month <= d.month && r.day == 1 && SecondOfDay(r) == 0
    ensures NotBefore(d, r)
  {
    if r.month < d.month {
      LaterMonthIsLater(r, d);
    } else {
      assert DayNumber(r) <= DayNumber(d);
    }
  }

  /** `dateInterval(of: .year, for:)?.start`. */
  function StartOfYear(d: Date): (r: Date)
    ensures r.year == d.year && r.month == 1 && r.day == 1 && SecondOfDay(r) == 0
    ensures NotBefore(d, r)
  {
    var r: Date := Civil(d.year, 1, 1, 0, 0, 0);
    MonthStartNotAfter(d, r);
    r
  }

  /** Day of the week, 1 = Sunday ... 7 = Saturday (1 January of year 1 was a Monday). */
  function Weekday(d: Date): (w: int)
    ensures 1 <= w <= 7
  {
    (DayNumber(d) + 1) % 7 + 1
  }

  /**
   * `dateInterval(of: .weekOfYear, for:)?.start` for a calendar whose weeks begin
   * on `firstWeekday` (the locale's setting).
   */
  function StartOfWeek(d: Date, firstWeekday: int): (r: Date)
    requires 1 <= firstWeekday <= 7
    ensures Weekday(r) == firstWeekday && SecondOfDay(r) == 0
    ensures DayNumber(d) - 6 <= DayNumber(r) <= DayNumber(d)
    ensures NotBefore(d, r)
  {
    var n := DayNumber(d);
    var back := ((n + 1) % 7 + 1 - firstWeekday) % 7;
    WeekdayStepBack(n, firstWeekday);
    MidnightDaysBack(d, back);
    var r := StartOfDay(AddDays(d, 0 - back));
    WeekdayOfStart(r, n, firstWeekday);
    r
  }

  lemma WeekdayOfStart(r: Date, n: int, f: int)
    requires 1 <= f <= 7 && DayNumber(r) == n - ((n + 1) % 7 + 1 - f) % 7
    ensures Weekday(r) == f
  {
    WeekdayStepBack(n, f);
    var m := n - ((n + 1) % 7 + 1 - f) % 7;
    assert Weekday(r) == (m + 1) % 7 + 1;
  }

  lemma MidnightDaysBack(d: Date, back: int)
    requires back >= 0
    ensures DayNumber(StartOfDay(AddDays(d, 0 - back))) == DayNumber(d) - back
    ensures NotBefore(d, StartOfDay(AddDays(d, 0 - back)))
  {
    var r := StartOfDay(AddDays(d, 0 - back));
    assert Seconds(r) == DayNumber(r) * 86400;
  }

  lemma WeekdayStepBack(n: int, f: int)
    requires 1 <= f <= 7
    ensures 0 <= ((n + 1) % 7 + 1 - f) % 7 <= 6
    ensures (n - ((n + 1) % 7 + 1 - f) % 7 + 1) % 7 + 1 == f
  {
    var w := (n + 1) % 7 + 1;
    var back := (w - f) % 7;
    var q := (n + 1) / 7;
    assert n + 1 == 7 * q + (w - 1);
    if w >= f {
      assert back == w - f;
      assert n - back + 1 == 7 * q + (f - 1);
    } else {
      assert back == w - f + 7;
      assert n - back + 1 == 7 * (q - 1) + (f - 1);
    }
  }

  /** Foundation's `isDate(_:equalTo:toGranularity: .month)`. */
  predicate SameMonth(a: Date, b: Date) {
    a.year == b.year && a.month == b.month
  }

  /** The last day of the month of `d`, at `hour:minute`. */
  function LastDayOfMonthAt(d: Date, hour: int, minute: int): (r: Date)
    requires 0 <= hour < 24 && 0 <= minute < 60
    ensures SameMonth(r, d) && r.day == DaysInMonth(d.year, d.month)
    ensures r.hour == hour && r.minute == minute && r.second == 0
  {
    Civil(d.year, d.month, DaysInMonth(d.year, d.month), hour, minute, 0)
  }
}
