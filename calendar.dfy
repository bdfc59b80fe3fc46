/** Calendar values as CashFlowService sees them through java.util.Calendar and
    java.util.Date: a wall-clock instant split into year, zero-based month
    (January is 0, as Calendar.MONTH counts), day of month and milliseconds
    since midnight. Instants are compared field by field; on well-formed values
    this is the order of their millisecond counts, which Calendar.before and
    Calendar.after compare (BeforeIsMillisecondOrder). */
module Calendar {

  /** Milliseconds in one day; the last instant of a day, 23:59:59.999, is MsPerDay - 1. */
  const MsPerDay: int := 86400000

  datatype Timestamp = Timestamp(year: int, month: int, day: int, ms: int)

  /** Leap years of the Gregorian calendar. */
  predicate IsLeapYear(y: int) {
    y % 4 == 0 && (y % 100 != 0 || y % 400 == 0)
  }

  /** Calendar.getActualMaximum(DAY_OF_MONTH) for month m (0..11) of year y. */
  function DaysInMonth(y: int, m: int): (n: int)
    requires 0 <= m < 12
    ensures 28 <= n <= 31
    ensures n == 29 <==> m == 1 && IsLeapYear(y)
    ensures n == 28 <==> m == 1 && !IsLeapYear(y)
  {
    if m == 1 then (if IsLeapYear(y) then 29 else 28)
    else if m == 3 || m == 5 || m == 8 || m == 10 then 30
    else 31
  }

  /** A well-formed instant: a month that exists, a day that exists in it, a time within the day. */
  predicate Valid(t: Timestamp) {
    0 <= t.month < 12 && 1 <= t.day <= DaysInMonth(t.year, t.month) && 0 <= t.ms < MsPerDay
  }

  /** Strict chronological order (Calendar.before). */
  predicate Before(a: Timestamp, b: Timestamp) {
    a.year < b.year
    || (a.year == b.year && a.month < b.month)
    || (a.year == b.year && a.month == b.month && a.day < b.day)
    || (a.year == b.year && a.month == b.month && a.day == b.day && a.ms < b.ms)
  }

  /** Non-strict chronological order (SQL <= on dates). */
  predicate AtMost(a: Timestamp, b: Timestamp) {
    !Before(b, a)
  }

  /** Months counted from year 0; equal exactly for instants in the same calendar month. */
  function MonthIndex(t: Timestamp): int {
    t.year * 12 + t.month
  }

  /** Sets hour, minute, second and millisecond to 00:00:00.000. */
  function StartOfDay(t: Timestamp): (r: Timestamp)
    ensures r.year == t.year && r.month == t.month && r.day == t.day && r.ms == 0
    ensures Valid(t) ==> Valid(r) && AtMost(r, t)
    ensures forall u :: Valid(u) && u.year == t.year && u.month == t.month && u.day == t.day ==> AtMost(r, u)
  {
    t.(ms := 0)
  }

  /** Sets hour, minute, second and millisecond to 23:59:59.999. */
  function EndOfDay(t: Timestamp): (r: Timestamp)
    ensures r.year == t.year && r.month == t.month && r.day == t.day && r.ms == MsPerDay - 1
    ensures Valid(t) ==> Valid(r) && AtMost(t, r)
    ensures forall u :: Valid(u) && u.year == t.year && u.month == t.month && u.day == t.day ==> AtMost(u, r)
  {
    t.(ms := MsPerDay - 1)
  }

  /** The first instant of t's month: day 1 at 00:00:00.000. */
  function FloorMonth(t: Timestamp): (r: Timestamp)
    requires 0 <= t.month < 12
    ensures Valid(r) && MonthIndex(r) == MonthIndex(t)
    ensures Valid(t) ==> AtMost(r, t)
  {
    Timestamp(t.year, t.month, 1, 0)
  }

  /** The last instant of t's own month: its last day at 23:59:59.999. */
  function CeilMonth(t: Timestamp): (r: Timestamp)
    requires 0 <= t.month < 12
    ensures Valid(r) && MonthIndex(r) == MonthIndex(t)
    ensures Valid(t) ==> AtMost(t, r)
  {
    Timestamp(t.year, t.month, DaysInMonth(t.year, t.month), MsPerDay - 1)
  }

  /** Fields (y, m, d, ms) resolved the way java.util.Date resolves them when its
      time is read: a day beyond the end of month m is carried into the
      following month. Date.setYear and Date.setMonth only record the new field,
      so a copy whose year and month were set is resolved once, by this function.
      A day of at most 31 overshoots by at most 3, so one carry is enough. */
  function Lenient(y: int, m: int, d: int, ms: int): (t: Timestamp)
    requires 0 <= m < 12 && 1 <= d <= 31 && 0 <= ms < MsPerDay
    ensures Valid(t) && t.ms == ms
    ensures t == Timestamp(y, m, d, ms) <==> d <= DaysInMonth(y, m)
    ensures d > DaysInMonth(y, m) ==> MonthIndex(t) == y * 12 + m + 1 && t.day == d - DaysInMonth(y, m)
  {
    var n := DaysInMonth(y, m);
    if d <= n then Timestamp(y, m, d, ms)
    else if m == 11 then Timestamp(y + 1, 0, d - n, ms)
    else Timestamp(y, m + 1, d - n, ms)
  }

  // ---------------------------------------------------------------------------
  // Millisecond counts

  /** Days from 0000-01-01 to January 1 of year y; negative for a negative y. */
  function DaysBeforeYear(y: int): int
    decreases if y < 0 then -y else y
  {
    if y == 0 then 0
    else if y > 0 then DaysBeforeYear(y - 1) + DaysBeforeMonth(y - 1, 12)
    else DaysBeforeYear(y + 1) - DaysBeforeMonth(y, 12)
  }

  /** Days from January 1 of year y to the 1st of month m. */
  function DaysBeforeMonth(y: int, m: int): (n: int)
    requires 0 <= m <= 12
    ensures 28 * m <= n <= 31 * m
  {
    if m == 0 then 0 else DaysBeforeMonth(y, m - 1) + DaysInMonth(y, m - 1)
  }

  /** Milliseconds from 0000-01-01 00:00:00.000 to t; the Java millisecond time
      differs from it by a constant, so the two order instants alike. */
  function EpochMs(t: Timestamp): int
    requires 0 <= t.month < 12
  {
    (DaysBeforeYear(t.year) + DaysBeforeMonth(t.year, t.month) + t.day - 1) * MsPerDay + t.ms
  }

  /** A year has 365 days, and one more in a leap year. */
  lemma YearDays(y: int)
    ensures DaysBeforeMonth(y, 12) == 365 + (if IsLeapYear(y) then 1 else 0)
  {
    assert DaysBeforeMonth(y, 2) == 31 + DaysInMonth(y, 1);
    assert DaysBeforeMonth(y, 4) == DaysBeforeMonth(y, 2) + 61;
    assert DaysBeforeMonth(y, 6) == DaysBeforeMonth(y, 4) + 61;
    assert DaysBeforeMonth(y, 8) == DaysBeforeMonth(y, 6) + 62;
    assert DaysBeforeMonth(y, 10) == DaysBeforeMonth(y, 8) + 61;
  }

  /** Year y + 1 starts one common or leap year after year y. */
  lemma YearLength(y: int)
    ensures DaysBeforeYear(y + 1) == DaysBeforeYear(y) + DaysBeforeMonth(y, 12)
  {
  }

  /** Later years start later. */
  lemma {:induction false} YearsIncrease(y: int, z: int)
    requires y < z
    ensures DaysBeforeYear(y) + DaysBeforeMonth(y, 12) <= DaysBeforeYear(z)
    decreases z - y
  {
    YearLength(y);
    if y + 1 < z {
      YearsIncrease(y + 1, z);
    }
  }

  /** A day of month m ends by the start of any later month of the same year. */
  lemma {:induction false} MonthsIncrease(y: int, m: int, n: int)
    requires 0 <= m < n <= 12
    ensures DaysBeforeMonth(y, m) + DaysInMonth(y, m) <= DaysBeforeMonth(y, n)
    decreases n - m
  {
    if m + 1 < n {
      MonthsIncrease(y, m + 1, n);
    }
  }

  /** The field-by-field order is the order of millisecond counts, and distinct
      well-formed instants have distinct counts. */
  lemma BeforeIsMillisecondOrder(a: Timestamp, b: Timestamp)
    requires Valid(a) && Valid(b)
    ensures Before(a, b) <==> EpochMs(a) < EpochMs(b)
    ensures a == b <==> EpochMs(a) == EpochMs(b)
  {
    forall t, u | Valid(t) && Valid(u) && Before(t, u)
      ensures EpochMs(t) < EpochMs(u)
    {
      var dt := DaysBeforeYear(t.year) + DaysBeforeMonth(t.year, t.month) + t.day - 1;
      var du := DaysBeforeYear(u.year) + DaysBeforeMonth(u.year, u.month) + u.day - 1;
      if t.year < u.year {
        YearsIncrease(t.year, u.year);
        if t.month < 11 {
          MonthsIncrease(t.year, t.month, 12);
        }
        assert dt < du;
      } else if t.month < u.month {
        MonthsIncrease(t.year, t.month, u.month);
        assert dt < du;
      }
      assert dt * MsPerDay + t.ms < du * MsPerDay + u.ms;
    }
  }

  /** On well-formed instants, comparing with the first and last instants of a
      month is comparing month indices. */
  lemma MonthBounds(t: Timestamp, u: Timestamp)
    requires Valid(t) && 0 <= u.month < 12
    ensures AtMost(FloorMonth(u), t) <==> MonthIndex(u) <= MonthIndex(t)
    ensures AtMost(t, CeilMonth(u)) <==> MonthIndex(t) <= MonthIndex(u)
  {
  }
}
