/**
 * The dates the sort filters compute from the current time: `setDate`,
 * `setMonth` and `setFullYear` applied to a copy of now, and the first and
 * last instants of the current and previous month built with the
 * `Date` constructor.
 */
module RelativeDates {
  import opened LocalCalendar

  /** `d = new Date(); d.setDate(d.getDate() - k)` */
  function DaysBefore(now: DateTime, k: int): Time {
    MakeDate(MakeDay(now.year, now.month, now.day - k), now.TimeOfDay())
  }

  /** `d = new Date(); d.setMonth(d.getMonth() - k)` */
  function MonthsBefore(now: DateTime, k: int): Time {
    MakeDate(MakeDay(now.year, now.month - k, now.day), now.TimeOfDay())
  }

  /** `d = new Date(); d.setFullYear(d.getFullYear() - k)` */
  function YearsBefore(now: DateTime, k: int): Time {
    MakeDate(MakeDay(now.year - k, now.month, now.day), now.TimeOfDay())
  }

  /** `new Date(now.getFullYear(), now.getMonth(), 1)` */
  function MonthStart(now: DateTime): Time {
    NewDate(now.year, now.month, 1)
  }

  /** `new Date(now.getFullYear(), now.getMonth() - 1, 1)` */
  function PreviousMonthStart(now: DateTime): Time {
    NewDate(now.year, now.month - 1, 1)
  }

  /** `new Date(now.getFullYear(), now.getMonth(), 0, 23, 59, 59, 999)` */
  function PreviousMonthEnd(now: DateTime): Time {
    MakeDate(MakeDay(FullYear(now.year), now.month, 0), MakeTime(23, 59, 59, 999))
  }

  /** Going back `k` days with `setDate` is exactly `k` whole days earlier, whatever the month. */
  lemma DaysBeforeIsExact(now: DateTime, k: int)
    ensures DaysBefore(now, k) == now.Time() - k * MsPerDay
  {
  }

  /** Month `m + 1` starts between 28 and 31 days after month `m`, for any month index `m`. */
  lemma MonthStep(y: int, m: int)
    ensures 28 <= MakeDay(y, m + 1, 1) - MakeDay(y, m, 1) <= 31
  {
    var q := m / 12;
    var r := m % 12;
    MonthLength(y + q, r);
    assert MakeDay(y, m, 1) == MakeDay(y + q, r, 1) by {
      assert r / 12 == 0 && r % 12 == r;
    }
    if r < 11 {
      assert (m + 1) / 12 == q && (m + 1) % 12 == r + 1;
      assert (r + 1) / 12 == 0 && (r + 1) % 12 == r + 1;
    } else {
      assert (m + 1) / 12 == q + 1 && (m + 1) % 12 == 0;
      assert (r + 1) / 12 == 1 && (r + 1) % 12 == 0;
    }
  }

  /** `k` month starts back lie between `28 * k` and `31 * k` days back. */
  lemma {:induction false} MonthsSpan(y: int, m: int, k: nat)
    ensures 28 * k <= MakeDay(y, m, 1) - MakeDay(y, m - k, 1) <= 31 * k
  {
    if k > 0 {
      MonthsSpan(y, m, k - 1);
      MonthStep(y, m - k);
      assert m - k + 1 == m - (k - 1);
    }
  }

  /** Going back `k` months with `setMonth` lands between `28 * k` and `31 * k` days earlier. */
  lemma MonthsBeforeBounds(now: DateTime, k: nat)
    ensures now.Time() - 31 * k * MsPerDay <= MonthsBefore(now, k) <= now.Time() - 28 * k * MsPerDay
  {
    MonthsSpan(now.year, now.month, k);
    var gap := MakeDay(now.year, now.month, now.day) - MakeDay(now.year, now.month - k, now.day);
    assert gap == MakeDay(now.year, now.month, 1) - MakeDay(now.year, now.month - k, 1);
    assert now.Time() - MonthsBefore(now, k) == gap * MsPerDay;
  }

  /** Each year is 365 or 366 days. */
  lemma {:induction false} YearsSpan(y: int, k: nat)
    ensures 365 * k <= DayFromYear(y) - DayFromYear(y - k) <= 366 * k
  {
    if k > 0 {
      YearsSpan(y, k - 1);
      YearLength(y - k);
      assert y - k + 1 == y - (k - 1);
    }
  }

  /** Going back `k` years with `setFullYear` lands between `365 * k - 1` and `366 * k + 1` days earlier. */
  lemma YearsBeforeBounds(now: DateTime, k: nat)
    requires now.Valid()
    ensures now.Time() - (366 * k + 1) * MsPerDay <= YearsBefore(now, k) <= now.Time() - (365 * k - 1) * MsPerDay
  {
    YearsSpan(now.year, k);
    MakeDayInYear(now.year, now.month, now.day);
    MakeDayInYear(now.year - k, now.month, now.day);
    var gap := MakeDay(now.year, now.month, now.day) - MakeDay(now.year - k, now.month, now.day);
    assert -1 <= DaysBeforeMonth(now.year, now.month) - DaysBeforeMonth(now.year - k, now.month) <= 1;
    assert now.Time() - YearsBefore(now, k) == gap * MsPerDay;
  }

  /** "Last month" starts at midnight on the first day of the month before the current one (December of the year before in January). */
  lemma PreviousMonthStartIsFirstDay(now: DateTime)
    requires 0 <= now.month < 12
    ensures var p := PreviousMonth(FullYear(now.year), now.month);
            PreviousMonthStart(now) == MakeDate(MakeDay(p.0, p.1, 1), 0)
  {
    if now.month == 0 {
      JanuaryWraps(FullYear(now.year), 1);
    }
  }

  /** "Last month" ends one millisecond before the current month starts. */
  lemma PreviousMonthEndTouchesMonthStart(now: DateTime)
    ensures PreviousMonthEnd(now) + 1 == MonthStart(now)
  {
  }

  /** "Last month" covers exactly the days of the previous month. */
  lemma PreviousMonthIsWholeMonth(now: DateTime)
    requires 0 <= now.month < 12
    ensures var p := PreviousMonth(FullYear(now.year), now.month);
            PreviousMonthEnd(now) + 1 - PreviousMonthStart(now) == DaysInMonth(p.0, p.1) * MsPerDay
  {
    var y := FullYear(now.year);
    PreviousMonthSpan(y, now.month);
    var span := MakeDay(y, now.month, 0) - MakeDay(y, now.month - 1, 1) + 1;
    assert PreviousMonthEnd(now) + 1 - PreviousMonthStart(now) == span * MsPerDay;
  }

  /** The first of the current month is no later than now, for years the constructor does not remap. */
  lemma MonthStartNotAfterNow(now: DateTime)
    requires now.Valid() && !(0 <= now.year <= 99)
    ensures MonthStart(now) <= now.Time()
    ensures now.Time() - MonthStart(now) < 31 * MsPerDay
  {
    MakeDayInYear(now.year, now.month, now.day);
    MakeDayInYear(now.year, now.month, 1);
  }
}
