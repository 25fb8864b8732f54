/**
 * The date arithmetic of the JavaScript `Date` object, in local time with no
 * daylight-saving changes: a time value is a count of milliseconds, and the
 * constructor `new Date(y, m, d, h, mi, s, ms)` and the setters `setDate`,
 * `setMonth`, `setFullYear` and `setHours` are the ECMAScript abstract
 * operations MakeDay, MakeTime and MakeDate, which normalise out-of-range
 * months and days by carrying into the next larger unit.
 */
module LocalCalendar {

  /** Milliseconds since the epoch, read in local time. */
  type Time = int

  const MsPerDay: int := 86400000

  /** The day number of a time value (days since the epoch, rounded down). */
  function Day(t: Time): int {
    t / 86400000
  }

  /** The day number on which year `y` begins: the lengths of the years between 1970 and `y`, counted forwards or backwards. */
  function DayFromYear(y: int): int
    decreases if y < 1970 then 1970 - y else y - 1970
  {
    if y == 1970 then 0
    else if y > 1970 then DayFromYear(y - 1) + DaysInYear(y - 1)
    else DayFromYear(y + 1) - DaysInYear(y)
  }

  /** The closed form of `DayFromYear` that the ECMAScript specification gives. */
  function DayFromYearFormula(y: int): int {
    365 * (y - 1970) + (y - 1969) / 4 - (y - 1901) / 100 + (y - 1601) / 400
  }

  predicate IsLeapYear(y: int) {
    y % 4 == 0 && (y % 100 != 0 || y % 400 == 0)
  }

  function DaysInYear(y: int): (n: int)
    ensures n == 365 || n == 366
  {
    if IsLeapYear(y) then 366 else 365
  }

  /** The length of month `m` (0 = January) of year `y`. */
  function DaysInMonth(y: int, m: int): (n: int)
    requires 0 <= m < 12
    ensures 28 <= n <= 31
  {
    if m == 1 then (if IsLeapYear(y) then 29 else 28)
    else if m == 3 || m == 5 || m == 8 || m == 10 then 30
    else 31
  }

  /** The number of days of year `y` before month `m` begins. */
  function DaysBeforeMonth(y: int, m: int): (n: int)
    requires 0 <= m < 12
    ensures m == 0 ==> n == 0
    ensures n + DaysInMonth(y, m) <= DaysInYear(y)
    ensures m == 11 ==> n + DaysInMonth(y, m) == DaysInYear(y)
  {
    var common :=
      if m < 6 then
        (if m == 0 then 0 else if m == 1 then 31 else if m == 2 then 59
         else if m == 3 then 90 else if m == 4 then 120 else 151)
      else
        (if m == 6 then 181 else if m == 7 then 212 else if m == 8 then 243
         else if m == 9 then 273 else if m == 10 then 304 else 334);
    common + (if m >= 2 && IsLeapYear(y) then 1 else 0)
  }

  /** MakeDay: the day number of date `date` of month `month` of `year`; months outside 0..11 carry into the year. */
  function MakeDay(year: int, month: int, date: int): int {
    var ym := year + month / 12;
    var mn := month % 12;
    DayFromYear(ym) + DaysBeforeMonth(ym, mn) + date - 1
  }

  /** MakeTime: milliseconds from hours, minutes, seconds and milliseconds. */
  function MakeTime(hour: int, minute: int, second: int, ms: int): int {
    hour * 3600000 + minute * 60000 + second * 1000 + ms
  }

  /** MakeDate: a time value from a day number and a time within that day. */
  function MakeDate(day: int, time: int): Time {
    day * 86400000 + time
  }

  /** The constructor's year rule: a year from 0 to 99 means 1900 to 1999. */
  function FullYear(y: int): int {
    if 0 <= y <= 99 then 1900 + y else y
  }

  /** `new Date(y, m, d)` in local time: midnight at the start of that day. */
  function NewDate(y: int, m: int, d: int): Time {
    MakeDate(MakeDay(FullYear(y), m, d), 0)
  }

  /** A broken-down local date and time, as the getters of a `Date` report it (month 0 = January). */
  datatype DateTime = DateTime(year: int, month: int, day: int, hour: int, minute: int, second: int, ms: int)
  {
    predicate Valid() {
      && 0 <= month < 12 && 1 <= day <= DaysInMonth(year, month)
      && 0 <= hour < 24 && 0 <= minute < 60 && 0 <= second < 60 && 0 <= ms < 1000
    }

    /** The time of day, in milliseconds since midnight. */
    function TimeOfDay(): int {
      MakeTime(hour, minute, second, ms)
    }

    /** The time value this broken-down date stands for. */
    function Time(): Time {
      MakeDate(MakeDay(year, month, day), TimeOfDay())
    }
  }

  /** The first millisecond of the day holding `t` (`setHours(0, 0, 0, 0)`). */
  function StartOfDay(t: Time): Time {
    MakeDate(Day(t), MakeTime(0, 0, 0, 0))
  }

  /** The last millisecond of the day holding `t` (`setHours(23, 59, 59, 999)`). */
  function EndOfDay(t: Time): Time {
    MakeDate(Day(t), MakeTime(23, 59, 59, 999))
  }

  /** The inclusive range from `StartOfDay(t)` to `EndOfDay(t)` is exactly the day that holds `t`. */
  lemma DayRange(t: Time, u: Time)
    ensures StartOfDay(t) <= t <= EndOfDay(t)
    ensures StartOfDay(t) <= u <= EndOfDay(t) <==> Day(u) == Day(t)
    ensures EndOfDay(t) - StartOfDay(t) == MsPerDay - 1
  {
    var d, e := Day(t), Day(u);
    DayBounds(t);
    DayBounds(u);
    assert StartOfDay(t) == d * 86400000 && EndOfDay(t) == d * 86400000 + 86399999;
    if e < d {
      DayOrder(e, d);
    } else if e > d {
      DayOrder(d, e);
    }
  }

  lemma DayBounds(t: Time)
    ensures Day(t) * 86400000 <= t < Day(t) * 86400000 + 86400000
  {
  }

  lemma DayOrder(e: int, d: int)
    requires e < d
    ensures e * 86400000 + 86400000 <= d * 86400000
  {
  }

  /** A valid broken-down time lies on day `MakeDay(year, month, day)`, at its time of day. */
  lemma TimeOfValid(dt: DateTime)
    requires dt.Valid()
    ensures 0 <= dt.TimeOfDay() < MsPerDay
    ensures Day(dt.Time()) == MakeDay(dt.year, dt.month, dt.day)
    ensures StartOfDay(dt.Time()) == MakeDate(MakeDay(dt.year, dt.month, dt.day), 0)
  {
    var d := MakeDay(dt.year, dt.month, dt.day);
    DayOfMakeDate(d, dt.TimeOfDay());
  }

  lemma DayOfMakeDate(d: int, time: int)
    requires 0 <= time < MsPerDay
    ensures Day(MakeDate(d, time)) == d
  {
  }

  /** Year `y` runs from `DayFromYear(y)` for `DaysInYear(y)` days. */
  lemma YearLength(y: int)
    ensures DayFromYear(y + 1) - DayFromYear(y) == DaysInYear(y)
  {
  }

  /** The closed form grows by the length of each year, as the recursive count does. */
  lemma FormulaYearLength(y: int)
    ensures DayFromYearFormula(y + 1) - DayFromYearFormula(y) == DaysInYear(y)
  {
    FloorStep4(y);
    FloorStep100(y);
    FloorStep400(y);
    DivisorChain(y);
    assert DayFromYearFormula(y + 1) - DayFromYearFormula(y)
        == 365 + ((y - 1968) / 4 - (y - 1969) / 4) - ((y - 1900) / 100 - (y - 1901) / 100) + ((y - 1600) / 400 - (y - 1601) / 400);
  }

  /** A year divisible by 400 is divisible by 100, and one divisible by 100 is divisible by 4. */
  lemma DivisorChain(y: int)
    ensures y % 400 == 0 ==> y % 100 == 0
    ensures y % 100 == 0 ==> y % 4 == 0
  {
    if y % 400 == 0 {
      var k := y / 400;
      assert y == 100 * (4 * k);
      MultipleOf100(4 * k);
    }
    if y % 100 == 0 {
      var k := y / 100;
      assert y == 4 * (25 * k);
      MultipleOf4(25 * k);
    }
  }

  lemma MultipleOf100(k: int)
    ensures (100 * k) % 100 == 0
  {
  }

  lemma MultipleOf4(k: int)
    ensures (4 * k) % 4 == 0
  {
  }

  /** The recursive count of days agrees with the ECMAScript closed form for every year. */
  lemma {:induction false} DayFromYearMatchesFormula(y: int)
    ensures DayFromYear(y) == DayFromYearFormula(y)
    decreases if y < 1970 then 1970 - y else y - 1970
  {
    if y > 1970 {
      DayFromYearMatchesFormula(y - 1);
      FormulaYearLength(y - 1);
    } else if y < 1970 {
      DayFromYearMatchesFormula(y + 1);
      FormulaYearLength(y);
    }
  }

  /** The leap-day counts of `DayFromYear` grow by one exactly after a year divisible by 4, 100 or 400. */
  lemma FloorStep4(y: int)
    ensures (y - 1968) / 4 - (y - 1969) / 4 == if y % 4 == 0 then 1 else 0
  {
  }

  lemma FloorStep100(y: int)
    ensures (y - 1900) / 100 - (y - 1901) / 100 == if y % 100 == 0 then 1 else 0
  {
  }

  lemma FloorStep400(y: int)
    ensures (y - 1600) / 400 - (y - 1601) / 400 == if y % 400 == 0 then 1 else 0
  {
  }

  /** Day 1 of the month after month `m` follows the last day of month `m`, across a year end too. */
  lemma MonthLength(y: int, m: int)
    requires 0 <= m < 12
    ensures MakeDay(y, m + 1, 1) - MakeDay(y, m, 1) == DaysInMonth(y, m)
  {
    MakeDayInYear(y, m, 1);
    if m == 11 {
      YearLength(y);
      assert MakeDay(y, 12, 1) == DayFromYear(y + 1) by {
        assert 12 / 12 == 1 && 12 % 12 == 0;
      }
    } else {
      MakeDayInYear(y, m + 1, 1);
      DaysBeforeNextMonth(y, m);
    }
  }

  /** Within a year, `MakeDay` counts the days before the month and the days into it. */
  lemma MakeDayInYear(y: int, m: int, d: int)
    requires 0 <= m < 12
    ensures MakeDay(y, m, d) == DayFromYear(y) + DaysBeforeMonth(y, m) + d - 1
  {
    assert m / 12 == 0 && m % 12 == m;
  }

  /** The days before month `m + 1` are those before month `m` and the days of `m`. */
  lemma DaysBeforeNextMonth(y: int, m: int)
    requires 0 <= m < 11
    ensures DaysBeforeMonth(y, m + 1) == DaysBeforeMonth(y, m) + DaysInMonth(y, m)
  {
  }

  /** `new Date(y, m, 0)` is the last day of the month before `m`. */
  lemma DayZeroIsPreviousMonthEnd(y: int, m: int)
    requires 0 < m < 12
    ensures MakeDay(y, m, 0) == MakeDay(y, m - 1, DaysInMonth(y, m - 1))
  {
    MonthLength(y, m - 1);
    MakeDayInYear(y, m, 0);
    MakeDayInYear(y, m - 1, 1);
    MakeDayInYear(y, m - 1, DaysInMonth(y, m - 1));
  }

  /** `new Date(y, 0, 0)` is the 31st of December of the year before. */
  lemma DayZeroOfJanuary(y: int)
    ensures MakeDay(y, 0, 0) == MakeDay(y - 1, 11, 31)
  {
    MonthLength(y - 1, 11);
    MakeDayInYear(y, 0, 0);
    MakeDayInYear(y - 1, 11, 1);
    MakeDayInYear(y - 1, 11, 31);
    assert MakeDay(y - 1, 12, 1) == DayFromYear(y) by {
      assert 12 / 12 == 1 && 12 % 12 == 0;
    }
  }

  /** The month before month `m` of year `y`, as (year, month) with the month in 0..11. */
  function PreviousMonth(y: int, m: int): (p: (int, int))
    requires 0 <= m < 12
    ensures 0 <= p.1 < 12
  {
    if m == 0 then (y - 1, 11) else (y, m - 1)
  }

  /**
   * The days from `MakeDay(y, m - 1, 1)` to `MakeDay(y, m, 0)` are exactly the
   * days of the previous month, December of the year before for January.
   */
  lemma PreviousMonthSpan(y: int, m: int)
    requires 0 <= m < 12
    ensures var p := PreviousMonth(y, m);
            MakeDay(y, m, 0) - MakeDay(y, m - 1, 1) + 1 == DaysInMonth(p.0, p.1)
  {
    var p := PreviousMonth(y, m);
    if m == 0 {
      DayZeroOfJanuary(y);
      JanuaryWraps(y, 1);
      MakeDayInYear(y - 1, 11, 1);
      MakeDayInYear(y - 1, 11, 31);
    } else {
      DayZeroIsPreviousMonthEnd(y, m);
      MakeDayInYear(y, m - 1, 1);
      MakeDayInYear(y, m - 1, DaysInMonth(y, m - 1));
    }
  }

  /** A month index one below January is December of the year before. */
  lemma JanuaryWraps(y: int, d: int)
    ensures MakeDay(y, -1, d) == MakeDay(y - 1, 11, d)
  {
    assert -1 / 12 == -1 && -1 % 12 == 11;
  }
}
