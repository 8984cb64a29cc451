/** The calendar arithmetic behind `calculateEndDate`: JavaScript `Date` values with a fixed
    offset from UTC, as section 21.4.1 of ECMA-262 defines them.  Times are milliseconds. */
module Calendar {

  datatype PeriodType = HOUR | DAY | WEEK | MONTH

  const MS_PER_MINUTE := 60000
  const MS_PER_HOUR := 3600000
  const MS_PER_DAY := 86400000

  // ---------------------------------------------------------------- years and months

  predicate IsLeap(y: int) {
    (y % 4 == 0 && y % 100 != 0) || y % 400 == 0
  }

  function DaysInYear(y: int): int {
    if IsLeap(y) then 366 else 365
  }

  function MonthLength(y: int, m: int): (n: int)
    requires 0 <= m < 12
    ensures 28 <= n <= 31
  {
    if m == 1 then (if IsLeap(y) then 29 else 28)
    else if m == 3 || m == 5 || m == 8 || m == 10 then 30
    else 31
  }

  /** The number of days of year `y` before its month `m`. */
  function DaysBefore(y: int, m: int): int
    requires 0 <= m < 12
  {
    [0, 31, 59, 90, 120, 151, 181, 212, 243, 273, 304, 334][m] + (if m >= 2 && IsLeap(y) then 1 else 0)
  }

  /** Months are counted from year 0: month `m` of year `y` is `12 * y + m`, so every integer is a month. */
  function LengthOfMonth(k: int): (n: int)
    ensures 28 <= n <= 31
  {
    MonthLength(k / 12, k % 12)
  }

  const JANUARY_1970 := 12 * 1970

  /** The day on which month `k` begins, reached by laying the months end to end from day 0,
      1 January 1970. */
  function FirstOfMonth(k: int): int
    decreases if k < JANUARY_1970 then JANUARY_1970 - k else k - JANUARY_1970
  {
    if k == JANUARY_1970 then 0
    else if k > JANUARY_1970 then FirstOfMonth(k - 1) + LengthOfMonth(k - 1)
    else FirstOfMonth(k + 1) - LengthOfMonth(k)
  }

  lemma MonthStep(k: int)
    ensures FirstOfMonth(k + 1) == FirstOfMonth(k) + LengthOfMonth(k)
  {
  }

  // ---------------------------------------------------------------- the closed form of the standard

  /** DayFromYear of ECMA-262: the day number of 1 January of year `y`. */
  function DayFromYear(y: int): int {
    365 * (y - 1970) + (y - 1969) / 4 - (y - 1901) / 100 + (y - 1601) / 400
  }

  /** MakeDay of ECMA-262: the month may lie outside 0..11 and the date outside the month. */
  function MakeDay(year: int, month: int, date: int): int {
    DayFromMonth(year + month / 12, month % 12) + date - 1
  }

  /** The day number of the first of month `m` of year `y`. */
  function DayFromMonth(y: int, m: int): int
    requires 0 <= m < 12
  {
    DayFromYear(y) + DaysBefore(y, m)
  }

  lemma FourthYears(y: int)
    ensures (y - 1968) / 4 == (y - 1969) / 4 + (if y % 4 == 0 then 1 else 0)
  {
  }

  lemma Centuries(y: int)
    ensures (y - 1900) / 100 == (y - 1901) / 100 + (if y % 100 == 0 then 1 else 0)
  {
  }

  lemma FourthCenturies(y: int)
    ensures (y - 1600) / 400 == (y - 1601) / 400 + (if y % 400 == 0 then 1 else 0)
  {
  }

  lemma Multiples(k: int)
    ensures 4 * k % 4 == 0 && 100 * k % 100 == 0
  {
  }

  lemma CenturiesAreFourthYears(y: int)
    ensures y % 100 == 0 ==> y % 4 == 0
    ensures y % 400 == 0 ==> y % 100 == 0
  {
    if y % 100 == 0 {
      Multiples(25 * (y / 100));
    }
    if y % 400 == 0 {
      Multiples(4 * (y / 400));
    }
  }

  lemma YearStep(y: int)
    ensures DayFromYear(y + 1) == DayFromYear(y) + DaysInYear(y)
  {
    FourthYears(y);
    Centuries(y);
    FourthCenturies(y);
    CenturiesAreFourthYears(y);
  }

  lemma DayFromMonthStep(y: int, m: int)
    requires 0 <= m < 12
    ensures (if m == 11 then DayFromMonth(y + 1, 0) else DayFromMonth(y, m + 1))
            == DayFromMonth(y, m) + MonthLength(y, m)
  {
    YearStep(y);
  }

  lemma DivMod12(year: int, month: int)
    ensures (12 * year + month) / 12 == year + month / 12
    ensures (12 * year + month) % 12 == month % 12
  {
  }

  lemma {:induction false} SameSteps(first: int -> int, k: int)
    requires first(JANUARY_1970) == 0
    requires forall i :: first(i + 1) == first(i) + LengthOfMonth(i)
    ensures first(k) == FirstOfMonth(k)
    decreases if k < JANUARY_1970 then JANUARY_1970 - k else k - JANUARY_1970
  {
    if k > JANUARY_1970 {
      SameSteps(first, k - 1);
      assert first(k - 1 + 1) == first(k - 1) + LengthOfMonth(k - 1);
    } else if k < JANUARY_1970 {
      SameSteps(first, k + 1);
      assert first(k + 1) == first(k) + LengthOfMonth(k);
    }
  }

  lemma ClosedFormStep(k: int)
    ensures DayFromMonth((k + 1) / 12, (k + 1) % 12) == DayFromMonth(k / 12, k % 12) + LengthOfMonth(k)
  {
    var y, m := k / 12, k % 12;
    DayFromMonthStep(y, m);
    if m == 11 {
      assert k + 1 == 12 * (y + 1);
    } else {
      assert (k + 1) / 12 == y && (k + 1) % 12 == m + 1;
    }
  }

  /** The leap-year formula and the table of the standard agree with laying months end to end. */
  lemma ClosedForm(k: int)
    ensures DayFromMonth(k / 12, k % 12) == FirstOfMonth(k)
  {
    var first := (i: int) => DayFromMonth(i / 12, i % 12);
    forall i ensures first(i + 1) == first(i) + LengthOfMonth(i) {
      ClosedFormStep(i);
    }
    SameSteps(first, k);
  }

  /** `MakeDay` of any year, month and date counts on from the first day of the month meant. */
  lemma MakeDayIs(year: int, month: int, date: int)
    ensures MakeDay(year, month, date) == FirstOfMonth(12 * year + month) + date - 1
  {
    DivMod12(year, month);
    ClosedForm(12 * year + month);
  }

  /** The total length of the `n` months starting with month `k`. */
  function SumOfMonths(k: int, n: nat): int
    decreases n
  {
    if n == 0 then 0 else LengthOfMonth(k) + SumOfMonths(k + 1, n - 1)
  }

  lemma {:induction false} MonthsAreAdjacent(k: int, n: nat)
    ensures FirstOfMonth(k + n) == FirstOfMonth(k) + SumOfMonths(k, n)
    ensures 28 * n <= SumOfMonths(k, n) <= 31 * n
    decreases n
  {
    if n > 0 {
      MonthStep(k);
      MonthsAreAdjacent(k + 1, n - 1);
      assert k + 1 + (n - 1) == k + n;
    }
  }

  // ---------------------------------------------------------------- day number to year, month, date

  /** The month that contains day `d`, found by walking from month `k`. */
  function MonthFrom(k: int, d: int): (r: int)
    ensures FirstOfMonth(r) <= d < FirstOfMonth(r + 1)
    decreases if d < FirstOfMonth(k) then FirstOfMonth(k) - d else d - FirstOfMonth(k)
  {
    MonthStep(k);
    MonthStep(k - 1);
    if d < FirstOfMonth(k) then
      if d >= FirstOfMonth(k - 1) then k - 1 else MonthFrom(k - 1, d)
    else if d < FirstOfMonth(k + 1) then k
    else MonthFrom(k + 1, d)
  }

  function MonthOfDay(d: int): (k: int)
    ensures FirstOfMonth(k) <= d < FirstOfMonth(k + 1)
  {
    MonthFrom(JANUARY_1970, d)
  }

  function YearFromDay(d: int): int {
    MonthOfDay(d) / 12
  }

  function MonthFromDay(d: int): (m: int)
    ensures 0 <= m < 12
  {
    MonthOfDay(d) % 12
  }

  function DateFromDay(d: int): (date: int)
    ensures 1 <= date <= LengthOfMonth(MonthOfDay(d))
  {
    MonthStep(MonthOfDay(d));
    d - FirstOfMonth(MonthOfDay(d)) + 1
  }

  lemma {:induction false} FirstOfMonthMonotone(a: int, b: int)
    requires a <= b
    ensures FirstOfMonth(a) + 28 * (b - a) <= FirstOfMonth(b)
    decreases b - a
  {
    if a < b {
      MonthStep(a);
      FirstOfMonthMonotone(a + 1, b);
    }
  }

  lemma MonthOfDayUnique(d: int, k: int)
    requires FirstOfMonth(k) <= d < FirstOfMonth(k + 1)
    ensures MonthOfDay(d) == k
  {
    var r := MonthOfDay(d);
    if r < k { FirstOfMonthMonotone(r + 1, k); }
    if k < r { FirstOfMonthMonotone(k + 1, r); }
  }

  /** Day number to year, month, date and back. */
  lemma DayRoundTrip(d: int)
    ensures MakeDay(YearFromDay(d), MonthFromDay(d), DateFromDay(d)) == d
  {
    MakeDayIs(YearFromDay(d), MonthFromDay(d), DateFromDay(d));
  }

  /** Year, month, date to day number and back, for every date the calendar has. */
  lemma CivilRoundTrip(y: int, m: int, date: int)
    requires 0 <= m < 12 && 1 <= date <= MonthLength(y, m)
    ensures var d := MakeDay(y, m, date);
            YearFromDay(d) == y && MonthFromDay(d) == m && DateFromDay(d) == date
  {
    var k := 12 * y + m;
    assert k / 12 == y && k % 12 == m;
    MonthStep(k);
    MakeDayIs(y, m, date);
    MonthOfDayUnique(MakeDay(y, m, date), k);
  }

  // ---------------------------------------------------------------- Date setters

  /** `setHours(getHours() + n)` in local time. */
  function AddHours(t: int, tz: int, n: int): int {
    var local := t + tz;
    var hour := local % MS_PER_DAY / MS_PER_HOUR;
    local / MS_PER_DAY * MS_PER_DAY + (hour + n) * MS_PER_HOUR + local % MS_PER_HOUR - tz
  }

  /** `setDate(date)` in local time. */
  function SetDate(t: int, tz: int, date: int): int {
    var local := t + tz;
    var day := local / MS_PER_DAY;
    MakeDay(YearFromDay(day), MonthFromDay(day), date) * MS_PER_DAY + local % MS_PER_DAY - tz
  }

  /** `setMonth(month)` in local time; the date is kept, so it may run past the end of the month. */
  function SetMonth(t: int, tz: int, month: int): int {
    var local := t + tz;
    var day := local / MS_PER_DAY;
    MakeDay(YearFromDay(day), month, DateFromDay(day)) * MS_PER_DAY + local % MS_PER_DAY - tz
  }

  function LocalDay(t: int, tz: int): int { (t + tz) / MS_PER_DAY }

  function LocalMonth(t: int, tz: int): int { MonthOfDay(LocalDay(t, tz)) }

  function LocalDate(t: int, tz: int): int { DateFromDay(LocalDay(t, tz)) }

  function LocalTimeOfDay(t: int, tz: int): int { (t + tz) % MS_PER_DAY }

  lemma SplitDay(local: int)
    ensures local == local / MS_PER_DAY * MS_PER_DAY + local % MS_PER_DAY
    ensures local % MS_PER_DAY == local % MS_PER_DAY / MS_PER_HOUR * MS_PER_HOUR + local % MS_PER_HOUR
  {
    var d, r := local / MS_PER_DAY, local % MS_PER_DAY;
    assert local == (24 * d) * MS_PER_HOUR + r;
    assert local % MS_PER_HOUR == r % MS_PER_HOUR;
  }

  lemma HoursAreExact(t: int, tz: int, n: int)
    ensures AddHours(t, tz, n) == t + n * MS_PER_HOUR
  {
    SplitDay(t + tz);
  }

  lemma DaysAreExact(t: int, tz: int, n: int)
    ensures SetDate(t, tz, LocalDate(t, tz) + n) == t + n * MS_PER_DAY
  {
    var day := LocalDay(t, tz);
    MakeDayIs(YearFromDay(day), MonthFromDay(day), DateFromDay(day) + n);
    SplitDay(t + tz);
  }

  /** Moving by months, forward or back, moves by the distance between the first days of the two months. */
  lemma MonthsMove(t: int, tz: int, n: int)
    ensures SetMonth(t, tz, MonthFromDay(LocalDay(t, tz)) + n)
            == t + (FirstOfMonth(LocalMonth(t, tz) + n) - FirstOfMonth(LocalMonth(t, tz))) * MS_PER_DAY
  {
    MonthShift(LocalDay(t, tz), n);
    SplitDay(t + tz);
  }

  lemma MonthsAreExact(t: int, tz: int, n: nat)
    ensures SetMonth(t, tz, MonthFromDay(LocalDay(t, tz)) + n) == t + SumOfMonths(LocalMonth(t, tz), n) * MS_PER_DAY
  {
    MonthsMove(t, tz, n);
    MonthsAreAdjacent(LocalMonth(t, tz), n);
  }

  lemma MonthShift(day: int, n: int)
    ensures MakeDay(YearFromDay(day), MonthFromDay(day) + n, DateFromDay(day))
            == day + FirstOfMonth(MonthOfDay(day) + n) - FirstOfMonth(MonthOfDay(day))
  {
    var k := MonthOfDay(day);
    assert 12 * YearFromDay(day) + MonthFromDay(day) == k;
    MakeDayIs(YearFromDay(day), MonthFromDay(day) + n, DateFromDay(day));
    assert 12 * YearFromDay(day) + (MonthFromDay(day) + n) == k + n;
  }

  /** A mutable JavaScript date. */
  class JsDate {
    const tz: int
    var time: int

    constructor (time: int, tz: int)
      ensures this.time == time && this.tz == tz
    {
      this.time := time;
      this.tz := tz;
    }

    method AdvanceHours(n: int)
      modifies this
      ensures time == old(time) + n * MS_PER_HOUR
    {
      HoursAreExact(time, tz, n);
      time := AddHours(time, tz, n);
    }

    method AdvanceDate(n: int)
      modifies this
      ensures time == old(time) + n * MS_PER_DAY
    {
      var t := time;
      DaysAreExact(t, tz, n);
      time := SetDate(t, tz, LocalDate(t, tz) + n);
    }

    method AdvanceMonth(n: int)
      modifies this
      ensures var k := LocalMonth(old(time), tz);
              && time == old(time) + (FirstOfMonth(k + n) - FirstOfMonth(k)) * MS_PER_DAY
              && (0 <= n ==> time == old(time) + SumOfMonths(k, n) * MS_PER_DAY)
    {
      var t := time;
      MonthsMove(t, tz, n);
      if 0 <= n {
        MonthsAreAdjacent(LocalMonth(t, tz), n);
      }
      time := SetMonth(t, tz, MonthFromDay(LocalDay(t, tz)) + n);
    }
  }

  /** What `calculateEndDate` returns. */
  function EndOf(start: int, tz: int, period: PeriodType, count: int): int {
    match period
    case HOUR => AddHours(start, tz, count)
    case DAY => SetDate(start, tz, LocalDate(start, tz) + count)
    case WEEK => SetDate(start, tz, LocalDate(start, tz) + count * 7)
    case MONTH => SetMonth(start, tz, MonthFromDay(LocalDay(start, tz)) + count)
  }

  lemma EndByHours(start: int, tz: int, count: int)
    ensures EndOf(start, tz, HOUR, count) == start + count * MS_PER_HOUR
  {
    HoursAreExact(start, tz, count);
  }

  lemma EndByDays(start: int, tz: int, count: int)
    ensures EndOf(start, tz, DAY, count) == start + count * MS_PER_DAY
  {
    DaysAreExact(start, tz, count);
  }

  lemma EndByWeeks(start: int, tz: int, count: int)
    ensures EndOf(start, tz, WEEK, count) == start + count * 7 * MS_PER_DAY
  {
    DaysAreExact(start, tz, count * 7);
  }

  lemma EndByMonths(start: int, tz: int, count: int)
    ensures EndOf(start, tz, MONTH, count)
            == start + (FirstOfMonth(LocalMonth(start, tz) + count) - FirstOfMonth(LocalMonth(start, tz))) * MS_PER_DAY
  {
    MonthsMove(start, tz, count);
  }

  /** Where each tariff moves the start, without reference to dates. */
  function Moved(start: int, tz: int, period: PeriodType, count: int): int {
    match period
    case HOUR => start + count * MS_PER_HOUR
    case DAY => start + count * MS_PER_DAY
    case WEEK => start + count * 7 * MS_PER_DAY
    case MONTH =>
      start + (FirstOfMonth(LocalMonth(start, tz) + count) - FirstOfMonth(LocalMonth(start, tz))) * MS_PER_DAY
  }

  lemma EndIsMoved(start: int, tz: int, period: PeriodType, count: int)
    ensures EndOf(start, tz, period, count) == Moved(start, tz, period, count)
  {
    match period
    case HOUR => EndByHours(start, tz, count);
    case DAY => EndByDays(start, tz, count);
    case WEEK => EndByWeeks(start, tz, count);
    case MONTH => EndByMonths(start, tz, count);
  }

  /** A copy of the start is moved in place. */
  method CalculateEndDate(startDate: JsDate, pricePeriod: PeriodType, periodsCount: int) returns (end: JsDate)
    ensures fresh(end) && end.tz == startDate.tz && startDate.time == old(startDate.time)
    ensures end.time == Moved(startDate.time, startDate.tz, pricePeriod, periodsCount)
  {
    end := new JsDate(startDate.time, startDate.tz);
    match pricePeriod {
      case HOUR => end.AdvanceHours(periodsCount);
      case DAY => end.AdvanceDate(periodsCount);
      case WEEK => end.AdvanceDate(periodsCount * 7);
      case MONTH => end.AdvanceMonth(periodsCount);
    }
  }

  // ---------------------------------------------------------------- what the end date is

  /** The length of a rental in milliseconds, without reference to dates. */
  function Duration(start: int, tz: int, period: PeriodType, count: nat): int {
    match period
    case HOUR => count * MS_PER_HOUR
    case DAY => count * MS_PER_DAY
    case WEEK => 7 * count * MS_PER_DAY
    case MONTH => SumOfMonths(LocalMonth(start, tz), count) * MS_PER_DAY
  }

  /** An hour, day or week tariff adds fixed lengths; `count` months add exactly the lengths of the
      `count` calendar months starting with the month the rental starts in. */
  lemma EndIsStartPlusDuration(start: int, tz: int, period: PeriodType, count: nat)
    ensures EndOf(start, tz, period, count) == start + Duration(start, tz, period, count)
  {
    match period
    case HOUR => HoursAreExact(start, tz, count);
    case DAY => DaysAreExact(start, tz, count);
    case WEEK => DaysAreExact(start, tz, count * 7);
    case MONTH => MonthsAreExact(start, tz, count);
  }

  /** The fixed lengths in milliseconds, for any count. */
  lemma FixedLengths(start: int, tz: int, count: int)
    ensures EndOf(start, tz, HOUR, count) == start + 3600000 * count
    ensures EndOf(start, tz, DAY, count) == start + 86400000 * count
    ensures EndOf(start, tz, WEEK, count) == start + 604800000 * count
  {
    EndByHours(start, tz, count);
    EndByDays(start, tz, count);
    EndByWeeks(start, tz, count);
  }

  /** Whole days keep the time of day. */
  lemma WholeDaysKeepTimeOfDay(t: int, tz: int, days: int)
    ensures LocalTimeOfDay(t + days * MS_PER_DAY, tz) == LocalTimeOfDay(t, tz)
    ensures LocalDay(t + days * MS_PER_DAY, tz) == LocalDay(t, tz) + days
  {
    var local := t + tz;
    SplitDay(local);
    var q := local / MS_PER_DAY + days;
    assert t + days * MS_PER_DAY + tz == q * MS_PER_DAY + local % MS_PER_DAY;
  }

  /** Month arithmetic: between 28 and 31 days a month, and one more month is always at least 28 days
      longer. */
  lemma MonthRental(start: int, tz: int, count: nat)
    ensures 28 * count * MS_PER_DAY <= EndOf(start, tz, MONTH, count) - start <= 31 * count * MS_PER_DAY
    ensures EndOf(start, tz, MONTH, count) + 28 * MS_PER_DAY <= EndOf(start, tz, MONTH, count + 1)
  {
    EndIsStartPlusDuration(start, tz, MONTH, count);
    EndIsStartPlusDuration(start, tz, MONTH, count + 1);
    var k := LocalMonth(start, tz);
    OneMoreMonth(k, count);
    var days, more := SumOfMonths(k, count), SumOfMonths(k, count + 1);
    assert 28 * count * MS_PER_DAY <= days * MS_PER_DAY <= 31 * count * MS_PER_DAY;
    assert days * MS_PER_DAY + 28 * MS_PER_DAY <= more * MS_PER_DAY;
  }

  /** A rental by the day, week or month ends at the time of day it started. */
  lemma TimeOfDayKept(start: int, tz: int, period: PeriodType, count: nat)
    requires period != HOUR
    ensures LocalTimeOfDay(EndOf(start, tz, period, count), tz) == LocalTimeOfDay(start, tz)
  {
    EndIsStartPlusDuration(start, tz, period, count);
    WholeDaysKeepTimeOfDay(start, tz, match period
                                      case DAY => count
                                      case WEEK => 7 * count
                                      case _ => SumOfMonths(LocalMonth(start, tz), count));
  }

  lemma OneMoreMonth(k: int, n: nat)
    ensures 28 * n <= SumOfMonths(k, n) <= 31 * n
    ensures SumOfMonths(k, n) + 28 <= SumOfMonths(k, n + 1)
  {
    MonthsAreAdjacent(k, n);
    MonthsAreAdjacent(k, n + 1);
    MonthStep(k + n);
  }

  lemma DateInMonth(day: int, target: int, date: int)
    requires 1 <= date <= 31 && day == FirstOfMonth(target) + date - 1
    ensures if date <= LengthOfMonth(target)
            then MonthOfDay(day) == target && DateFromDay(day) == date
            else MonthOfDay(day) == target + 1 && DateFromDay(day) == date - LengthOfMonth(target)
  {
    MonthStep(target);
    MonthStep(target + 1);
    MonthOfDayUnique(day, if date <= LengthOfMonth(target) then target else target + 1);
  }

  /** The day of the month survives exactly when the target month is long enough; otherwise the end
      date runs over into the next month by the missing days (31 January plus a month is 3 March). */
  lemma MonthOverflow(start: int, tz: int, count: nat)
    ensures var end := EndOf(start, tz, MONTH, count);
            var target := LocalMonth(start, tz) + count;
            var date := LocalDate(start, tz);
            if date <= LengthOfMonth(target)
            then LocalMonth(end, tz) == target && LocalDate(end, tz) == date
            else LocalMonth(end, tz) == target + 1 && LocalDate(end, tz) == date - LengthOfMonth(target)
  {
    var k := LocalMonth(start, tz);
    MonthsAreExact(start, tz, count);
    MonthsAreAdjacent(k, count);
    WholeDaysKeepTimeOfDay(start, tz, SumOfMonths(k, count));
    DateInMonth(LocalDay(EndOf(start, tz, MONTH, count), tz), k + count, LocalDate(start, tz));
  }

  /** For a count of at least one the end always lies after the start, whatever the tariff. */
  lemma EndAfterStart(start: int, tz: int, period: PeriodType, count: int)
    requires count >= 1
    ensures start < EndOf(start, tz, period, count)
  {
    EndIsStartPlusDuration(start, tz, period, count);
    MonthsAreAdjacent(LocalMonth(start, tz), count);
  }
}
