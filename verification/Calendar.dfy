/** The Gregorian calendar as Python's `date` type counts it: month arithmetic with
    end-of-month clamping, day ordinals and weekdays.  Years range over all integers. */
module Calendar {

  datatype Date = Date(year: int, month: int, day: int)

  predicate Leap(year: int) {
    year % 4 == 0 && (year % 100 != 0 || year % 400 == 0)
  }

  function DaysInMonth(year: int, month: int): int {
    if month == 2 then (if Leap(year) then 29 else 28)
    else if month == 4 || month == 6 || month == 9 || month == 11 then 30
    else 31
  }

  predicate Valid(d: Date) {
    1 <= d.month <= 12 && 1 <= d.day <= DaysInMonth(d.year, d.month)
  }

  /** A date that exists. */
  type Day = d: Date | Valid(d) witness Date(1, 1, 1)

  /** Chronological order, field by field as Python compares dates. */
  predicate Before(a: Date, b: Date) {
    a.year < b.year ||
    (a.year == b.year && (a.month < b.month || (a.month == b.month && a.day < b.day)))
  }

  predicate AtMost(a: Date, b: Date) {
    a == b || Before(a, b)
  }

  /** Months since month 1 of year 0. */
  function MonthIndex(year: int, month: int): int {
    12 * year + (month - 1)
  }

  function Min(a: int, b: int): int {
    if a <= b then a else b
  }

  // ----- month addition, in both of the program's versions

  function AddMonths(year: int, month: int, count: int): (int, int) {
    var index := (year * 12 + (month - 1)) + count;
    (index / 12, index % 12 + 1)
  }

  function AddMonthsToDate(value: Date, count: int): Date {
    var (year, month) := AddMonths(value.year, value.month, count);
    Date(year, month, Min(value.day, DaysInMonth(year, month)))
  }

  /** The platform-admin statistics carry the year and month separately. */
  function AdminAddMonths(value: Date, months: int): Date {
    var shifted := value.month - 1 + months;
    var year := value.year + shifted / 12;
    var month := shifted % 12 + 1;
    var lengths := [31, if year % 4 == 0 && (year % 100 != 0 || year % 400 == 0) then 29 else 28,
                    31, 30, 31, 30, 31, 31, 30, 31, 30, 31];
    Date(year, month, Min(value.day, lengths[month - 1]))
  }

  lemma AddMonthsAgree(value: Date, count: int)
    requires Valid(value)
    ensures AdminAddMonths(value, count) == AddMonthsToDate(value, count)
  {
    var shifted := value.month - 1 + count;
    assert (value.year * 12 + shifted) / 12 == value.year + shifted / 12;
  }

  /** Where month addition lands: exactly `count` months on, the day kept or clamped. */
  lemma AddMonthsLands(value: Date, count: int)
    requires Valid(value)
    ensures var r := AddMonthsToDate(value, count);
      && Valid(r)
      && MonthIndex(r.year, r.month) == MonthIndex(value.year, value.month) + count
      && r.day == Min(value.day, DaysInMonth(r.year, r.month))
  {
  }

  /** Different months order by their index alone. */
  lemma MonthIndexOrders(a: Date, b: Date)
    requires Valid(a) && Valid(b)
    ensures MonthIndex(a.year, a.month) < MonthIndex(b.year, b.month) ==> Before(a, b)
    ensures MonthIndex(a.year, a.month) == MonthIndex(b.year, b.month) ==>
              a.year == b.year && a.month == b.month
  {
  }

  lemma AddMonthsStrictInCount(value: Date, m: int, n: int)
    requires Valid(value) && m < n
    ensures Before(AddMonthsToDate(value, m), AddMonthsToDate(value, n))
  {
    AddMonthsLands(value, m);
    AddMonthsLands(value, n);
    MonthIndexOrders(AddMonthsToDate(value, m), AddMonthsToDate(value, n));
  }

  lemma AddMonthsZero(value: Date)
    requires Valid(value)
    ensures AddMonthsToDate(value, 0) == value
  {
    AddMonthsLands(value, 0);
    MonthIndexOrders(value, AddMonthsToDate(value, 0));
  }

  lemma AddMonthsMonotone(a: Date, b: Date, count: int)
    requires Valid(a) && Valid(b) && AtMost(a, b)
    ensures AtMost(AddMonthsToDate(a, count), AddMonthsToDate(b, count))
  {
    AddMonthsLands(a, count);
    AddMonthsLands(b, count);
    MonthIndexOrders(a, b);
    MonthIndexOrders(AddMonthsToDate(a, count), AddMonthsToDate(b, count));
  }

  /** Going `count` months away and back stays in the month, is never later, and loses
      days exactly when the month visited is shorter than the day. */
  lemma AddThenSubtract(value: Date, count: int)
    requires Valid(value)
    ensures var there := AddMonthsToDate(value, count);
            var back := AddMonthsToDate(there, -count);
      && back.year == value.year && back.month == value.month
      && AtMost(back, value)
      && (back == value <==> value.day <= DaysInMonth(there.year, there.month))
      && (value.day <= 28 ==> back == value)
  {
    var there := AddMonthsToDate(value, count);
    AddMonthsLands(value, count);
    AddMonthsLands(there, -count);
    MonthIndexOrders(value, AddMonthsToDate(there, -count));
  }

  // ----- day ordinals

  function DaysBeforeYear(year: int): int {
    var y := year - 1;
    365 * y + y / 4 - y / 100 + y / 400
  }

  function DaysBeforeMonth(year: int, month: int): int {
    (if month <= 1 then 0 else if month == 2 then 31 else if month == 3 then 59
     else if month == 4 then 90 else if month == 5 then 120 else if month == 6 then 151
     else if month == 7 then 181 else if month == 8 then 212 else if month == 9 then 243
     else if month == 10 then 273 else if month == 11 then 304 else 334)
    + (if month > 2 && Leap(year) then 1 else 0)
  }

  /** Python's `toordinal`: day 1 is 1 January of year 1. */
  function DayNumber(d: Date): int {
    DaysBeforeYear(d.year) + DaysBeforeMonth(d.year, d.month) + d.day
  }

  lemma YearLength(year: int)
    ensures DaysBeforeYear(year + 1) == DaysBeforeYear(year) + (if Leap(year) then 366 else 365)
  {
    var y := year - 1;
    assert (y + 1) / 4 == y / 4 + (if (y + 1) % 4 == 0 then 1 else 0);
    assert (y + 1) / 100 == y / 100 + (if (y + 1) % 100 == 0 then 1 else 0);
    assert (y + 1) / 400 == y / 400 + (if (y + 1) % 400 == 0 then 1 else 0);
  }

  lemma {:induction false} YearsGrow(a: int, b: int)
    requires a <= b
    ensures DaysBeforeYear(b) >= DaysBeforeYear(a) + 365 * (b - a)
    decreases b - a
  {
    if a < b {
      YearLength(b - 1);
      YearsGrow(a, b - 1);
    }
  }

  /** Consecutive months tile the year. */
  lemma MonthLength(year: int, month: int)
    requires 1 <= month < 12
    ensures DaysBeforeMonth(year, month + 1) == DaysBeforeMonth(year, month) + DaysInMonth(year, month)
  {
  }

  lemma {:induction false} MonthsGrow(year: int, a: int, b: int)
    requires 1 <= a < b <= 12
    ensures DaysBeforeMonth(year, b) >= DaysBeforeMonth(year, a) + DaysInMonth(year, a)
    decreases b - a
  {
    MonthLength(year, b - 1);
    if a < b - 1 {
      MonthsGrow(year, a, b - 1);
    }
  }

  lemma DayNumberWithinYear(d: Date)
    requires Valid(d)
    ensures DaysBeforeYear(d.year) < DayNumber(d) <= DaysBeforeYear(d.year + 1)
  {
    YearLength(d.year);
  }

  /** The ordinal is an order isomorphism: comparing dates is comparing day numbers. */
  lemma DayNumberOrders(a: Date, b: Date)
    requires Valid(a) && Valid(b)
    ensures Before(a, b) <==> DayNumber(a) < DayNumber(b)
    ensures a == b <==> DayNumber(a) == DayNumber(b)
  {
    if Before(a, b) {
      DayNumberStrict(a, b);
    } else if Before(b, a) {
      DayNumberStrict(b, a);
    }
  }

  lemma DayNumberStrict(a: Date, b: Date)
    requires Valid(a) && Valid(b) && Before(a, b)
    ensures DayNumber(a) < DayNumber(b)
  {
    if a.year < b.year {
      DayNumberWithinYear(a);
      DayNumberWithinYear(b);
      YearsGrow(a.year + 1, b.year);
    } else if a.month < b.month {
      MonthsGrow(a.year, a.month, b.month);
    }
  }

  // ----- weekdays: 0 is Monday

  function Weekday(d: Date): int {
    (DayNumber(d) + 6) % 7
  }

  predicate IsBusinessDay(d: Date) {
    Weekday(d) < 5
  }

  function NextDay(d: Date): Date {
    if d.day < DaysInMonth(d.year, d.month) then d.(day := d.day + 1)
    else if d.month < 12 then Date(d.year, d.month + 1, 1)
    else Date(d.year + 1, 1, 1)
  }

  /** No date is skipped: the next day's ordinal is the successor. */
  lemma NextDayNumber(d: Date)
    requires Valid(d)
    ensures Valid(NextDay(d)) && DayNumber(NextDay(d)) == DayNumber(d) + 1
  {
    YearLength(d.year);
    if d.month < 12 {
      MonthLength(d.year, d.month);
    }
  }
}
