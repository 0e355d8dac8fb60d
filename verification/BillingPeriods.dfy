/** Usage periods: each runs from one month's fifth-day boundary, moved off a weekend,
    to the next month's. */
module BillingPeriods {
  import opened Calendar

  /** What the boundary means: the first weekday on or after the 5th. */
  ghost predicate IsBoundary(d: Date, year: int, month: int) {
    && d.year == year && d.month == month && 5 <= d.day
    && IsBusinessDay(d)
    && forall k :: 5 <= k < d.day ==> !IsBusinessDay(Date(year, month, k))
  }

  function FifthBusinessDay(year: int, month: int): Date {
    var fifth := Date(year, month, 5);
    if IsBusinessDay(fifth) then fifth
    else if IsBusinessDay(fifth.(day := 6)) then fifth.(day := 6)
    else fifth.(day := 7)
  }

  lemma FifthBusinessDayIsBoundary(year: int, month: int)
    requires 1 <= month <= 12
    ensures var d := FifthBusinessDay(year, month);
      Valid(d) && IsBoundary(d, year, month) && 5 <= d.day <= 7
  {
    WeekdayAdvances(year, month, 5);
    WeekdayAdvances(year, month, 6);
  }

  lemma WeekdayAdvances(year: int, month: int, day: int)
    ensures Weekday(Date(year, month, day + 1)) == (Weekday(Date(year, month, day)) + 1) % 7
  {
    var before := DaysBeforeYear(year) + DaysBeforeMonth(year, month);
    assert DayNumber(Date(year, month, day)) == before + day;
    assert DayNumber(Date(year, month, day + 1)) == before + day + 1;
  }

  /** The search loop; it stops on the boundary, at the 7th at the latest. */
  method FindFifthBusinessDay(year: int, month: int) returns (current: Date)
    requires 1 <= month <= 12
    ensures IsBoundary(current, year, month) && 5 <= current.day <= 7
    ensures current == FifthBusinessDay(year, month)
  {
    current := Date(year, month, 5);
    while !IsBusinessDay(current)
      invariant current.year == year && current.month == month && 5 <= current.day <= 7
      invariant forall k :: 5 <= k < current.day ==> !IsBusinessDay(Date(year, month, k))
      decreases 7 - current.day
    {
      WeekendEnds(current);
      current := NextDay(current);
    }
  }

  lemma WeekendEnds(d: Date)
    requires Valid(d) && 5 <= d.day <= 7
    requires !IsBusinessDay(d)
    requires forall k :: 5 <= k < d.day ==> !IsBusinessDay(Date(d.year, d.month, k))
    ensures d.day < 7
  {
    if d.day == 7 {
      FifthBusinessDayIsBoundary(d.year, d.month);
    }
  }

  function PreviousMonth(year: int, month: int): (int, int) {
    if month == 1 then (year - 1, 12) else (year, month - 1)
  }

  function NextMonth(year: int, month: int): (int, int) {
    if month == 12 then (year + 1, 1) else (year, month + 1)
  }

  /** `key` is the (year, month) the period key spells out. */
  datatype UsagePeriod = UsagePeriod(key: (int, int), start: Date, end: Date, dueThisMonth: Date)

  function CurrentMonthPeriod(today: Date): UsagePeriod {
    var due := FifthBusinessDay(today.year, today.month);
    var key := if !Before(today, due) then (today.year, today.month)
               else PreviousMonth(today.year, today.month);
    var endMonth := NextMonth(key.0, key.1);
    UsagePeriod(key, FifthBusinessDay(key.0, key.1), FifthBusinessDay(endMonth.0, endMonth.1), due)
  }

  function PeriodOf(year: int, month: int): (Date, Date) {
    var next := NextMonth(year, month);
    (FifthBusinessDay(year, month), FifthBusinessDay(next.0, next.1))
  }

  lemma PeriodContainsToday(today: Date)
    requires Valid(today)
    ensures var p := CurrentMonthPeriod(today);
      && 1 <= p.key.1 <= 12
      && (p.start, p.end) == PeriodOf(p.key.0, p.key.1)
      && AtMost(p.start, today) && Before(today, p.end)
      && IsBoundary(p.start, p.key.0, p.key.1) && IsBoundary(p.dueThisMonth, today.year, today.month)
      && Valid(p.end) && 5 <= p.end.day && IsBusinessDay(p.end)
      && MonthIndex(p.end.year, p.end.month) == MonthIndex(p.key.0, p.key.1) + 1
      && forall k :: 5 <= k < p.end.day ==> !IsBusinessDay(Date(p.end.year, p.end.month, k))
  {
    var p := CurrentMonthPeriod(today);
    FifthBusinessDayIsBoundary(today.year, today.month);
    FifthBusinessDayIsBoundary(p.key.0, p.key.1);
    var next := NextMonth(p.key.0, p.key.1);
    FifthBusinessDayIsBoundary(next.0, next.1);
  }

  /** A period's end is the start of the period that follows it. */
  lemma PeriodsAreConsecutive(today: Date)
    requires Valid(today)
    ensures var p := CurrentMonthPeriod(today); var q := CurrentMonthPeriod(p.end);
      Valid(p.end) && q.start == p.end && q.key == NextMonth(p.key.0, p.key.1)
  {
    PeriodContainsToday(today);
    var p := CurrentMonthPeriod(today);
    var next := NextMonth(p.key.0, p.key.1);
    FifthBusinessDayIsBoundary(next.0, next.1);
  }

  /** A day belongs to the period of a month exactly when it lies between its bounds. */
  lemma PeriodMembership(today: Date, year: int, month: int)
    requires Valid(today) && 1 <= month <= 12
    ensures CurrentMonthPeriod(today).key == (year, month) <==>
            AtMost(PeriodOf(year, month).0, today) && Before(today, PeriodOf(year, month).1)
  {
    PeriodContainsToday(today);
    PeriodsDisjoint(CurrentMonthPeriod(today).key, (year, month));
  }

  /** The periods partition the calendar: two days share key and bounds exactly when one
      lies inside the other's period, and otherwise the two periods do not meet. */
  lemma PeriodsPartition(a: Date, b: Date)
    requires Valid(a) && Valid(b)
    ensures var p := CurrentMonthPeriod(a); var q := CurrentMonthPeriod(b);
      && (p.key == q.key <==> AtMost(p.start, b) && Before(b, p.end))
      && (p.key == q.key ==> p.start == q.start && p.end == q.end)
      && (p.key != q.key ==> AtMost(p.end, q.start) || AtMost(q.end, p.start))
  {
    var p := CurrentMonthPeriod(a);
    var q := CurrentMonthPeriod(b);
    PeriodContainsToday(a);
    PeriodContainsToday(b);
    PeriodMembership(b, p.key.0, p.key.1);
    PeriodsDisjoint(p.key, q.key);
  }

  lemma PeriodsDisjoint(k: (int, int), l: (int, int))
    requires 1 <= k.1 <= 12 && 1 <= l.1 <= 12
    ensures k != l ==> AtMost(PeriodOf(k.0, k.1).1, PeriodOf(l.0, l.1).0) || AtMost(PeriodOf(l.0, l.1).1, PeriodOf(k.0, k.1).0)
  {
    if MonthIndex(k.0, k.1) < MonthIndex(l.0, l.1) {
      EarlierPeriodEndsFirst(k, l);
    } else if k != l {
      EarlierPeriodEndsFirst(l, k);
    }
  }

  lemma EarlierPeriodEndsFirst(k: (int, int), l: (int, int))
    requires 1 <= k.1 <= 12 && 1 <= l.1 <= 12 && MonthIndex(k.0, k.1) < MonthIndex(l.0, l.1)
    ensures AtMost(PeriodOf(k.0, k.1).1, PeriodOf(l.0, l.1).0)
  {
    var next := NextMonth(k.0, k.1);
    FifthBusinessDayIsBoundary(next.0, next.1);
    FifthBusinessDayIsBoundary(l.0, l.1);
  }
}
