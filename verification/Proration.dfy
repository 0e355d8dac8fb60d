/** Upgrade credit: how many prepaid months have not started yet, and what they are worth. */
module Proration {
  import opened Options
  import opened Calendar
  import opened Pricing
  import Periods = BillingPeriods

  // ----- counting the units that have not started

  /** The plain count: of units `from .. total`, those that start after today. */
  function UnitsNotStarted(start: Date, from: nat, total: nat, today: Date): nat
    decreases total - from
  {
    if from >= total then 0
    else (if Before(today, AddMonthsToDate(start, from)) then 1 else 0)
         + UnitsNotStarted(start, from + 1, total, today)
  }

  function RemainingPrepaidMonths(today: Date, start: Date, end: Date, prepaid: int): int {
    if prepaid <= 0 || Before(end, today) then 0
    else UnitsNotStarted(start, 0, prepaid, today)
  }

  /** The counting loop stops at the first unit that has not started; since unit starts
      increase, what it leaves uncounted is exactly the units still to come. */
  method CountRemainingPrepaidMonths(today: Date, start: Date, end: Date, prepaid: int) returns (remaining: int)
    requires Valid(start)
    ensures remaining == RemainingPrepaidMonths(today, start, end, prepaid)
    ensures 0 <= remaining && (prepaid >= 0 ==> remaining <= prepaid)
  {
    var total := if prepaid > 0 then prepaid else 0;
    if total <= 0 || Before(end, today) {
      return 0;
    }
    UnitsNotStartedBounds(start, 0, total, today);
    var started := 0;
    for index := 0 to total
      invariant started == index
      invariant UnitsNotStarted(start, index, total, today) == UnitsNotStarted(start, 0, total, today)
    {
      if !Before(today, AddMonthsToDate(start, index)) {
        started := started + 1;
      } else {
        LaterUnitsNotStarted(start, index, total, today);
        break;
      }
    }
    remaining := if total - started > 0 then total - started else 0;
  }

  lemma {:induction false} UnitsNotStartedBounds(start: Date, from: nat, total: nat, today: Date)
    requires from <= total
    ensures UnitsNotStarted(start, from, total, today) <= total - from
    decreases total - from
  {
    if from < total {
      UnitsNotStartedBounds(start, from + 1, total, today);
    }
  }

  lemma {:induction false} LaterUnitsNotStarted(start: Date, from: nat, total: nat, today: Date)
    requires Valid(start) && from <= total
    requires from < total ==> Before(today, AddMonthsToDate(start, from))
    ensures UnitsNotStarted(start, from, total, today) == total - from
    decreases total - from
  {
    if from < total {
      if from + 1 < total {
        AddMonthsStrictInCount(start, from, from + 1);
      }
      LaterUnitsNotStarted(start, from + 1, total, today);
    }
  }

  /** Counted from the other side: if unit `k` has started and unit `k + 1` has not. */
  lemma {:induction false} UnitsNotStartedAt(start: Date, from: nat, total: nat, today: Date, k: nat)
    requires Valid(start) && from <= k <= total
    requires k > from ==> AtMost(AddMonthsToDate(start, k - 1), today)
    requires k < total ==> Before(today, AddMonthsToDate(start, k))
    ensures UnitsNotStarted(start, from, total, today) == total - k
    decreases total - from
  {
    if from == k {
      LaterUnitsNotStarted(start, from, total, today);
    } else {
      if from < k - 1 {
        AddMonthsStrictInCount(start, from, k - 1);
      }
      UnitsNotStartedAt(start, from + 1, total, today, k);
    }
  }

  /** As today advances the remaining months never rise. */
  lemma RemainingNeverRises(today: Date, later: Date, start: Date, end: Date, prepaid: int)
    requires AtMost(today, later)
    ensures RemainingPrepaidMonths(later, start, end, prepaid) <= RemainingPrepaidMonths(today, start, end, prepaid)
  {
    if 0 < prepaid {
      UnitsNotStartedNeverRises(start, 0, prepaid, today, later);
    }
  }

  lemma {:induction false} UnitsNotStartedNeverRises(start: Date, from: nat, total: nat, today: Date, later: Date)
    requires AtMost(today, later)
    ensures UnitsNotStarted(start, from, total, later) <= UnitsNotStarted(start, from, total, today)
    decreases total - from
  {
    if from < total {
      UnitsNotStartedNeverRises(start, from + 1, total, today, later);
    }
  }

  /** The remaining months drop by one at each unit start and nowhere else. */
  lemma RemainingDropsAtUnitStart(today: Date, start: Date, end: Date, prepaid: int, k: nat)
    requires Valid(start) && k < prepaid && !Before(end, today)
    requires AtMost(AddMonthsToDate(start, k), today)
    requires k + 1 < prepaid ==> Before(today, AddMonthsToDate(start, k + 1))
    ensures RemainingPrepaidMonths(today, start, end, prepaid) == prepaid - k - 1
  {
    UnitsNotStartedAt(start, 0, prepaid, today, k + 1);
  }

  /** Once coverage has ended every unit has started, so the early exit changes nothing. */
  lemma CoverageEndExitIsRedundant(today: Date, end: Date, prepaid: int)
    requires Valid(end) && 0 < prepaid && Before(end, today)
    ensures UnitsNotStarted(AddMonthsToDate(end, -prepaid), 0, prepaid, today) == 0
  {
    var start := AddMonthsToDate(end, -prepaid);
    AddMonthsLands(end, -prepaid);
    AddThenSubtract(end, -prepaid);
    AddMonthsStrictInCount(start, prepaid - 1, prepaid);
    assert AtMost(AddMonthsToDate(start, prepaid), end);
    assert AtMost(AddMonthsToDate(start, prepaid - 1), today);
    UnitsNotStartedAt(start, 0, prepaid, today, prepaid);
  }

  // ----- the upgrade offer

  datatype Offer = Offer(
    remainingMonths: int, oldMonthlyCents: int, newMonthlyCents: int,
    creditCents: int, nextPeriodChargeCents: int, totalChargeCents: int, paidUntil: Date)

  function CoverageEnd(trialEnds: Option<Date>, fallback: Date): Date {
    if trialEnds.Some? && Before(fallback, trialEnds.value) then trialEnds.value else fallback
  }

  function PaidUntilAfterUpgrade(today: Date, period: Period): Date {
    AddMonthsToDate(today, Multiplier(period))
  }

  function UpgradeOffer(catalog: Catalog, plan: string, period: Period, trialEnds: Option<Date>,
                        nextPlan: string, nextPeriod: Period, periodEnd: Date, today: Date): Option<Offer> {
    if nextPlan !in catalog then None
    else if IsDowngrade(catalog, plan, nextPlan) then None
    else if plan == nextPlan && period == nextPeriod then None
    else
      var oldMonthly := MonthlyCharge(PlanOf(catalog, plan).priceCents, period);
      var newMonthly := MonthlyCharge(catalog[nextPlan].priceCents, nextPeriod);
      var prepaid := Multiplier(period);
      var end := CoverageEnd(trialEnds, periodEnd);
      var start := AddMonthsToDate(end, -prepaid);
      var remaining := RemainingPrepaidMonths(today, start, end, prepaid);
      var credit := NonNegative(oldMonthly * remaining);
      var nextCharge := newMonthly * Multiplier(nextPeriod);
      Some(Offer(remaining, oldMonthly, newMonthly, credit, nextCharge,
                 NonNegative(nextCharge - credit), PaidUntilAfterUpgrade(today, nextPeriod)))
  }

  function NonNegative(n: int): int {
    if n < 0 then 0 else n
  }

  lemma {:induction false} UnitsCounted(start: Date, from: nat, total: nat, today: Date)
    requires from <= total
    ensures UnitsNotStarted(start, from, total, today) == |set i | from <= i < total && Before(today, AddMonthsToDate(start, i))|
    decreases total - from
  {
    var units := set i | from <= i < total && Before(today, AddMonthsToDate(start, i));
    if from < total {
      var later := set i | from + 1 <= i < total && Before(today, AddMonthsToDate(start, i));
      UnitsCounted(start, from + 1, total, today);
      if Before(today, AddMonthsToDate(start, from)) {
        assert units == later + {from};
      } else {
        assert units == later;
      }
    } else {
      assert units == {};
    }
  }

  /** No offer is made for an unknown plan, for one that costs or includes less than the current
      one, or for the plan and period there are already. */
  lemma OfferMadeExactly(catalog: Catalog, plan: string, period: Period, trialEnds: Option<Date>,
                         nextPlan: string, nextPeriod: Period, periodEnd: Date, today: Date)
    ensures UpgradeOffer(catalog, plan, period, trialEnds, nextPlan, nextPeriod, periodEnd, today).Some? <==>
              && nextPlan in catalog
              && PlanOf(catalog, plan).priceCents <= catalog[nextPlan].priceCents
              && PlanOf(catalog, plan).includedKbs <= catalog[nextPlan].includedKbs
              && PlanOf(catalog, plan).includedStorageGb <= catalog[nextPlan].includedStorageGb
              && !(nextPlan == plan && nextPeriod == period)
  {
  }

  /** Every amount and date of an offer.  Coverage ends at the later of the two dates and began
      the prepaid months before; the months of it that begin after today are credited, none once
      it has ended, and the credit is taken off the price of the new period, down to zero. */
  lemma OfferExactly(catalog: Catalog, plan: string, period: Period, trialEnds: Option<Date>,
                     nextPlan: string, nextPeriod: Period, periodEnd: Date, today: Date)
    requires UpgradeOffer(catalog, plan, period, trialEnds, nextPlan, nextPeriod, periodEnd, today).Some?
    ensures var offer := UpgradeOffer(catalog, plan, period, trialEnds, nextPlan, nextPeriod, periodEnd, today).value;
            var end := if trialEnds.Some? && Before(periodEnd, trialEnds.value) then trialEnds.value else periodEnd;
            var prepaid := match period case Monthly => 1 case Quarterly => 3 case Yearly => 12;
            var months := match nextPeriod case Monthly => 1 case Quarterly => 3 case Yearly => 12;
            var start := AddMonthsToDate(end, -prepaid);
      && offer.oldMonthlyCents == MonthlyCharge(PlanOf(catalog, plan).priceCents, period)
      && offer.newMonthlyCents == MonthlyCharge(PlanOf(catalog, nextPlan).priceCents, nextPeriod)
      && offer.remainingMonths ==
           (if Before(end, today) then 0 else |set i | 0 <= i < prepaid && Before(today, AddMonthsToDate(start, i))|)
      && offer.creditCents == offer.oldMonthlyCents * offer.remainingMonths
      && offer.nextPeriodChargeCents == offer.newMonthlyCents * months
      && (if offer.creditCents <= offer.nextPeriodChargeCents
          then offer.totalChargeCents + offer.creditCents == offer.nextPeriodChargeCents else offer.totalChargeCents == 0)
      && offer.paidUntil == AddMonthsToDate(today, months)
  {
    var end := CoverageEnd(trialEnds, periodEnd);
    var start := AddMonthsToDate(end, -Multiplier(period));
    UnitsCounted(start, 0, Multiplier(period), today);
    UnitsNotStartedBounds(start, 0, Multiplier(period), today);
    MonthlyChargeNonNegative(PlanOf(catalog, plan).priceCents, period);
    var offer := UpgradeOffer(catalog, plan, period, trialEnds, nextPlan, nextPeriod, periodEnd, today).value;
    ProductBounds(offer.oldMonthlyCents, offer.remainingMonths, Multiplier(period));
  }

  /** The credit is whole old months, never more than was prepaid, and taken off the new charge
      without a refund beyond it. */
  lemma CreditNeverExceedsPrepaid(catalog: Catalog, plan: string, period: Period, trialEnds: Option<Date>,
                                  nextPlan: string, nextPeriod: Period, periodEnd: Date, today: Date)
    requires Valid(periodEnd) && (trialEnds.Some? ==> Valid(trialEnds.value))
    ensures var offer := UpgradeOffer(catalog, plan, period, trialEnds, nextPlan, nextPeriod, periodEnd, today);
      offer.Some? ==>
        && 0 <= offer.value.creditCents <= offer.value.oldMonthlyCents * Multiplier(period)
        && 0 <= offer.value.remainingMonths <= Multiplier(period)
        && offer.value.creditCents == offer.value.oldMonthlyCents * offer.value.remainingMonths
        && offer.value.totalChargeCents == (if offer.value.nextPeriodChargeCents <= offer.value.creditCents then 0
                                            else offer.value.nextPeriodChargeCents - offer.value.creditCents)
        && (Before(CoverageEnd(trialEnds, periodEnd), today) ==> offer.value.creditCents == 0)
  {
    var offer := UpgradeOffer(catalog, plan, period, trialEnds, nextPlan, nextPeriod, periodEnd, today);
    if offer.Some? {
      var end := CoverageEnd(trialEnds, periodEnd);
      var start := AddMonthsToDate(end, -Multiplier(period));
      UnitsNotStartedBounds(start, 0, Multiplier(period), today);
      MonthlyChargeNonNegative(PlanOf(catalog, plan).priceCents, period);
      ProductBounds(offer.value.oldMonthlyCents, offer.value.remainingMonths, Multiplier(period));
    }
  }

  lemma ProductBounds(a: int, k: int, n: int)
    requires 0 <= a && 0 <= k <= n
    ensures 0 <= a * k <= a * n
  {
  }

  // ----- upgrading on the day of purchase

  function RemainingOnPurchaseDay(bought: Date, period: Period): int {
    var n := Multiplier(period);
    var end := CoverageEnd(Some(PaidUntilAfterUpgrade(bought, period)), Periods.CurrentMonthPeriod(bought).end);
    RemainingPrepaidMonths(bought, AddMonthsToDate(end, -n), end, n)
  }

  /** The purchase-day credit is all months but the running one exactly when the paid-until
      date is not earlier than the end of the current usage period. */
  lemma PurchaseDayCredit(bought: Date, period: Period)
    requires Valid(bought)
    ensures RemainingOnPurchaseDay(bought, period) == Multiplier(period) - 1
       <==> !Before(PaidUntilAfterUpgrade(bought, period), Periods.CurrentMonthPeriod(bought).end)
  {
    if Before(PaidUntilAfterUpgrade(bought, period), Periods.CurrentMonthPeriod(bought).end) {
      LatePeriodEnd(bought, period);
    } else {
      TimelyPeriodEnd(bought, period);
    }
  }

  lemma TimelyPeriodEnd(bought: Date, period: Period)
    requires Valid(bought)
    requires !Before(PaidUntilAfterUpgrade(bought, period), Periods.CurrentMonthPeriod(bought).end)
    ensures RemainingOnPurchaseDay(bought, period) == Multiplier(period) - 1
  {
    var n := Multiplier(period);
    var paidUntil := PaidUntilAfterUpgrade(bought, period);
    var fallback := Periods.CurrentMonthPeriod(bought).end;
    Periods.PeriodContainsToday(bought);
    AddMonthsLands(bought, n);
    EqualUnlessBefore(paidUntil, fallback);
    assert CoverageEnd(Some(paidUntil), fallback) == paidUntil;
    StartRecovered(bought, n);
    RemainingDropsAtUnitStart(bought, AddMonthsToDate(paidUntil, -n), paidUntil, n, 0);
  }

  lemma EqualUnlessBefore(a: Date, b: Date)
    ensures Before(a, b) || Before(b, a) || a == b
  {
  }

  /** Subtracting the clamped months finds a start in the purchase month, not after the
      purchase day; the second unit starts only next month. */
  lemma StartRecovered(bought: Date, n: int)
    requires Valid(bought) && 0 < n
    ensures var start := AddMonthsToDate(AddMonthsToDate(bought, n), -n);
      && Valid(start) && AtMost(AddMonthsToDate(start, 0), bought)
      && Before(bought, AddMonthsToDate(start, 1))
      && !Before(AddMonthsToDate(bought, n), bought)
  {
    var there := AddMonthsToDate(bought, n);
    AddMonthsLands(bought, n);
    AddMonthsLands(there, -n);
    AddThenSubtract(bought, n);
    var start := AddMonthsToDate(there, -n);
    AddMonthsLands(start, 1);
    AddMonthsZero(start);
    AddMonthsZero(bought);
    AddMonthsStrictInCount(bought, 0, n);
    MonthIndexOrders(bought, AddMonthsToDate(start, 1));
    MonthIndexOrders(there, bought);
  }

  /** Where the usage period of a day ends: on the 5th to 7th of that month or the next. */
  lemma PeriodEndNear(today: Date)
    requires Valid(today)
    ensures var end := Periods.CurrentMonthPeriod(today).end;
      && Valid(end) && 5 <= end.day <= 7 && !Before(end, today)
      && MonthIndex(today.year, today.month) <= MonthIndex(end.year, end.month) <= MonthIndex(today.year, today.month) + 1
      && (MonthIndex(end.year, end.month) == MonthIndex(today.year, today.month) ==> today.day < end.day)
  {
    Periods.PeriodContainsToday(today);
    var p := Periods.CurrentMonthPeriod(today);
    var next := Periods.NextMonth(p.key.0, p.key.1);
    Periods.FifthBusinessDayIsBoundary(p.key.0, p.key.1);
    Periods.FifthBusinessDayIsBoundary(next.0, next.1);
  }

  /** A paid period that the usage period outlasts is a single month, from a day of the month
      before the one the usage period ends in. */
  lemma OutlastedIsMonthly(bought: Date, period: Period, end: Date)
    requires Valid(bought) && Valid(end) && 5 <= end.day <= 7
    requires MonthIndex(end.year, end.month) <= MonthIndex(bought.year, bought.month) + 1
    requires Before(PaidUntilAfterUpgrade(bought, period), end)
    ensures period == Monthly && MonthIndex(end.year, end.month) == MonthIndex(bought.year, bought.month) + 1
    ensures bought.day < end.day
  {
    AddMonthsLands(bought, Multiplier(period));
    MonthIndexOrders(end, PaidUntilAfterUpgrade(bought, period));
    MonthIndexOrders(PaidUntilAfterUpgrade(bought, period), end);
  }

  /** When the usage period outlasts the paid one, a month too many is credited. */
  lemma LatePeriodEnd(bought: Date, period: Period)
    requires Valid(bought)
    requires Before(PaidUntilAfterUpgrade(bought, period), Periods.CurrentMonthPeriod(bought).end)
    ensures period == Monthly && RemainingOnPurchaseDay(bought, period) == 1
  {
    var end := Periods.CurrentMonthPeriod(bought).end;
    PeriodEndNear(bought);
    OutlastedIsMonthly(bought, period, end);
    NothingStarted(bought, end);
  }

  lemma NothingStarted(bought: Date, end: Date)
    requires Valid(bought) && Valid(end) && 5 <= end.day <= 7 && bought.day < end.day && !Before(end, bought)
    requires MonthIndex(end.year, end.month) == MonthIndex(bought.year, bought.month) + 1
    ensures RemainingPrepaidMonths(bought, AddMonthsToDate(end, -1), end, 1) == 1
  {
    AddMonthsLands(end, -1);
    var start := AddMonthsToDate(end, -1);
    MonthIndexOrders(start, bought);
    AddMonthsZero(start);
    UnitsNotStartedAt(start, 0, 1, bought, 0);
  }

  /** The offer made on the purchase day. */
  function PurchaseDayOffer(catalog: Catalog, plan: string, period: Period, nextPlan: string, nextPeriod: Period,
                            bought: Date): Option<Offer> {
    UpgradeOffer(catalog, plan, period, Some(PaidUntilAfterUpgrade(bought, period)), nextPlan, nextPeriod,
                 Periods.CurrentMonthPeriod(bought).end, bought)
  }

  lemma OfferCredits(catalog: Catalog, plan: string, period: Period, nextPlan: string, nextPeriod: Period, bought: Date)
    requires Valid(bought)
    ensures var offer := PurchaseDayOffer(catalog, plan, period, nextPlan, nextPeriod, bought);
      offer.Some? ==>
        && 0 <= offer.value.oldMonthlyCents
        && offer.value.remainingMonths == RemainingOnPurchaseDay(bought, period)
        && offer.value.creditCents == offer.value.oldMonthlyCents * offer.value.remainingMonths
  {
    PeriodEndNear(bought);
    AddMonthsLands(bought, Multiplier(period));
    MonthlyChargeNonNegative(PlanOf(catalog, plan).priceCents, period);
    CreditNeverExceedsPrepaid(catalog, plan, period, Some(PaidUntilAfterUpgrade(bought, period)), nextPlan, nextPeriod,
                              Periods.CurrentMonthPeriod(bought).end, bought);
  }

  /** In cents: the offer credits all monthly charges but the running one exactly when the
      usage period does not outlast the paid one, or the old plan costs nothing. */
  lemma PurchaseDayOfferCredit(catalog: Catalog, plan: string, period: Period, nextPlan: string, nextPeriod: Period, bought: Date)
    requires Valid(bought)
    ensures var offer := PurchaseDayOffer(catalog, plan, period, nextPlan, nextPeriod, bought);
      offer.Some? ==>
        (offer.value.creditCents == offer.value.oldMonthlyCents * (Multiplier(period) - 1) <==>
          || !Before(PaidUntilAfterUpgrade(bought, period), Periods.CurrentMonthPeriod(bought).end)
          || offer.value.oldMonthlyCents == 0)
  {
    var offer := PurchaseDayOffer(catalog, plan, period, nextPlan, nextPeriod, bought);
    OfferCredits(catalog, plan, period, nextPlan, nextPeriod, bought);
    PurchaseDayCredit(bought, period);
    if offer.Some? {
      SameProduct(offer.value.oldMonthlyCents, offer.value.remainingMonths, Multiplier(period) - 1);
    }
  }

  lemma SameProduct(a: int, m: int, n: int)
    ensures a * m == a * n <==> m == n || a == 0
  {
    assert a * m - a * n == a * (m - n);
  }

  /** Quarterly and yearly purchases always get the n - 1 charges back, on every calendar day. */
  lemma LongPurchaseDayCredit(catalog: Catalog, plan: string, period: Period, nextPlan: string, nextPeriod: Period, bought: Date)
    requires Valid(bought) && period != Monthly
    ensures RemainingOnPurchaseDay(bought, period) == Multiplier(period) - 1
    ensures var offer := PurchaseDayOffer(catalog, plan, period, nextPlan, nextPeriod, bought);
      offer.Some? ==> offer.value.creditCents == offer.value.oldMonthlyCents * (Multiplier(period) - 1)
  {
    PurchaseDayCredit(bought, period);
    if Before(PaidUntilAfterUpgrade(bought, period), Periods.CurrentMonthPeriod(bought).end) {
      LatePeriodEnd(bought, period);
    }
    OfferCredits(catalog, plan, period, nextPlan, nextPeriod, bought);
  }

  /** A monthly plan bought on Thursday 5 March 2026 is paid until 5 April, but the usage
      period ends on Monday 6 April, so an upgrade that day credits the running month. */
  lemma MonthlyPurchaseDayCounterexample()
    ensures RemainingOnPurchaseDay(Date(2026, 3, 5), Monthly) == 1
  {
    var bought := Date(2026, 3, 5);
    SpringBoundaries();
    assert AddMonthsToDate(bought, 1) == Date(2026, 4, 5);
    LatePeriodEnd(bought, Monthly);
  }

  lemma SpringBoundaries()
    ensures Periods.FifthBusinessDay(2026, 3) == Date(2026, 3, 5) && Periods.FifthBusinessDay(2026, 4) == Date(2026, 4, 6)
  {
  }
}
