/** Prices in cents: period discounts, rounding and the monthly charge. */
module Pricing {

  datatype Period = Monthly | Quarterly | Yearly

  function Multiplier(period: Period): int {
    match period
    case Monthly => 1
    case Quarterly => 3
    case Yearly => 12
  }

  function DiscountPercent(period: Period): int {
    match period
    case Monthly => 0
    case Quarterly => 7
    case Yearly => 15
  }

  /** `round(n / 100)` with ties to the even neighbour. */
  function RoundHundredthHalfEven(n: int): int {
    var whole, rest := n / 100, n % 100;
    if rest < 50 || (rest == 50 && whole % 2 == 0) then whole else whole + 1
  }

  function ApplyDiscount(priceCents: int, period: Period): int {
    var discount := DiscountPercent(period);
    if discount <= 0 then priceCents else RoundHundredthHalfEven(priceCents * (100 - discount))
  }

  function MonthlyCharge(priceCents: int, period: Period): int {
    ApplyDiscount(priceCents, period) / 100 * 100
  }

  /** The monthly charge is the one amount of whole forints that is at most half a cent above
      the discounted price and less than a forint below that; quarterly payers pay 93 percent,
      yearly payers 85. */
  lemma MonthlyChargeExactly(priceCents: int, period: Period, charge: int)
    ensures var percent := match period case Monthly => 100 case Quarterly => 93 case Yearly => 85;
      MonthlyCharge(priceCents, period) == charge <==>
        charge % 100 == 0 && priceCents * percent - 9950 < 100 * charge && 100 * charge <= priceCents * percent + 50
  {
    var own := MonthlyCharge(priceCents, period);
    OwnCharge(priceCents, period);
    if charge % 100 == 0 && own <= charge + 99 && charge <= own + 99 {
      SameHundred(own, charge);
    }
  }

  lemma OwnCharge(priceCents: int, period: Period)
    ensures var charge := MonthlyCharge(priceCents, period);
            var percent := match period case Monthly => 100 case Quarterly => 93 case Yearly => 85;
      charge % 100 == 0 && priceCents * percent - 9950 < 100 * charge && 100 * charge <= priceCents * percent + 50
  {
    var percent := match period case Monthly => 100 case Quarterly => 93 case Yearly => 85;
    var discounted := ApplyDiscount(priceCents, period);
    if period != Monthly {
      RoundsNear(priceCents * percent);
    }
    WholeForints(discounted);
  }

  /** Rounding moves by half a cent at most, and by as much only to an even number. */
  lemma RoundsNear(n: int)
    ensures var r := RoundHundredthHalfEven(n);
      n - 50 <= 100 * r <= n + 50 && (r % 2 == 1 ==> n - 50 < 100 * r < n + 50)
  {
  }

  lemma WholeForints(n: int)
    ensures var whole := n / 100 * 100;
      whole % 100 == 0 && n - 99 <= whole <= n && (whole == n - 99 ==> n % 2 == 1)
  {
    var hundreds, rest := n / 100, n % 100;
    assert n == 100 * hundreds + rest;
    NoRemainder(hundreds);
    if rest == 99 {
      Odd(50 * hundreds + 49);
    }
  }

  lemma NoRemainder(q: int)
    ensures q * 100 % 100 == 0
  {
  }

  lemma Odd(half: int)
    ensures (2 * half + 1) % 2 == 1
  {
  }

  lemma SameHundred(a: int, b: int)
    requires a % 100 == 0 && b % 100 == 0 && a <= b + 99 && b <= a + 99
    ensures a == b
  {
    assert a == 100 * (a / 100) && b == 100 * (b / 100);
  }

  lemma MonthlyChargeMonotone(low: int, high: int, period: Period)
    requires low <= high
    ensures MonthlyCharge(low, period) <= MonthlyCharge(high, period)
  {
  }

  lemma MonthlyChargeNonNegative(priceCents: int, period: Period)
    requires 0 <= priceCents
    ensures 0 <= MonthlyCharge(priceCents, period)
  {
  }

  datatype Plan = Plan(priceCents: nat, includedKbs: nat, includedStorageGb: nat)

  /** The catalogue: plans by code.  An unknown code is priced as the free plan. */
  type Catalog = m: map<string, Plan> | "free" in m
    witness map["free" := Plan(0, 0, 0)]

  function PlanOf(catalog: Catalog, code: string): Plan {
    if code in catalog then catalog[code] else catalog["free"]
  }

  predicate IsDowngrade(catalog: Catalog, current: string, next: string) {
    var a, b := PlanOf(catalog, current), PlanOf(catalog, next);
    b.priceCents < a.priceCents || b.includedKbs < a.includedKbs || b.includedStorageGb < a.includedStorageGb
  }

  function PeriodRank(period: Period): int {
    match period
    case Monthly => 1
    case Quarterly => 2
    case Yearly => 3
  }

  predicate IsScheduledChange(catalog: Catalog, currentPlan: string, currentPeriod: Period,
                              nextPlan: string, nextPeriod: Period) {
    || IsDowngrade(catalog, currentPlan, nextPlan)
    || (currentPlan == nextPlan && PeriodRank(nextPeriod) < PeriodRank(currentPeriod))
  }
}
