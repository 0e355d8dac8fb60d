/** Runs of one tenant that show where the code does not do what its operations promise. */
module LedgerExamples {
  import opened Options
  import opened Calendar
  import opened Instants
  import opened Pricing
  import opened Ledger
  import opened LedgerInvariant
  import opened LedgerRuns
  import opened LedgerRows
  import opened LedgerBilling
  import opened LedgerRetry
  import opened LedgerRebilled

  /** The nightly job, as it concerns one tenant. */
  function NightlyJob(env: Env, success: bool): seq<Step> {
    [Lifecycle(env.now, []), Cycle(env), Retry(env, success)]
  }

  /** One more step, from a state already worked out. */
  lemma AfterStep(start: Ledger, steps: seq<Step>, before: Ledger, s: Step)
    requires After(start, steps) == before
    ensures After(start, steps + [s]) == Apply(before, s).l
  {
    StepByStep(start, steps, s);
  }

  /** The nightly job of a tenant without cancellations, from a state already worked out. */
  lemma AfterNight(start: Ledger, steps: seq<Step>, before: Ledger, env: Env, success: bool)
    requires After(start, steps) == before && before.present && before.cancellations == []
    ensures After(start, steps + NightlyJob(env, success)) == DailyRetry(DueCycle(before, env).l, env, success).l
  {
    var a, b, c := Lifecycle(env.now, []), Cycle(env), Retry(env, success);
    AfterStep(start, steps, before, a);
    NothingToProcess(before, env.now);
    AfterStep(start, steps + [a], before, b);
    CycleEvolves(before, env);
    AfterStep(start, steps + [a] + [b], DueCycle(before, env).l, c);
    assert steps + [a] + [b] + [c] == steps + NightlyJob(env, success);
  }

  lemma NothingToProcess(l: Ledger, now: Instant)
    requires l.cancellations == []
    ensures Apply(l, Lifecycle(now, [])).l == l
  {
  }

  // ----- the tenant

  const EXAMPLE_CATALOG: Catalog :=
    map["free" := Plan(0, 1, 1), "pro" := Plan(1_000_000, 10, 10), "basic" := Plan(500_000, 5, 5)]

  /** An active tenant on yearly billing without add-ons, paid until the first of June 2026. */
  ghost predicate Example(l: Ledger) {
    && SignedUp(l) && l.active && l.sub.plan == "pro" && l.sub.period == Yearly && l.sub.status == Active
    && l.sub.extraKbs == 0 && l.sub.trialEndsAt == Midnight(Date(2026, 6, 1)) && Before(l.sub.updatedAt.date, Date(2026, 5, 1))
  }

  function ExampleEnv(day: Date): Env {
    Env(EXAMPLE_CATALOG, Instant(day, 1), Instant(day, 2), Instant(day, 3), 0, 0)
  }

  lemma ExamplePlans()
    ensures "pro" != "free" && "basic" != "free" && "pro" in EXAMPLE_CATALOG && "basic" in EXAMPLE_CATALOG
    ensures PlanOf(EXAMPLE_CATALOG, "pro") == Plan(1_000_000, 10, 10) && PlanOf(EXAMPLE_CATALOG, "basic") == Plan(500_000, 5, 5)
    ensures MonthlyCharge(1_000_000, Yearly) == 850_000 && MonthlyCharge(1_000_000, Monthly) == 1_000_000
    ensures MonthlyCharge(500_000, Monthly) == 500_000
  {
    assert |"pro"| == 3 && |"free"| == 4 && |"basic"| == 5;
  }

  /** The owner schedules monthly billing. */
  lemma ExampleSchedules(l: Ledger, env: Env)
    requires l.present && l.sub.plan == "pro" && l.sub.period == Yearly && env.catalog == EXAMPLE_CATALOG
    ensures Apply(l, Choose(env, "pro", Monthly)).l ==
            l.(sub := l.sub.(scheduled := Some(Schedule("pro", Monthly, PaidUntil(l.sub))), updatedAt := env.firstStamp))
  {
    ExamplePlans();
  }

  // ----- paying in advance

  /** In May the owner schedules a change to monthly billing and pays at once: one month is
      charged, twelve are granted. */
  lemma ChargedOneGrantedTwelve(start: Ledger)
    requires Example(start)
    ensures var may := ExampleEnv(Date(2026, 5, 1));
            var l := After(start, [Choose(may, "pro", Monthly), Settle(may, true)]);
      && |l.invoices| == 1 && l.invoices[0].totalCents == 1_000_000
      && l.coverage == [Moved(Date(2026, 6, 1)), Billed(DueDate(Date(2026, 6, 1)), 12)]
  {
    var may := ExampleEnv(Date(2026, 5, 1));
    var choose, settle := Choose(may, "pro", Monthly), Settle(may, true);
    StepByStep(start, [], choose);
    StepByStep(start, [choose], settle);
    assert [] + [choose] == [choose] && [choose] + [settle] == [choose, settle];
    ExampleSchedules(start, may);
    ExamplePlans();
    SignedUpSound(start);
    var scheduled := Apply(start, choose).l;
    ChargedVersusGranted(scheduled, may);
    SettleCoverage(scheduled, may, true);
  }

  /** In May the owner schedules the basic plan; in June, using eight gigabytes, he pays before
      the nightly job: he is asked for 5 000 and the invoice says 5 015. */
  lemma AskedLessThanInvoiced(start: Ledger, may: Env, june: Env)
    requires Example(start) && may == ExampleEnv(Date(2026, 5, 1)) && june == ExampleEnv(Date(2026, 6, 1)).(usedGb := 8, askedGb := 8)
    ensures var l := After(start, [Choose(may, "basic", Monthly)]); var r := Apply(l, Settle(june, true)).l;
      AmountAsked(l, june) == 500_000 && |r.invoices| == 1 && r.invoices[0].totalCents == 501_500
  {
    AfterStep(start, [], start, Choose(may, "basic", Monthly));
    assert [] + [Choose(may, "basic", Monthly)] == [Choose(may, "basic", Monthly)];
    ExampleStepsDown(start, may);
    SignedUpSound(start);
    var l := Apply(start, Choose(may, "basic", Monthly)).l;
    SubChangeSound(start, l.sub);
    ExampleStorage(l, june);
  }

  lemma ExampleStepsDown(l: Ledger, may: Env)
    requires l.present && l.sub.plan == "pro" && may.catalog == EXAMPLE_CATALOG
    ensures Apply(l, Choose(may, "basic", Monthly)).l ==
            l.(sub := l.sub.(scheduled := Some(Schedule("basic", Monthly, PaidUntil(l.sub))), updatedAt := may.firstStamp))
  {
    ExamplePlans();
  }

  lemma ExampleStorage(l: Ledger, june: Env)
    requires Sound(l) && l.present && l.invoices == []
    requires l.sub.plan == "pro" && l.sub.extraKbs == 0 && PaidUntil(l.sub) == Date(2026, 6, 1)
    requires l.sub.scheduled == Some(Schedule("basic", Monthly, Date(2026, 6, 1)))
    requires june == ExampleEnv(Date(2026, 6, 1)).(usedGb := 8, askedGb := 8)
    ensures var r := SettleSubscription(l, june, true).l;
      AmountAsked(l, june) == 500_000 && |r.invoices| == 1 && r.invoices[0].totalCents == 501_500
  {
    ExamplePlans();
    ChargedVersusGranted(l, june);
  }

  // ----- the first of June: a request that is not paid

  /** Without cancellations and overdue payments an active paid subscription stays as it is. */
  lemma QuietSync(l: Ledger, now: Instant, stamp: Instant)
    requires l.cancellations == [] && l.sub.plan != "free" && l.sub.status == Active && !Overdue(l, now)
    ensures SyncStatus(l, now, stamp) == l
  {
  }

  lemma OneFailure(l: Ledger, i: Invoice, now: Instant)
    requires l.invoices == [i] && i.kind == MonthlySubscriptionFailed && i.status == PaymentFailed
    ensures Overdue(l, now) <==> Before(i.dueAt.date, now.date) && !Earlier(i.issuedAt, l.sub.updatedAt)
    ensures LatestUnpaidDebt(l.invoices) == Some(0)
  {
    LatestSelects(l.invoices, OfKind(MonthlySubscriptionFailed));
    LatestSelects(l.invoices, OfKind(MonthlySubscription));
    LatestSelects(l.invoices, OpenRequests);
    LatestSelects(l.invoices, FailedDebts);
    assert Selects(OfKind(MonthlySubscriptionFailed), l.invoices[0]) && Selects(FailedDebts, l.invoices[0]);
  }

  lemma OneRequest(invoices: seq<Invoice>, i: Invoice)
    requires invoices == [i] && i.kind == MonthlySubscription && i.status == Issued
    ensures LatestUnpaidDebt(invoices) == Some(0)
  {
    LatestSelects(invoices, OpenRequests);
    LatestSelects(invoices, FailedDebts);
    assert Selects(OpenRequests, invoices[0]);
  }

  function ExampleRequest(june: Env): Invoice {
    Invoice(MonthlySubscription, DueDate(Date(2026, 6, 1)), Issued, 10_200_000, june.now, june.now,
            Line("pro", Yearly, 12, 850_000, Some(Date(2027, 6, 1)), true, None))
  }

  /** The request after a refused charge on `day`. */
  function ExampleFailed(june: Env, day: Date): Invoice {
    var i := ExampleRequest(june);
    i.(kind := MonthlySubscriptionFailed, status := PaymentFailed, line := i.line.(retryDate := Some(day)))
  }

  lemma ExampleEstimate(sub: Subscription)
    requires sub.plan == "pro" && sub.period == Yearly && sub.scheduled == None && sub.extraKbs == 0
    ensures EstimateNext(EXAMPLE_CATALOG, sub, 0).totalCents == 10_200_000
    ensures InvoiceLine(EXAMPLE_CATALOG, sub, Some(Date(2027, 6, 1)), true) == ExampleRequest(ExampleEnv(Date(2026, 6, 1))).line
  {
    ExamplePlans();
    EstimateWithoutSchedule(EXAMPLE_CATALOG, sub, 0);
    assert AddonsMonthly(EXAMPLE_CATALOG, sub, 0) == 0;
  }

  lemma ExampleIssues(l: Ledger, june: Env)
    requires Example(l) && june == ExampleEnv(Date(2026, 6, 1))
    ensures DueCycle(l, june).l == l.(invoices := [ExampleRequest(june)])
  {
    ExampleEstimate(l.sub);
    assert "pro" != "free" by {
      ExamplePlans();
    }
    NothingOverdue(l, june.now);
    QuietSync(l, june.now, june.secondStamp);
    assert NextBillingDate(l.sub) == Date(2027, 6, 1);
    assert ApplyDueChange(l, june.now, june.firstStamp) == l;
    assert IssueRequest(l, june).l.invoices == [ExampleRequest(june)];
  }

  /** The charge on the day of issue is refused; the debt is not overdue on that day. */
  lemma ExampleRefused(l: Ledger, june: Env)
    requires l.present && l.active && l.cancellations == [] && l.sub.plan == "pro" && l.sub.status == Active
    requires june == ExampleEnv(Date(2026, 6, 1)) && l.invoices == [ExampleRequest(june)]
    ensures DailyRetry(l, june, false).l ==
            l.(invoices := [ExampleFailed(june, Date(2026, 6, 1))], charges := l.charges + [Charge(0, Date(2026, 6, 1))])
  {
    ExamplePlans();
    OneRequest(l.invoices, ExampleRequest(june));
    assert RetryApplies(l, june.now.date);
    var charged := l.(charges := l.charges + [Charge(0, june.now.date)]);
    var i := ExampleRequest(june);
    var row := i.(kind := MonthlySubscriptionFailed, status := PaymentFailed);
    var failed := UpdateInvoice(charged, 0, PaymentFailed, Some(MonthlySubscriptionFailed), None).l;
    assert failed == charged.(invoices := [row]);
    OneFailure(failed, row, june.now);
    QuietSync(failed, june.now, june.firstStamp);
    assert UpdateInvoice(failed, 0, PaymentFailed, None, Some(june.now.date)).l.invoices == [ExampleFailed(june, Date(2026, 6, 1))];
  }

  /** The tenant after the nightly job of the first of June. */
  ghost predicate Refused(start: Ledger, l: Ledger, june: Env) {
    l == start.(invoices := [ExampleFailed(june, Date(2026, 6, 1))], charges := [Charge(0, Date(2026, 6, 1))])
  }

  lemma FirstNight(start: Ledger, june: Env)
    requires Example(start) && june == ExampleEnv(Date(2026, 6, 1))
    ensures Refused(start, After(start, NightlyJob(june, false)), june)
  {
    AfterNight(start, [], start, june, false);
    assert [] + NightlyJob(june, false) == NightlyJob(june, false);
    ExampleIssues(start, june);
    ExampleRefused(start.(invoices := [ExampleRequest(june)]), june);
  }

  // ----- a restriction for debt does not last

  /** Still unpaid on the second, the tenant is restricted that night and retried without
      success; any later synchronisation lifts the restriction, with the debt still there. */
  lemma RestrictionFadesInARun(start: Ledger, june: Env, next: Env, third: Instant, stamp: Instant)
    requires Example(start) && june == ExampleEnv(Date(2026, 6, 1)) && next == ExampleEnv(Date(2026, 6, 2))
    ensures var nights := NightlyJob(june, false) + NightlyJob(next, false);
            var l, r := After(start, nights), After(start, nights + [Sync(third, stamp)]);
      && l.sub.status == Restricted && r.sub.status == Active
      && LatestUnpaidDebt(r.invoices) == Some(0) && r.invoices == l.invoices && r.invoices[0].status == PaymentFailed
  {
    var first := After(start, NightlyJob(june, false));
    FirstNight(start, june);
    AfterNight(start, NightlyJob(june, false), first, next, false);
    SecondNight(start, first, june, next);
    var l := DailyRetry(DueCycle(first, next).l, next, false).l;
    AfterStep(start, NightlyJob(june, false) + NightlyJob(next, false), l, Sync(third, stamp));
    Lifted(l, june, next, third, stamp);
  }

  lemma SecondNight(start: Ledger, l: Ledger, june: Env, next: Env)
    requires Example(start) && Refused(start, l, june)
    requires june == ExampleEnv(Date(2026, 6, 1)) && next == ExampleEnv(Date(2026, 6, 2))
    ensures DailyRetry(DueCycle(l, next).l, next, false).l ==
            l.(invoices := [ExampleFailed(june, Date(2026, 6, 2))], charges := l.charges + [Charge(0, Date(2026, 6, 2))],
               sub := l.sub.(status := Restricted, updatedAt := next.secondStamp))
  {
    ExampleRestricts(start, l, june, next);
    ExampleRefusedAgain(DueCycle(l, next).l, june, next);
  }

  lemma ExampleRestricts(start: Ledger, l: Ledger, june: Env, next: Env)
    requires Example(start) && Refused(start, l, june)
    requires june == ExampleEnv(Date(2026, 6, 1)) && next == ExampleEnv(Date(2026, 6, 2))
    ensures DueCycle(l, next).l == l.(sub := l.sub.(status := Restricted, updatedAt := next.secondStamp))
  {
    OneFailure(l, ExampleFailed(june, Date(2026, 6, 1)), next.now);
    assert DaysBetween(Date(2026, 6, 1), Date(2026, 6, 2)) == 1;
    assert Overdue(l, next.now);
    assert SyncStatus(l, next.now, next.secondStamp) == l.(sub := l.sub.(status := Restricted, updatedAt := next.secondStamp));
  }

  lemma ExampleRefusedAgain(l: Ledger, june: Env, next: Env)
    requires l.present && l.active && l.invoices == [ExampleFailed(june, Date(2026, 6, 1))]
    requires june == ExampleEnv(Date(2026, 6, 1)) && next == ExampleEnv(Date(2026, 6, 2))
    ensures DailyRetry(l, next, false).l ==
            l.(invoices := [ExampleFailed(june, Date(2026, 6, 2))], charges := l.charges + [Charge(0, Date(2026, 6, 2))])
  {
    OneFailure(l, ExampleFailed(june, Date(2026, 6, 1)), next.now);
    assert DaysBetween(Date(2026, 6, 1), Date(2026, 6, 2)) == 1;
    assert RetryApplies(l, next.now.date);
    var charged := l.(charges := l.charges + [Charge(0, next.now.date)]);
    assert UpdateInvoice(charged, 0, PaymentFailed, None, Some(next.now.date)).l.invoices == [ExampleFailed(june, Date(2026, 6, 2))];
  }

  lemma Lifted(l: Ledger, june: Env, next: Env, third: Instant, stamp: Instant)
    requires l.present && l.cancellations == [] && l.sub.plan == "pro" && l.sub.status == Restricted
    requires june == ExampleEnv(Date(2026, 6, 1)) && next == ExampleEnv(Date(2026, 6, 2))
    requires l.invoices == [ExampleFailed(june, Date(2026, 6, 2))] && l.sub.updatedAt == next.secondStamp
    ensures var r := Apply(l, Sync(third, stamp)).l;
      r.sub.status == Active && r.invoices == l.invoices && LatestUnpaidDebt(r.invoices) == Some(0)
  {
    ExamplePlans();
    OneFailure(l, ExampleFailed(june, Date(2026, 6, 2)), third);
  }

  // ----- a change scheduled after the request was issued

  /** The tenant after that night with monthly billing scheduled. */
  ghost predicate Outdated(start: Ledger, l: Ledger, june: Env) {
    exists first: Ledger :: Refused(start, first, june)
      && l == first.(sub := first.sub.(scheduled := Some(Schedule("pro", Monthly, Date(2026, 6, 1))),
                                       updatedAt := june.firstStamp))
  }

  lemma RequestOutdated(start: Ledger, june: Env)
    requires Example(start) && june == ExampleEnv(Date(2026, 6, 1))
    ensures var l := After(start, NightlyJob(june, false) + [Choose(june, "pro", Monthly)]);
      Outdated(start, l, june) && Sound(l)
  {
    var first := After(start, NightlyJob(june, false));
    FirstNight(start, june);
    AfterStep(start, NightlyJob(june, false), first, Choose(june, "pro", Monthly));
    ExampleSchedules(first, june);
    RefusedSound(start, first, june);
    SubChangeSound(first, Apply(first, Choose(june, "pro", Monthly)).l.sub);
  }

  lemma OutdatedCollected(start: Ledger, l: Ledger, june: Env, next: Env)
    requires Example(start) && Outdated(start, l, june) && Sound(l)
    requires june == ExampleEnv(Date(2026, 6, 1)) && next == ExampleEnv(Date(2026, 6, 2))
    ensures var r := DailyRetry(DueCycle(l, next).l, next, true).l;
      && |r.invoices| == 1 && r.invoices[0].status == Paid && r.invoices[0].totalCents == 10_200_000
      && r.coverage == [Moved(Date(2026, 6, 1)), Billed(DueDate(Date(2026, 6, 1)), 1)]
  {
    ExampleTakesOver(l, june, next);
    DueCycleSound(l, next);
    ExampleCollects(DueCycle(l, next).l, june, next);
  }

  /** A request for the year is issued and refused on the first; the owner then schedules
      monthly billing.  The next night takes the change over at once and collects the year's
      price: twelve months are charged, one is granted. */
  lemma ChargedTwelveGrantedOne(start: Ledger, june: Env, next: Env)
    requires Example(start) && june == ExampleEnv(Date(2026, 6, 1)) && next == ExampleEnv(Date(2026, 6, 2))
    ensures var l := After(start, NightlyJob(june, false) + [Choose(june, "pro", Monthly)] + NightlyJob(next, true));
      && |l.invoices| == 1 && l.invoices[0].status == Paid && l.invoices[0].totalCents == 10_200_000
      && l.coverage == [Moved(Date(2026, 6, 1)), Billed(DueDate(Date(2026, 6, 1)), 1)]
  {
    var before := NightlyJob(june, false) + [Choose(june, "pro", Monthly)];
    RequestOutdated(start, june);
    AfterNight(start, before, After(start, before), next, true);
    OutdatedCollected(start, After(start, before), june, next);
  }

  lemma RefusedSound(start: Ledger, l: Ledger, june: Env)
    requires Example(start) && Refused(start, l, june) && june == ExampleEnv(Date(2026, 6, 1))
    ensures Sound(l)
  {
    SignedUpSound(start);
    DueCycleSound(start, june);
    ExampleIssues(start, june);
    DailyRetrySound(DueCycle(start, june).l, june, false);
    ExampleRefused(DueCycle(start, june).l, june);
  }

  /** The change scheduled after the request was issued is taken over by the next cycle. */
  lemma ExampleTakesOver(l: Ledger, june: Env, next: Env)
    requires l.present && l.active && l.cancellations == [] && l.invoices == [ExampleFailed(june, Date(2026, 6, 1))]
    requires l.sub.plan == "pro" && l.sub.status == Active && PaidUntil(l.sub) == Date(2026, 6, 1)
    requires l.sub.scheduled == Some(Schedule("pro", Monthly, Date(2026, 6, 1)))
    requires june == ExampleEnv(Date(2026, 6, 1)) && next == ExampleEnv(Date(2026, 6, 2))
    ensures DueCycle(l, next).l == l.(sub := l.sub.(period := Monthly, scheduled := None, updatedAt := next.firstStamp))
  {
    ExamplePlans();
    var due := ApplyDueChange(l, next.now, next.firstStamp);
    OneFailure(due, ExampleFailed(june, Date(2026, 6, 1)), next.now);
    QuietSync(due, next.now, next.secondStamp);
    assert HasInvoice(due.invoices, MonthlySubscriptionFailed, DueDate(PaidUntil(due.sub))) by {
      assert due.invoices[0].key == DueDate(PaidUntil(due.sub));
    }
  }

  lemma ExampleCollects(l: Ledger, june: Env, next: Env)
    requires Sound(l) && l.present && l.active && l.sub.period == Monthly
    requires june == ExampleEnv(Date(2026, 6, 1)) && next == ExampleEnv(Date(2026, 6, 2))
    requires l.invoices == [ExampleFailed(june, Date(2026, 6, 1))] && PaidUntil(l.sub) == Date(2026, 6, 1)
    ensures var r := DailyRetry(l, next, true).l;
      && |r.invoices| == 1 && r.invoices[0].status == Paid && r.invoices[0].totalCents == 10_200_000
      && r.coverage == l.coverage + [Billed(DueDate(Date(2026, 6, 1)), 1)]
  {
    OneFailure(l, ExampleFailed(june, Date(2026, 6, 1)), next.now);
    assert DaysBetween(Date(2026, 6, 1), Date(2026, 6, 2)) == 1;
    assert RetryApplies(l, next.now.date);
    var charged := l.(charges := l.charges + [Charge(0, next.now.date)]);
    ChargeSound(l, Charge(0, next.now.date));
    SettleDebtExtends(charged, 0, next);
    SettleDebtEvolves(charged, 0, next);
    SettleDebtSound(charged, 0, next);
    UpdateNeverConflicts(charged, 0, Paid, Some(MonthlySubscription), None);
  }

  // ----- a plan change over an unpaid request

  /** Changing the plan while the request is unpaid leaves it behind: its key is no longer the
      paid-until date, and paying it would bill a period that coverage has passed. */
  lemma ChangeOverOpenRequest(start: Ledger, june: Env)
    requires Example(start) && june == ExampleEnv(Date(2026, 6, 1))
    ensures var l := After(start, NightlyJob(june, false) + [UpgradeTo(june, "pro", Quarterly)]);
      && LatestUnpaidDebt(l.invoices) == Some(0) && l.invoices[0].key == DueDate(Date(2026, 6, 1))
      && PaidUntil(l.sub) == Date(2026, 9, 1) && !Sound(l)
  {
    var first := After(start, NightlyJob(june, false));
    FirstNight(start, june);
    AfterStep(start, NightlyJob(june, false), first, UpgradeTo(june, "pro", Quarterly));
    OneFailure(first, ExampleFailed(june, Date(2026, 6, 1)), june.now);
    ExampleUpgrades(first, june);
  }

  lemma ExampleUpgrades(l: Ledger, june: Env)
    requires june == ExampleEnv(Date(2026, 6, 1)) && l.present && l.sub.plan == "pro" && l.sub.period == Yearly
    requires l.invoices == [ExampleFailed(june, Date(2026, 6, 1))]
    ensures var r := Apply(l, UpgradeTo(june, "pro", Quarterly)).l;
      r.invoices == l.invoices && PaidUntil(r.sub) == Date(2026, 9, 1) && !Sound(r)
  {
    ExamplePlans();
    var r := Apply(l, UpgradeTo(june, "pro", Quarterly)).l;
    assert r.invoices == l.invoices && PaidUntil(r.sub) == Date(2026, 9, 1);
    assert !Placed(r.invoices[0], PaidUntil(r.sub));
  }

  // ----- a plan change back to a date already billed

  /** An active tenant on the basic plan, monthly, paid until the first of June 2026. */
  ghost predicate BasicExample(l: Ledger) {
    && SignedUp(l) && l.active && l.sub.plan == "basic" && l.sub.period == Monthly
    && l.sub.extraKbs == 0 && l.sub.trialEndsAt == Midnight(Date(2026, 6, 1))
  }

  /** On the first of May the owner pays June in advance and then upgrades, which moves the
      paid-until date from the first of July back to the first of June. */
  function PaidThenUpgraded(may: Env): seq<Step> {
    [Settle(may, true), UpgradeTo(may, "pro", Monthly)]
  }

  lemma BasicPaid(l: Ledger, may: Env)
    requires BasicExample(l) && may == ExampleEnv(Date(2026, 5, 1))
    ensures var r := SettleSubscription(l, may, true).l;
      && r.present && r.active && r.sub.plan == "basic" && r.sub.period == Monthly && r.charges == []
      && |r.invoices| == 1 && r.invoices[0].kind == MonthlySubscription && r.invoices[0].status == Paid
      && r.invoices[0].key == DueDate(Date(2026, 6, 1)) && r.invoices[0].totalCents == 500_000
  {
    ExamplePlans();
    assert Latest(l.invoices, OpenRequests) == None && UnansweredFailure(l.invoices) == None;
    assert EstimateNext(EXAMPLE_CATALOG, l.sub, 0).totalCents == 500_000;
  }

  lemma BasicUpgraded(l: Ledger, may: Env)
    requires l.present && l.sub.plan == "basic" && may == ExampleEnv(Date(2026, 5, 1))
    requires |l.invoices| == 1 && l.invoices[0].kind == MonthlySubscription && l.invoices[0].status == Paid
    requires l.invoices[0].key == DueDate(Date(2026, 6, 1))
    ensures var r := Apply(l, UpgradeTo(may, "pro", Monthly)).l;
      && Rebilled(r) && PaidUntil(r.sub) == Date(2026, 6, 1) && r.sub.plan == "pro"
      && r.active == l.active && r.invoices == l.invoices && r.charges == l.charges
  {
    ExamplePlans();
    var r := Apply(l, UpgradeTo(may, "pro", Monthly)).l;
    assert PaidUntil(r.sub) == Date(2026, 6, 1);
    LatestSelects(r.invoices, OpenRequests);
    LatestSelects(r.invoices, FailedDebts);
    assert r.invoices[0].key == DueDate(PaidUntil(r.sub));
  }

  lemma UpgradedBack(start: Ledger, may: Env)
    requires BasicExample(start) && may == ExampleEnv(Date(2026, 5, 1))
    ensures var l := After(start, PaidThenUpgraded(may));
      && Rebilled(l) && PaidUntil(l.sub) == Date(2026, 6, 1) && l.sub.plan == "pro" && l.active && l.charges == []
      && |l.invoices| == 1 && l.invoices[0].kind == MonthlySubscription && l.invoices[0].totalCents == 500_000
  {
    AfterStep(start, [], start, Settle(may, true));
    assert [] + [Settle(may, true)] == [Settle(may, true)];
    var paid := SettleSubscription(start, may, true).l;
    AfterStep(start, [Settle(may, true)], paid, UpgradeTo(may, "pro", Monthly));
    assert [Settle(may, true)] + [UpgradeTo(may, "pro", Monthly)] == PaidThenUpgraded(may);
    BasicPaid(start, may);
    BasicUpgraded(paid, may);
  }

  /** From then on the tenant keeps the better plan and its one invoice, for the basic one, is
      the last, however long the jobs run. */
  lemma UpgradedForNothing(start: Ledger, may: Env, more: seq<Step>)
    requires BasicExample(start) && may == ExampleEnv(Date(2026, 5, 1))
    requires forall i :: 0 <= i < |more| ==> Passive(more[i])
    ensures var l := After(start, PaidThenUpgraded(may) + more);
      l.sub.plan == "pro" && |l.invoices| == 1 && l.invoices[0].totalCents == 500_000 && l.charges == []
  {
    UpgradedBack(start, may);
    NeverBilledAgain(After(start, PaidThenUpgraded(may)), more);
    AfterBoth(start, PaidThenUpgraded(may), more);
  }

  /** Or the owner tries to pay in advance once more and is refused: on the first of June every
      retry the gateway accepts charges him again. */
  lemma ChargedEachTime(start: Ledger, may: Env, june: Env, n: nat, more: seq<Step>)
    requires BasicExample(start) && may == ExampleEnv(Date(2026, 5, 1)) && june == ExampleEnv(Date(2026, 6, 1))
    requires more == [Settle(may, false)] + Repeat(n, Retry(june, true))
    ensures After(start, PaidThenUpgraded(may) + more).charges == Repeat(n, Charge(1, Date(2026, 6, 1)))
  {
    UpgradedBack(start, may);
    ChargedFrom(After(start, PaidThenUpgraded(may)), may, june, n);
    AfterBoth(start, PaidThenUpgraded(may), more);
  }

  lemma ChargedFrom(l: Ledger, may: Env, june: Env, n: nat)
    requires Rebilled(l) && PaidUntil(l.sub) == Date(2026, 6, 1) && l.active && l.charges == []
    requires |l.invoices| == 1 && l.invoices[0].kind == MonthlySubscription && june.now.date == Date(2026, 6, 1)
    ensures After(l, [Settle(may, false)] + Repeat(n, Retry(june, true))).charges == Repeat(n, Charge(1, Date(2026, 6, 1)))
  {
    ChargedWithoutBound(l, may, june, n);
    assert [] + Repeat(n, Charge(1, Date(2026, 6, 1))) == Repeat(n, Charge(1, Date(2026, 6, 1)));
  }
}
