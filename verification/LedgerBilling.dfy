/** What each payment charges and what coverage it grants. */
module LedgerBilling {
  import opened Options
  import opened Calendar
  import opened Instants
  import opened Pricing
  import opened Ledger
  import opened LedgerInvariant
  import opened Cancellations
  import opened LedgerRuns
  import opened LedgerRows

  // ----- when coverage is extended, and by how much

  /** The step is a payment that goes through. */
  predicate Pays(l: Ledger, s: Step) {
    && l.present
    && ((s.Settle? && s.accepted)
        || (s.Simulate? && s.success && LatestUnpaidDebt(l.invoices).Some?)
        || (s.Retry? && s.success && RetryApplies(l, s.env.now.date)))
  }

  predicate ScheduleDue(l: Ledger, now: Instant) {
    l.sub.scheduled.Some? && !Before(now.date, PaidUntil(l.sub))
  }

  /** The period a payment is settled with: the one in force, or the scheduled one where the
      change is due and taken over first. */
  function PeriodSettled(l: Ledger, now: Instant): Period {
    if LatestUnpaidDebt(l.invoices) == None && ScheduleDue(l, now) then l.sub.scheduled.value.period else l.sub.period
  }

  ghost predicate Extends(l: Ledger, r: Ledger, period: Period) {
    && r.coverage == l.coverage + [Billed(DueDate(PaidUntil(l.sub)), Multiplier(period))]
    && r.sub.trialEndsAt == Midnight(AddMonthsToDate(PaidUntil(l.sub), Multiplier(period)))
    && r.sub.scheduled == None
  }

  ghost predicate KeepsCoverage(l: Ledger, r: Ledger) {
    r.coverage == l.coverage && r.sub.trialEndsAt == l.sub.trialEndsAt
  }

  lemma SyncKeepsCoverage(l: Ledger, now: Instant, stamp: Instant)
    ensures var r := SyncStatus(l, now, stamp); KeepsCoverage(l, r) && r.sub.scheduled == l.sub.scheduled
  {
  }

  lemma SettleDebtExtends(l: Ledger, id: nat, env: Env)
    requires Sound(l) && id < |l.invoices| && Unpaid(l.invoices[id])
    ensures Extends(l, SettleDebt(l, id, env).l, l.sub.period)
  {
    assert Placed(l.invoices[id], PaidUntil(l.sub));
    UpdateNeverConflicts(l, id, Paid, Some(MonthlySubscription), None);
    var paid := UpdateInvoice(l, id, Paid, Some(MonthlySubscription), None).l;
    var storage := EstimateNext(env.catalog, l.sub, env.usedGb).extraStorageGb;
    SyncKeepsCoverage(Extend(paid, l.invoices[id].key, storage, env.firstStamp), env.now, env.secondStamp);
  }

  lemma RetryKeeps(l: Ledger, env: Env)
    requires Sound(l) && LatestUnpaidDebt(l.invoices).Some?
    ensures KeepsCoverage(l, RetryFailed(l, env).l)
  {
    var id := LatestUnpaidDebt(l.invoices).value;
    var failed := UpdateInvoice(l, id, PaymentFailed, Some(MonthlySubscriptionFailed), None).l;
    SyncKeepsCoverage(failed, env.now, env.firstStamp);
  }

  lemma SimulateFailedKeeps(l: Ledger, id: nat, env: Env)
    requires id < |l.invoices|
    ensures KeepsCoverage(l, SimulateFailed(l, id, env).l)
  {
    var i := l.invoices[id];
    var kind := if i.kind == MonthlySubscription && !HasInvoice(l.invoices, MonthlySubscriptionFailed, i.key)
                then Some(MonthlySubscriptionFailed) else None;
    var failed := UpdateInvoice(l, id, PaymentFailed, kind, None).l;
    SyncKeepsCoverage(UpdateInvoice(failed, id, PaymentFailed, None, Some(env.now.date)).l, env.now, env.firstStamp);
  }

  lemma SettleFailedKeeps(l: Ledger, id: nat, env: Env)
    requires id < |l.invoices|
    ensures KeepsCoverage(l, SettleFailed(l, id, env).l)
  {
    var kind := if HasInvoice(l.invoices, MonthlySubscriptionFailed, l.invoices[id].key)
                then None else Some(MonthlySubscriptionFailed);
    SyncKeepsCoverage(UpdateInvoice(l, id, PaymentFailed, kind, None).l, env.now, env.firstStamp);
  }

  lemma CycleKeeps(l: Ledger, env: Env)
    ensures KeepsCoverage(l, DueCycle(l, env).l)
  {
    var changed := ApplyDueChange(l, env.now, env.firstStamp);
    SyncKeepsCoverage(changed, env.now, env.secondStamp);
    var synced := SyncStatus(changed, env.now, env.secondStamp);
    IssueEvolves(synced, env);
  }

  lemma SettleCoverage(l: Ledger, env: Env, accepted: bool)
    requires Sound(l) && l.present
    ensures var r := SettleSubscription(l, env, accepted).l;
      if accepted then Extends(l, r, PeriodSettled(l, env.now)) else KeepsCoverage(l, r)
  {
    var debt := LatestUnpaidDebt(l.invoices);
    if debt.Some? && accepted {
      SettleDebtExtends(l, debt.value, env);
    } else if debt.Some? {
      SettleFailedKeeps(l, debt.value, env);
    } else {
      ApplyDueChangeSound(l, env.now, env.firstStamp);
      AdvanceCoverage(ApplyDueChange(l, env.now, env.firstStamp), env, accepted);
    }
  }

  lemma AdvanceCoverage(l: Ledger, env: Env, accepted: bool)
    requires Sound(l) && LatestUnpaidDebt(l.invoices) == None
    ensures if accepted then Extends(l, BillPaid(l, env).l, l.sub.period) else KeepsCoverage(l, BillFailed(l, env).l)
  {
    NoDebtNoInvoice(l);
    NothingOpen(l);
  }

  /** Of all steps but plan changes exactly the payments extend coverage: by one period, the
      one the payment is settled with, from where it ended. */
  lemma OnlyPaymentsExtend(l: Ledger, s: Step)
    requires Sound(l) && !s.Choose? && !s.UpgradeTo?
    ensures var r := Apply(l, s).l;
      if Pays(l, s) then Extends(l, r, PeriodSettled(l, NowOf(s))) else KeepsCoverage(l, r)
  {
    var debt := LatestUnpaidDebt(l.invoices);
    if l.present && TenantStep(s) {
      TenantStepKeeps(l, s);
    } else if l.present && s.Sync? {
      SyncKeepsCoverage(l, s.at, s.stamp);
    } else if l.present && s.Cycle? {
      CycleKeeps(l, s.env);
    } else if l.present && s.Settle? {
      SettleCoverage(l, s.env, s.accepted);
    } else if l.present && s.Simulate? && debt.Some? {
      SettleDebtExtends(l, debt.value, s.env);
      SimulateFailedKeeps(l, debt.value, s.env);
    } else if l.present && s.Retry? && RetryApplies(l, s.env.now.date) {
      var charge := Charge(debt.value, s.env.now.date);
      ChargeSound(l, charge);
      SettleDebtExtends(l.(charges := l.charges + [charge]), debt.value, s.env);
      RetryKeeps(l.(charges := l.charges + [charge]), s.env);
    }
  }

  lemma TenantStepKeeps(l: Ledger, s: Step)
    requires l.present && TenantStep(s)
    ensures var r := Apply(l, s).l;
      KeepsCoverage(l, r) && r.sub == l.sub && r.invoices == l.invoices && r.charges == l.charges
  {
    if s.Lifecycle? {
      PassFrame(l, 0, s.at, s.replies);
    }
  }

  // ----- what a payment request says

  /** The monthly add-on charge of a plan. */
  function AddonsMonthly(catalog: Catalog, sub: Subscription, usedGb: nat): int {
    sub.extraKbs * 500 + NonNegative(usedGb - PlanOf(catalog, sub.plan).includedStorageGb) * 500
  }

  /** Every amount and date on the invoice comes from one plan and one period. */
  ghost predicate OneTariff(i: Invoice, catalog: Catalog, sub: Subscription, usedGb: nat) {
    && i.line.plan == sub.plan && i.line.period == sub.period
    && i.line.multiplier == Multiplier(sub.period)
    && i.line.unitPriceCents == MonthlyCharge(PlanOf(catalog, sub.plan).priceCents, sub.period)
    && i.totalCents == (i.line.unitPriceCents + AddonsMonthly(catalog, sub, usedGb)) * i.line.multiplier
    && i.line.nextBilling == Some(AddMonthsToDate(PaidUntil(sub), i.line.multiplier))
    && i.key == DueDate(PaidUntil(sub))
  }

  lemma EstimateWithoutSchedule(catalog: Catalog, sub: Subscription, usedGb: nat)
    requires sub.scheduled == None
    ensures var e := EstimateNext(catalog, sub, usedGb);
      e.totalCents == (MonthlyCharge(PlanOf(catalog, sub.plan).priceCents, sub.period) + AddonsMonthly(catalog, sub, usedGb))
                      * Multiplier(sub.period)
  {
    var base, addons := MonthlyCharge(PlanOf(catalog, sub.plan).priceCents, sub.period), AddonsMonthly(catalog, sub, usedGb);
    assert base * Multiplier(sub.period) + addons * Multiplier(sub.period) == (base + addons) * Multiplier(sub.period);
  }

  /** When the cycle issues a request, no scheduled change is pending, so plan, period, unit
      price, amount and next date all belong together; coverage has just run out, the
      subscription is a live paid one without debt. */
  lemma RequestsHaveOneTariff(l: Ledger, env: Env)
    requires Sound(l) && |DueCycle(l, env).l.invoices| > |l.invoices|
    ensures var r := DueCycle(l, env).l; var n := |l.invoices|;
      && |r.invoices| == n + 1 && r.invoices[n].status == Issued && r.invoices[n].line.paymentRequest
      && r.sub.scheduled == None && OneTariff(r.invoices[n], env.catalog, r.sub, env.usedGb)
      && 0 < r.invoices[n].totalCents
      && r.sub.plan != "free" && r.sub.status == Active && !Before(env.now.date, PaidUntil(r.sub))
      && LatestUnpaidDebt(l.invoices) == None
  {
    var changed := ApplyDueChange(l, env.now, env.firstStamp);
    var synced := SyncStatus(changed, env.now, env.secondStamp);
    ApplyDueChangeSound(l, env.now, env.firstStamp);
    SyncSameBilling(changed, env.now, env.secondStamp);
    EstimateWithoutSchedule(env.catalog, synced.sub, env.usedGb);
    SyncedActive(changed, env.now, env.secondStamp);
    DebtHasInvoice(l);
  }

  /** The subscription as the cycle finds it: a due change is taken over first. */
  function SubInForce(l: Ledger, env: Env): Subscription {
    ApplyDueChange(l, env.now, env.firstStamp).sub
  }

  /** The cycle issues a request exactly for a live tenant on a paid plan that has not
      cancelled, whose coverage has run out, who has no debt, and whose price is not zero. */
  lemma RequestIssuedExactly(l: Ledger, env: Env)
    requires Sound(l)
    ensures |DueCycle(l, env).l.invoices| > |l.invoices| <==>
              && l.present && l.active
              && SubInForce(l, env).plan != "free" && !CancellationRequested(l.cancellations)
              && !Before(env.now.date, PaidUntil(l.sub))
              && LatestUnpaidDebt(l.invoices) == None
              && 0 < EstimateNext(env.catalog, SubInForce(l, env), env.usedGb).totalCents
  {
    if l.present && l.active {
      var changed := ApplyDueChange(l, env.now, env.firstStamp);
      ApplyDueChangeSound(l, env.now, env.firstStamp);
      IssuedAfterSync(changed, env);
    }
  }

  /** In terms of the ledger the invoicing itself sees. */
  lemma InvoicedExactly(l: Ledger, env: Env)
    ensures |InvoiceWhenDue(l, env).l.invoices| > |l.invoices| <==>
              && l.sub.plan != "free" && l.sub.status != Restricted && !CancellationRequested(l.cancellations)
              && !Before(env.now.date, PaidUntil(l.sub))
              && !HasInvoice(l.invoices, MonthlySubscription, DueDate(PaidUntil(l.sub)))
              && !HasInvoice(l.invoices, MonthlySubscriptionFailed, DueDate(PaidUntil(l.sub)))
              && 0 < EstimateNext(env.catalog, l.sub, env.usedGb).totalCents
  {
  }

  /** What the synchronisation leaves of all that, and that it restricts no such tenant. */
  lemma SyncedForInvoicing(l: Ledger, now: Instant, stamp: Instant)
    ensures var r := SyncStatus(l, now, stamp);
      && r.invoices == l.invoices && r.sub == l.sub.(status := r.sub.status, updatedAt := r.sub.updatedAt)
      && (CancellationRequested(r.cancellations) <==> CancellationRequested(l.cancellations))
      && (l.sub.plan != "free" && !CancellationRequested(l.cancellations) && NoDebt(l.invoices) ==> r.sub.status == Active)
  {
    if NoDebt(l.invoices) {
      NothingOverdue(l, now);
    }
    if CancellationRequested(l.cancellations) {
      StampKeepsRequested(l.cancellations, now);
    }
  }

  lemma IssuedAfterSync(l: Ledger, env: Env)
    requires Sound(l)
    ensures |InvoiceWhenDue(SyncStatus(l, env.now, env.secondStamp), env).l.invoices| > |l.invoices| <==>
              && l.sub.plan != "free" && !CancellationRequested(l.cancellations)
              && !Before(env.now.date, PaidUntil(l.sub))
              && LatestUnpaidDebt(l.invoices) == None
              && 0 < EstimateNext(env.catalog, l.sub, env.usedGb).totalCents
  {
    InvoicedExactly(SyncStatus(l, env.now, env.secondStamp), env);
    SyncedForInvoicing(l, env.now, env.secondStamp);
    DebtHasInvoice(l);
    if LatestUnpaidDebt(l.invoices) == None {
      NoDebtNoInvoice(l);
    }
  }

  lemma NothingOverdue(l: Ledger, now: Instant)
    requires NoDebt(l.invoices)
    ensures !Overdue(l, now)
  {
    LatestSelects(l.invoices, OfKind(MonthlySubscriptionFailed));
    LatestSelects(l.invoices, OfKind(MonthlySubscription));
  }

  lemma StampKeepsRequested(cs: seq<Cancellation>, now: Instant)
    requires CancellationRequested(cs)
    ensures CancellationRequested(StampIfDue(cs, now))
  {
    if CutsAccess(cs, now) {
      var latest := LatestCancellation(cs).value;
      SameLatest(cs, latest, cs[latest].(deactivatedAt := Some(now)));
    }
  }

  lemma DebtHasInvoice(l: Ledger)
    requires Sound(l)
    ensures LatestUnpaidDebt(l.invoices).Some? ==>
              var key := DueDate(PaidUntil(l.sub));
              HasInvoice(l.invoices, MonthlySubscription, key) || HasInvoice(l.invoices, MonthlySubscriptionFailed, key)
  {
    if LatestUnpaidDebt(l.invoices).Some? {
      var i := l.invoices[LatestUnpaidDebt(l.invoices).value];
      assert Placed(i, PaidUntil(l.sub));
      assert i.kind == MonthlySubscription || i.kind == MonthlySubscriptionFailed;
    }
  }

  lemma SyncedActive(l: Ledger, now: Instant, stamp: Instant)
    ensures SyncStatus(l, now, stamp).sub.plan == l.sub.plan
    ensures l.sub.plan != "free" ==> SyncStatus(l, now, stamp).sub.status in {Active, Restricted}
  {
  }

  // ----- paying in advance with a change pending

  /** Paid in advance, the owner is charged for the scheduled period and granted the current
      one.  The two are equally long exactly when no change is pending, it is due, or its
      period is as long as the current one. */
  lemma ChargedVersusGranted(l: Ledger, env: Env)
    requires Sound(l) && l.present && LatestUnpaidDebt(l.invoices) == None
    ensures var r := SettleSubscription(l, env, true).l; var n := |l.invoices|;
      && |r.invoices| == n + 1 && r.invoices[n].status == Paid
      && var charged := EstimateNext(env.catalog, ApplyDueChange(l, env.now, env.firstStamp).sub, env.usedGb);
         && r.invoices[n].totalCents == charged.totalCents
         && charged.multiplier == EstimateNext(env.catalog, l.sub, env.usedGb).multiplier
         && (charged.multiplier == r.coverage[|r.coverage| - 1].months <==>
               || l.sub.scheduled.None? || ScheduleDue(l, env.now)
               || l.sub.scheduled.value.period == l.sub.period)
  {
    ApplyDueChangeSound(l, env.now, env.firstStamp);
    SettleCoverage(l, env, true);
    var due := ApplyDueChange(l, env.now, env.firstStamp);
    NoDebtNoInvoice(due);
    NothingOpen(due);
  }

  /** The storage beyond what a plan includes. */
  function ExtraStorage(catalog: Catalog, plan: string, usedGb: nat): int {
    var included := PlanOf(catalog, plan).includedStorageGb;
    if included < usedGb then usedGb - included else 0
  }

  /** The gateway is asked for the invoiced amount exactly when the storage beyond the plan in
      force before the payment, as it is read for the question, equals the storage beyond the
      plan in force after a due change, as it is read for the invoice. */
  lemma AskedVersusInvoiced(l: Ledger, env: Env)
    requires Sound(l) && l.present && LatestUnpaidDebt(l.invoices) == None
    ensures var r := SettleSubscription(l, env, true).l; var n := |l.invoices|;
      && |r.invoices| == n + 1
      && (AmountAsked(l, env) == r.invoices[n].totalCents <==>
            ExtraStorage(env.catalog, l.sub.plan, env.askedGb)
            == ExtraStorage(env.catalog, if ScheduleDue(l, env.now) then l.sub.scheduled.value.plan else l.sub.plan, env.usedGb))
  {
    ChargedVersusGranted(l, env);
    EstimatesDiffer(env.catalog, l.sub, ApplyDueChange(l, env.now, env.firstStamp).sub, env.askedGb, env.usedGb);
  }

  lemma EstimatesDiffer(catalog: Catalog, before: Subscription, after: Subscription, askedGb: nat, usedGb: nat)
    requires after.extraKbs == before.extraKbs
    requires after == before || (before.scheduled.Some? && after.scheduled == None
                                 && after.plan == before.scheduled.value.plan && after.period == before.scheduled.value.period)
    ensures EstimateNext(catalog, before, askedGb).totalCents == EstimateNext(catalog, after, usedGb).totalCents <==>
            ExtraStorage(catalog, before.plan, askedGb) == ExtraStorage(catalog, after.plan, usedGb)
  {
    var asked, used := ExtraStorage(catalog, before.plan, askedGb), ExtraStorage(catalog, after.plan, usedGb);
    SameProduct(before.extraKbs * 500 + asked * 500, after.extraKbs * 500 + used * 500,
                EstimateNext(catalog, before, askedGb).multiplier);
  }

  lemma SameProduct(a: int, b: int, m: int)
    requires 0 < m
    ensures a * m == b * m <==> a == b
  {
  }

  // ----- paying a request after a change

  /** A request is settled up to the next date written on it exactly when the period in force
      is still the one it was issued for. */
  lemma SettledAsWritten(l: Ledger, id: nat, env: Env)
    requires Sound(l) && id < |l.invoices| && Unpaid(l.invoices[id])
    requires l.invoices[id].line.paymentRequest && RequestLine(l.invoices[id])
    ensures var i := l.invoices[id];
      Some(PaidUntil(SettleDebt(l, id, env).l.sub)) == i.line.nextBilling <==> l.sub.period == i.line.period
  {
    var i := l.invoices[id];
    assert Placed(i, PaidUntil(l.sub));
    SettleDebtExtends(l, id, env);
    var m, n := Multiplier(l.sub.period), i.line.multiplier;
    if m < n {
      AddMonthsStrictInCount(PaidUntil(l.sub), m, n);
    } else if n < m {
      AddMonthsStrictInCount(PaidUntil(l.sub), n, m);
    }
  }
}
