/** What each billing step leaves behind, written out in dates, amounts and rows. */
module LedgerOutcomes {
  import opened Options
  import opened Calendar
  import opened Instants
  import opened Pricing
  import opened Ledger
  import opened LedgerInvariant
  import opened Cancellations
  import opened LedgerRuns
  import opened LedgerBilling
  import opened LedgerStatus

  // ----- the status synchronisation

  /** The status after a synchronisation, for every ledger; only the status and the stamp of
      the subscription are ever written, and the stamp only with another status. */
  lemma StatusExactly(l: Ledger, now: Instant, stamp: Instant)
    ensures var r := SyncStatus(l, now, stamp);
            var free, ended := l.sub.plan == "free", NotAfter(l.sub.trialEndsAt, now);
            var live, overdue := LiveCancellation(l.cancellations, now), Overdue(l, now);
      && (r.sub.status == Restricted <==> live || overdue || (free && ended))
      && (r.sub.status == Trial <==> free && !ended && !live && !overdue)
      && (r.sub.status == Active <==> !free && !live && !overdue)
      && r.sub == l.sub.(status := r.sub.status,
                         updatedAt := if r.sub.status == l.sub.status then l.sub.updatedAt else stamp)
  {
    CancellationMeaning(l.cancellations, now);
  }

  /** In a sound ledger, with the searches spelled out: restricted for a cancellation in force,
      an overdue failed payment or an ended trial; in trial on the free plan before its end;
      otherwise active. */
  lemma SyncedStatus(l: Ledger, now: Instant, stamp: Instant)
    requires Sound(l)
    ensures var r := SyncStatus(l, now, stamp).sub;
            var free, ended := l.sub.plan == "free", NotAfter(l.sub.trialEndsAt, now);
            var held := LiveCancellation(l.cancellations, now) || OverdueFailure(l, now);
      && (r.status == Restricted <==> held || (free && ended))
      && (r.status == Trial <==> free && !ended && !held)
      && (r.status == Active <==> !free && !held)
  {
    StatusExactly(l, now, stamp);
    OverdueMeaning(l, now);
  }

  /** The latest request has been in effect for a week and is not stamped. */
  predicate WeekOld(cs: seq<Cancellation>, k: nat, now: Instant) {
    k < |cs| && IsLatestRequest(cs, k) && LiveRequest(cs[k], now) && DaysBetween(cs[k].effectiveAt.date, now.date) >= 7
  }

  predicate AnyWeekOld(cs: seq<Cancellation>, now: Instant) {
    exists k :: 0 <= k < |cs| && WeekOld(cs, k, now)
  }

  lemma CutsExactly(cs: seq<Cancellation>, now: Instant)
    ensures CutsAccess(cs, now) <==> AnyWeekOld(cs, now)
    ensures CutsAccess(cs, now) ==> WeekOld(cs, LatestCancellation(cs).value, now)
  {
    LatestCancellationIs(cs);
    if CutsAccess(cs, now) {
      assert WeekOld(cs, LatestCancellation(cs).value, now);
    }
    if AnyWeekOld(cs, now) {
      var k :| 0 <= k < |cs| && WeekOld(cs, k, now);
      LatestRequestUnique(cs, LatestCancellation(cs).value, k);
    }
  }

  /** What the synchronisation does to the requests: the latest one is stamped, if it has been
      in effect for a week, and no other. */
  lemma StampExactly(l: Ledger, now: Instant, stamp: Instant, k: nat)
    requires k < |l.cancellations|
    ensures var r := SyncStatus(l, now, stamp); var c := l.cancellations[k];
      && |r.cancellations| == |l.cancellations|
      && r.cancellations[k] == if WeekOld(l.cancellations, k, now) then c.(deactivatedAt := Some(now)) else c
  {
    CutsExactly(l.cancellations, now);
    if WeekOld(l.cancellations, k, now) {
      LatestCancellationIs(l.cancellations);
      LatestRequestUnique(l.cancellations, LatestCancellation(l.cancellations).value, k);
    }
  }

  /** A failed payment that counts against the tenant and was due thirty days ago. */
  predicate MonthOld(l: Ledger, i: nat, now: Instant) {
    && i < |l.invoices| && l.invoices[i].status == PaymentFailed && CountsAgainst(l, l.invoices[i], now)
    && DaysBetween(l.invoices[i].dueAt.date, now.date) >= 30
  }

  predicate AnyMonthOld(l: Ledger, now: Instant) {
    exists i :: 0 <= i < |l.invoices| && MonthOld(l, i, now)
  }

  /** In a sound ledger there is one failed row at most, and the search finds it if it counts. */
  lemma OverdueRow(l: Ledger, now: Instant, i: nat)
    requires Sound(l) && i < |l.invoices| && l.invoices[i].status == PaymentFailed
    ensures Overdue(l, now) <==> CountsAgainst(l, l.invoices[i], now)
    ensures Overdue(l, now) ==> OverdueCandidate(l.invoices, now) == Some(i)
  {
    CandidateIsTheFailure(l, i, now);
    PaidAfterMeaning(l, i);
  }

  lemma LongOverdue(l: Ledger, now: Instant)
    requires Sound(l) && Overdue(l, now)
    ensures DaysBetween(l.invoices[OverdueCandidate(l.invoices, now).value].dueAt.date, now.date) >= 30 <==> AnyMonthOld(l, now)
  {
    OverdueMeaning(l, now);
    var i :| 0 <= i < |l.invoices| && l.invoices[i].status == PaymentFailed && CountsAgainst(l, l.invoices[i], now);
    OverdueRow(l, now, i);
    assert DaysBetween(l.invoices[i].dueAt.date, now.date) >= 30 <==> MonthOld(l, i, now);
    if AnyMonthOld(l, now) {
      var k :| 0 <= k < |l.invoices| && MonthOld(l, k, now);
      OverdueRow(l, now, k);
    }
  }

  lemma MonthOldIsOverdue(l: Ledger, now: Instant)
    requires Sound(l) && AnyMonthOld(l, now)
    ensures Overdue(l, now)
  {
    var i :| 0 <= i < |l.invoices| && MonthOld(l, i, now);
    OverdueRow(l, now, i);
  }

  /** Who is switched off by a synchronisation. */
  lemma AccessExactly(l: Ledger, now: Instant, stamp: Instant)
    requires Sound(l)
    ensures SyncStatus(l, now, stamp).active <==> l.active && !AnyWeekOld(l.cancellations, now) && !AnyMonthOld(l, now)
  {
    CutsExactly(l.cancellations, now);
    if Overdue(l, now) {
      LongOverdue(l, now);
    } else if AnyMonthOld(l, now) {
      MonthOldIsOverdue(l, now);
    }
    SyncSwitches(l, now, stamp);
  }

  // ----- a due change

  /** The cycle takes a scheduled change over when the paid period is over, and not before. */
  lemma DueChangeExactly(l: Ledger, env: Env)
    requires Sound(l) && l.present && l.active
    ensures var r := DueCycle(l, env).l; var s := l.sub.scheduled;
      && PaidUntil(r.sub) == PaidUntil(l.sub)
      && (if s.Some? && !Before(env.now.date, PaidUntil(l.sub))
          then r.sub.plan == s.value.plan && r.sub.period == s.value.period && r.sub.scheduled == None
          else r.sub.plan == l.sub.plan && r.sub.period == l.sub.period && r.sub.scheduled == s)
  {
    var changed := ApplyDueChange(l, env.now, env.firstStamp);
    SyncedForInvoicing(changed, env.now, env.secondStamp);
    InvoicedSub(SyncStatus(changed, env.now, env.secondStamp), env);
  }

  lemma InvoicedSub(l: Ledger, env: Env)
    ensures InvoiceWhenDue(l, env).l.sub == l.sub
  {
  }

  // ----- payments

  /** What every payment that goes through leaves of the subscription. */
  ghost predicate PaidUp(l: Ledger, r: Ledger, storageGb: int) {
    && r.sub.plan == (if l.sub.scheduled.Some? then l.sub.scheduled.value.plan else l.sub.plan)
    && r.sub.period == (if l.sub.scheduled.Some? then l.sub.scheduled.value.period else l.sub.period)
    && r.sub.scheduled == None && r.sub.extraKbs == l.sub.extraKbs && r.sub.extraStorageGb == storageGb
  }

  lemma SettledSub(l: Ledger, id: nat, env: Env)
    requires Sound(l) && id < |l.invoices| && Unpaid(l.invoices[id])
    ensures PaidUp(l, SettleDebt(l, id, env).l, ExtraStorage(env.catalog, l.sub.plan, env.usedGb))
  {
    UpdateNeverConflicts(l, id, Paid, Some(MonthlySubscription), None);
    var paid := UpdateInvoice(l, id, Paid, Some(MonthlySubscription), None).l;
    var storage := EstimateNext(env.catalog, l.sub, env.usedGb).extraStorageGb;
    StatusExactly(Extend(paid, l.invoices[id].key, storage, env.firstStamp), env.now, env.secondStamp);
  }

  lemma AdvancedSub(l: Ledger, env: Env)
    requires Sound(l) && LatestUnpaidDebt(l.invoices) == None
    ensures var r := BillPaid(l, env).l;
      PaidUp(l, r, ExtraStorage(env.catalog, l.sub.plan, env.usedGb)) && r.sub.status == Active && r.active
      && r.sub.updatedAt == env.secondStamp && r.cancellations == l.cancellations
  {
    NoDebtNoInvoice(l);
    NothingOpen(l);
  }

  /** A settled debt: its row is paid and of the monthly kind, and no other row is touched. */
  lemma SettledRows(l: Ledger, id: nat, env: Env)
    requires Sound(l) && id < |l.invoices| && Unpaid(l.invoices[id])
    ensures SettleDebt(l, id, env).l.invoices ==
              l.invoices[id := l.invoices[id].(status := Paid, kind := MonthlySubscription)]
    ensures NoDebt(SettleDebt(l, id, env).l.invoices)
  {
    UpdateNeverConflicts(l, id, Paid, Some(MonthlySubscription), None);
    forall k | 0 <= k < |l.invoices| && k != id ensures !Unpaid(l.invoices[k]) {
      assert Placed(l.invoices[k], PaidUntil(l.sub)) && Placed(l.invoices[id], PaidUntil(l.sub));
    }
  }

  /** With the debt settled only a cancellation in force, or a free plan whose end the payment
      does not move past the present, still restricts, and only a cancellation of a week ago
      keeps access off. */
  lemma SettledStatus(l: Ledger, id: nat, env: Env)
    requires Sound(l) && id < |l.invoices| && Unpaid(l.invoices[id])
    ensures var r := SettleDebt(l, id, env).l;
            var free, live := r.sub.plan == "free", LiveCancellation(l.cancellations, env.now);
            var ended := NotAfter(r.sub.trialEndsAt, env.now);
      && (r.sub.status == Restricted <==> live || (free && ended))
      && (r.sub.status == Trial <==> free && !ended && !live)
      && (r.active <==> !AnyWeekOld(l.cancellations, env.now))
      && r.sub.updatedAt == if r.sub.status == Active then env.firstStamp else env.secondStamp
  {
    SettledRows(l, id, env);
    UpdateNeverConflicts(l, id, Paid, Some(MonthlySubscription), None);
    var paid := UpdateInvoice(l, id, Paid, Some(MonthlySubscription), None).l;
    var storage := EstimateNext(env.catalog, l.sub, env.usedGb).extraStorageGb;
    var extended := Extend(paid, l.invoices[id].key, storage, env.firstStamp);
    NothingOverdue(extended, env.now);
    StatusExactly(extended, env.now, env.secondStamp);
    CutsExactly(l.cancellations, env.now);
    SyncSwitches(extended, env.now, env.secondStamp);
  }

  /** Every payment that goes through takes a scheduled change over, whether it is due or not,
      and else keeps plan and period; the storage to be paid extra is that beyond the plan in
      force before it, or after a due change that is taken over first. */
  lemma PlanAfterPayment(l: Ledger, s: Step)
    requires Sound(l) && Pays(l, s)
    ensures var r := Apply(l, s).l;
      && r.sub.plan == (if l.sub.scheduled.Some? then l.sub.scheduled.value.plan else l.sub.plan)
      && r.sub.period == (if l.sub.scheduled.Some? then l.sub.scheduled.value.period else l.sub.period)
      && r.sub.scheduled == None && r.sub.extraKbs == l.sub.extraKbs
      && r.sub.extraStorageGb ==
           ExtraStorage(s.env.catalog, if LatestUnpaidDebt(l.invoices) == None && ScheduleDue(l, s.env.now)
                                       then l.sub.scheduled.value.plan else l.sub.plan, s.env.usedGb)
  {
    var debt := LatestUnpaidDebt(l.invoices);
    if debt.None? {
      ApplyDueChangeSound(l, s.env.now, s.env.firstStamp);
      AdvancedSub(ApplyDueChange(l, s.env.now, s.env.firstStamp), s.env);
    } else if s.Retry? {
      var charge := Charge(debt.value, s.env.now.date);
      ChargeSound(l, charge);
      SettledSub(l.(charges := l.charges + [charge]), debt.value, s.env);
    } else {
      SettledSub(l, debt.value, s.env);
    }
  }

  // ----- the rows payments and refusals leave

  /** What the coming period costs: the monthly charge of the plan and period that take over,
      five forints for each further knowledge base and each gigabyte beyond the plan in force,
      for every month. */
  function PeriodPrice(catalog: Catalog, sub: Subscription, usedGb: nat): int {
    var plan := if sub.scheduled.Some? then sub.scheduled.value.plan else sub.plan;
    var period := if sub.scheduled.Some? then sub.scheduled.value.period else sub.period;
    (MonthlyCharge(PlanOf(catalog, plan).priceCents, period) + sub.extraKbs * 500
     + ExtraStorage(catalog, sub.plan, usedGb) * 500) * Multiplier(period)
  }

  lemma EstimateIsPeriodPrice(catalog: Catalog, sub: Subscription, usedGb: nat)
    ensures EstimateNext(catalog, sub, usedGb).totalCents == PeriodPrice(catalog, sub, usedGb)
  {
    var e := EstimateNext(catalog, sub, usedGb);
    var addons := sub.extraKbs * 500 + ExtraStorage(catalog, sub.plan, usedGb) * 500;
    assert e.baseMonthlyCents * e.multiplier + addons * e.multiplier == (e.baseMonthlyCents + addons) * e.multiplier;
  }

  /** A row for the coming period, of the plan and period in force. */
  function PeriodRow(catalog: Catalog, sub: Subscription, kind: Kind, status: InvoiceStatus, total: int,
                     issuedAt: Instant, dueAt: Instant, nextBilling: Option<Date>, request: bool): Invoice {
    Invoice(kind, DueDate(sub.trialEndsAt.date), status, total, issuedAt, dueAt,
            Line(sub.plan, sub.period, Multiplier(sub.period),
                 MonthlyCharge(PlanOf(catalog, sub.plan).priceCents, sub.period), nextBilling, request, None))
  }

  /** Paid in advance: the one new row is a paid monthly invoice with today's dates, the price
      of the coming period and the date up to which the period in force reaches. */
  lemma AdvanceInvoiced(l: Ledger, env: Env)
    requires Sound(l) && l.present && LatestUnpaidDebt(l.invoices) == None
    ensures var sub := SubInForce(l, env);
      SettleSubscription(l, env, true).l.invoices ==
        l.invoices + [PeriodRow(env.catalog, sub, MonthlySubscription, Paid, PeriodPrice(env.catalog, sub, env.usedGb),
                                env.now, env.now, Some(AddMonthsToDate(sub.trialEndsAt.date, Multiplier(sub.period))), false)]
  {
    var due := ApplyDueChange(l, env.now, env.firstStamp);
    ApplyDueChangeSound(l, env.now, env.firstStamp);
    NoDebtNoInvoice(due);
    NothingOpen(due);
    EstimateIsPeriodPrice(env.catalog, due.sub, env.usedGb);
  }

  /** Refused in advance: the one new row is a failed one, due when coverage ends; nothing
      else changes but a due change of the plan. */
  lemma AdvanceRefused(l: Ledger, env: Env)
    requires Sound(l) && l.present && LatestUnpaidDebt(l.invoices) == None
    ensures var sub := SubInForce(l, env);
      SettleSubscription(l, env, false).l ==
        l.(sub := sub,
           invoices := l.invoices + [PeriodRow(env.catalog, sub, MonthlySubscriptionFailed, PaymentFailed,
                                               PeriodPrice(env.catalog, sub, env.usedGb), env.now,
                                               Instant(sub.trialEndsAt.date, 0), None, false)])
  {
    var due := ApplyDueChange(l, env.now, env.firstStamp);
    ApplyDueChangeSound(l, env.now, env.firstStamp);
    NoDebtNoInvoice(due);
    NothingOpen(due);
    EstimateIsPeriodPrice(env.catalog, due.sub, env.usedGb);
  }

  /** The gateway is asked for the debt as it was invoiced, and without one for the price of the
      coming period. */
  lemma AskedExactly(l: Ledger, env: Env)
    requires Sound(l)
    ensures forall id :: 0 <= id < |l.invoices| && Unpaid(l.invoices[id]) ==> AmountAsked(l, env) == l.invoices[id].totalCents
    ensures NoDebt(l.invoices) ==> AmountAsked(l, env) == PeriodPrice(env.catalog, l.sub, env.askedGb)
  {
    EstimateIsPeriodPrice(env.catalog, l.sub, env.askedGb);
    forall id | 0 <= id < |l.invoices| && Unpaid(l.invoices[id]) ensures LatestUnpaidDebt(l.invoices) == Some(id) {
      TheDebt(l, id);
    }
  }

  /** The subscription in force once a due change is taken over: the scheduled plan and period
      when the paid period is over, and not before; the free plan then starts as a trial. */
  lemma InForceExactly(l: Ledger, env: Env)
    requires Sound(l)
    ensures var sub, s := SubInForce(l, env), l.sub.scheduled;
      sub == if s.Some? && !Before(env.now.date, l.sub.trialEndsAt.date)
             then Subscription(s.value.plan, s.value.period, if s.value.plan == "free" then Trial else Active,
                               l.sub.trialEndsAt, env.firstStamp, l.sub.extraKbs, l.sub.extraStorageGb, None)
             else l.sub
  {
  }

  /** The request the cycle issues: an open row of the plan and period in force, due at once. */
  lemma RequestInvoiced(l: Ledger, env: Env)
    requires Sound(l) && |DueCycle(l, env).l.invoices| > |l.invoices|
    ensures var sub := SubInForce(l, env);
      DueCycle(l, env).l.invoices ==
        l.invoices + [PeriodRow(env.catalog, sub, MonthlySubscription, Issued, PeriodPrice(env.catalog, sub, env.usedGb),
                                env.now, env.now, Some(AddMonthsToDate(sub.trialEndsAt.date, Multiplier(sub.period))), true)]
  {
    var changed := ApplyDueChange(l, env.now, env.firstStamp);
    SyncedForInvoicing(changed, env.now, env.secondStamp);
    EstimateIsPeriodPrice(env.catalog, SyncStatus(changed, env.now, env.secondStamp).sub, env.usedGb);
  }

  /** A refused settlement of a debt: its row fails and takes the failed kind, and the status
      is synchronised. */
  lemma DebtRefused(l: Ledger, id: nat, env: Env)
    requires Sound(l) && l.present && LatestUnpaidDebt(l.invoices) == Some(id)
    ensures SettleSubscription(l, env, false) ==
              Done(SyncStatus(l.(invoices := l.invoices[id := l.invoices[id].(status := PaymentFailed,
                                                                              kind := MonthlySubscriptionFailed)]),
                              env.now, env.firstStamp))
  {
    var kind := if HasInvoice(l.invoices, MonthlySubscriptionFailed, l.invoices[id].key)
                then None else Some(MonthlySubscriptionFailed);
    FailedKind(l, id);
    UpdateNeverConflicts(l, id, PaymentFailed, kind, None);
  }

  /** A refused simulated payment: the same, and the row carries the day as its retry mark. */
  lemma SimulationRefused(l: Ledger, id: nat, env: Env)
    requires Sound(l) && l.present && LatestUnpaidDebt(l.invoices) == Some(id)
    ensures SimulatePayment(l, env, false) ==
              Done(SyncStatus(l.(invoices := l.invoices[id := Refused(l.invoices[id], env.now.date)]), env.now, env.firstStamp))
  {
    assert Placed(l.invoices[id], PaidUntil(l.sub));
    var i := l.invoices[id];
    var kind := if i.kind == MonthlySubscription && !HasInvoice(l.invoices, MonthlySubscriptionFailed, i.key)
                then Some(MonthlySubscriptionFailed) else None;
    FailedKind(l, id);
    UpdateNeverConflicts(l, id, PaymentFailed, kind, None);
    var failed := UpdateInvoice(l, id, PaymentFailed, kind, None).l;
    UpdateNeverConflicts(failed, id, PaymentFailed, None, Some(env.now.date));
    var marked := UpdateInvoice(failed, id, PaymentFailed, None, Some(env.now.date)).l;
    assert marked.invoices == l.invoices[id := Refused(i, env.now.date)];
  }

  /** A row after a refused charge on a day. */
  function Refused(i: Invoice, today: Date): Invoice {
    i.(status := PaymentFailed, kind := MonthlySubscriptionFailed, line := i.line.(retryDate := Some(today)))
  }

  // ----- the daily retry

  /** The retry charges the debt of a tenant who is present and active, if it fell due less
      than thirty days ago and was not charged today. */
  predicate Chargeable(l: Ledger, id: nat, today: Date) {
    && l.present && l.active && id < |l.invoices| && Unpaid(l.invoices[id])
    && DaysBetween(l.invoices[id].dueAt.date, today) < 30 && l.invoices[id].line.retryDate != Some(today)
  }

  lemma RetryCharges(l: Ledger, env: Env, success: bool, id: nat)
    requires Sound(l) && Chargeable(l, id, env.now.date)
    ensures var r := DailyRetry(l, env, success).l;
      && r.charges == l.charges + [Charge(id, env.now.date)]
      && r.invoices == l.invoices[id := if success then l.invoices[id].(status := Paid, kind := MonthlySubscription)
                                        else Refused(l.invoices[id], env.now.date)]
  {
    var charged := l.(charges := l.charges + [Charge(id, env.now.date)]);
    ChargeSound(l, Charge(id, env.now.date));
    RetryOfCharged(l, env, success, id);
    if success {
      SettledRows(charged, id, env);
    } else {
      RetryRefused(charged, id, env);
    }
  }

  lemma RetryOfCharged(l: Ledger, env: Env, success: bool, id: nat)
    requires Sound(l) && Chargeable(l, id, env.now.date)
    ensures var charged := l.(charges := l.charges + [Charge(id, env.now.date)]);
      && LatestUnpaidDebt(l.invoices) == Some(id)
      && DailyRetry(l, env, success) == if success then SettleDebt(charged, id, env) else RetryFailed(charged, env)
  {
    TheDebt(l, id);
  }

  /** A refused retry of an open request also synchronises the status, before the mark. */
  lemma RetryRefused(l: Ledger, id: nat, env: Env)
    requires Sound(l) && LatestUnpaidDebt(l.invoices) == Some(id)
    ensures var i, today := l.invoices[id], env.now.date;
            var failed := l.(invoices := l.invoices[id := i.(status := PaymentFailed, kind := MonthlySubscriptionFailed)]);
            var synced := if i.status == Issued then SyncStatus(failed, env.now, env.firstStamp) else l;
      RetryFailed(l, env) == Done(synced.(invoices := l.invoices[id := Refused(i, today)]))
  {
    assert Placed(l.invoices[id], PaidUntil(l.sub));
    UpdateNeverConflicts(l, id, PaymentFailed, Some(MonthlySubscriptionFailed), None);
    var failed := UpdateInvoice(l, id, PaymentFailed, Some(MonthlySubscriptionFailed), None).l;
    SyncSameBilling(failed, env.now, env.firstStamp);
    var synced := if l.invoices[id].status == Issued then SyncStatus(failed, env.now, env.firstStamp) else l;
    UpdateNeverConflicts(synced, id, PaymentFailed, None, Some(env.now.date));
  }

  lemma RetrySkips(l: Ledger, env: Env, success: bool)
    requires Sound(l) && forall id: nat :: !Chargeable(l, id, env.now.date)
    ensures DailyRetry(l, env, success) == Done(l)
  {
    var debt := LatestUnpaidDebt(l.invoices);
    if debt.Some? {
      assert !Chargeable(l, debt.value, env.now.date);
    }
  }

  // ----- plan changes

  /** A step down: a plan that costs less or includes less than the current one, or the same
      plan for fewer months at a time. */
  predicate StepsDown(catalog: Catalog, sub: Subscription, plan: string, period: Period) {
    var current, next := PlanOf(catalog, sub.plan), PlanOf(catalog, plan);
    || next.priceCents < current.priceCents || next.includedKbs < current.includedKbs
    || next.includedStorageGb < current.includedStorageGb
    || (plan == sub.plan && ((period == Monthly && sub.period != Monthly) || (period == Quarterly && sub.period == Yearly)))
  }

  /** The subscription as of today on another plan: its coverage starts today. */
  function OnPlan(sub: Subscription, plan: string, period: Period, today: Date, stamp: Instant): Subscription {
    Subscription(plan, period, Active, Instant(AddMonthsToDate(today, Multiplier(period)), 0), stamp,
                 sub.extraKbs, sub.extraStorageGb, None)
  }

  /** A step down is noted for the end of the paid period and changes nothing else. */
  lemma ChoiceWaits(l: Ledger, env: Env, plan: string, period: Period)
    requires plan in env.catalog && StepsDown(env.catalog, l.sub, plan, period)
    ensures UpdateSubscription(l, env, plan, period) ==
              Done(l.(sub := l.sub.(scheduled := Some(Schedule(plan, period, l.sub.trialEndsAt.date)),
                                    updatedAt := env.firstStamp)))
  {
    assert IsScheduledChange(env.catalog, l.sub.plan, l.sub.period, plan, period);
  }

  /** Leaving the free plan is paid at once: coverage starts today, and the checkout invoice is
      for the monthly charge times the months of the period, unless it was written before. */
  lemma ChoiceChecksOut(l: Ledger, env: Env, plan: string, period: Period)
    requires l.sub.plan == "free" && plan != "free" && plan in env.catalog && !StepsDown(env.catalog, l.sub, plan, period)
    ensures var unit := MonthlyCharge(env.catalog[plan].priceCents, period);
            var months := match period case Monthly => 1 case Quarterly => 3 case Yearly => 12;
            var key := Checkout(env.now.date, env.now.micros / 10_000);
            var row := Invoice(MonthlySubscription, key, Paid, unit * months, env.now, env.now,
                               Line(plan, period, months, unit, None, false, None));
      UpdateSubscription(l, env, plan, period) ==
        Done(l.(sub := OnPlan(l.sub, plan, period, env.now.date, env.firstStamp),
                coverage := l.coverage + [Moved(AddMonthsToDate(env.now.date, months))],
                invoices := if exists i :: 0 <= i < |l.invoices| && l.invoices[i].kind == MonthlySubscription
                                           && l.invoices[i].key == key
                            then l.invoices else l.invoices + [row]))
  {
    assert !IsScheduledChange(env.catalog, l.sub.plan, l.sub.period, plan, period);
  }

  /** The remaining choices: an unknown plan is rejected, a change to the free plan from one
      that has nothing more starts a trial up to the date paid, and a change between paid plans
      clears the paid-until date. */
  lemma ChoiceElse(l: Ledger, env: Env, plan: string, period: Period)
    ensures var o := UpdateSubscription(l, env, plan, period);
      && (o == Raised(l, ValueError) <==> plan !in env.catalog)
      && (plan in env.catalog && !StepsDown(env.catalog, l.sub, plan, period) ==>
            && (plan == "free" ==> o == Done(l.(sub := l.sub.(plan := "free", period := period, status := Trial,
                                                              updatedAt := env.firstStamp, scheduled := None))))
            && (o == Raised(l, PaidUntilCleared) <==> l.sub.plan != "free" && plan != "free"))
  {
    assert plan in env.catalog ==>
      (IsScheduledChange(env.catalog, l.sub.plan, l.sub.period, plan, period) <==> StepsDown(env.catalog, l.sub, plan, period));
  }

  /** An upgrade is refused for an unknown plan, from the free plan, and to a plan that costs or
      includes less; to the current plan and period it does nothing; otherwise coverage starts
      today, and no row of the monthly kinds is written. */
  lemma UpgradeExactly(l: Ledger, env: Env, plan: string, period: Period)
    ensures var current, next := PlanOf(env.catalog, l.sub.plan), PlanOf(env.catalog, plan);
            var refused := || plan !in env.catalog || l.sub.plan == "free" || next.priceCents < current.priceCents
                           || next.includedKbs < current.includedKbs || next.includedStorageGb < current.includedStorageGb;
      Upgrade(l, env, plan, period) ==
        if refused then Raised(l, ValueError)
        else if plan == l.sub.plan && period == l.sub.period then Done(l)
        else if plan == "free" then Done(l.(sub := l.sub.(plan := "free", period := period, status := Trial,
                                                          updatedAt := env.firstStamp, scheduled := None)))
        else Done(l.(sub := OnPlan(l.sub, plan, period, env.now.date, env.firstStamp),
                     coverage := l.coverage + [Moved(AddMonthsToDate(env.now.date, Multiplier(period)))]))
  {
  }
}
