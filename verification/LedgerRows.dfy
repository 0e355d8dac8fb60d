/** How invoice rows change in a run: paid rows never, the others only in status, kind and
    retry mark; no row is deleted but with the tenant. */
module LedgerRows {
  import opened Options
  import opened Calendar
  import opened Instants
  import opened Pricing
  import opened Ledger
  import opened Cancellations
  import opened LedgerRuns

  predicate RowEvolves(a: Invoice, b: Invoice, today: Date) {
    && (a.status == Paid ==> b == a)
    && b == a.(status := b.status, kind := b.kind, line := b.line)
    && b.line == a.line.(retryDate := b.line.retryDate)
    && (b.line.retryDate == a.line.retryDate || b.line.retryDate == Some(today))
  }

  /** A row as it is inserted.  A request is due when it is issued and names the date one
      period after its key as the next one. */
  predicate Inserted(i: Invoice, now: Instant) {
    && i.issuedAt == now && i.line.retryDate == None && i.line.multiplier == Multiplier(i.line.period)
    && (i.line.paymentRequest ==>
          && i.dueAt == now && i.key.DueDate?
          && i.line.nextBilling == Some(AddMonthsToDate(i.key.date, i.line.multiplier)))
  }

  ghost predicate RowsEvolve(a: seq<Invoice>, b: seq<Invoice>, now: Instant) {
    && |a| <= |b|
    && (forall i :: 0 <= i < |a| ==> RowEvolves(a[i], b[i], now.date))
    && (forall i :: |a| <= i < |b| ==> Inserted(b[i], now))
  }

  /** Of the rest of the ledger the subscription may change, and a due cancellation be stamped. */
  predicate Framed(l: Ledger, r: Ledger, now: Instant) {
    && r.charges == l.charges && r.present == l.present
    && (r.cancellations == l.cancellations || r.cancellations == StampIfDue(l.cancellations, now))
  }

  lemma UpdateEvolves(l: Ledger, id: nat, status: InvoiceStatus, kind: Option<Kind>, retryDate: Option<Date>, now: Instant)
    requires id < |l.invoices| && Unpaid(l.invoices[id]) && (retryDate.Some? ==> retryDate.value == now.date)
    ensures var r := UpdateInvoice(l, id, status, kind, retryDate).l;
      RowsEvolve(l.invoices, r.invoices, now) && r == l.(invoices := r.invoices)
  {
  }

  lemma CreateEvolves(l: Ledger, i: Invoice, now: Instant)
    requires Inserted(i, now)
    ensures var r := CreateInvoice(l, i).l; RowsEvolve(l.invoices, r.invoices, now) && r == l.(invoices := r.invoices)
  {
  }

  lemma EvolveTwice(a: seq<Invoice>, b: seq<Invoice>, c: seq<Invoice>, now: Instant)
    requires RowsEvolve(a, b, now) && RowsEvolve(b, c, now) && |b| == |a| && |c| == |b|
    ensures RowsEvolve(a, c, now)
  {
    forall i | 0 <= i < |a| ensures RowEvolves(a[i], c[i], now.date) {
      assert RowEvolves(a[i], b[i], now.date) && RowEvolves(b[i], c[i], now.date);
    }
  }

  lemma SyncFramed(l: Ledger, now: Instant, stamp: Instant)
    ensures Framed(l, SyncStatus(l, now, stamp), now) && SyncStatus(l, now, stamp).invoices == l.invoices
  {
  }

  lemma SettleDebtEvolves(l: Ledger, id: nat, env: Env)
    requires id < |l.invoices| && Unpaid(l.invoices[id])
    ensures RowsEvolve(l.invoices, SettleDebt(l, id, env).l.invoices, env.now)
    ensures Framed(l, SettleDebt(l, id, env).l, env.now)
    ensures SettleDebt(l, id, env).Done? ==> var row := SettleDebt(l, id, env).l.invoices[id]; row.status == Paid
  {
    UpdateEvolves(l, id, Paid, Some(MonthlySubscription), None, env.now);
    var paid := UpdateInvoice(l, id, Paid, Some(MonthlySubscription), None);
    var storage := EstimateNext(env.catalog, l.sub, env.usedGb).extraStorageGb;
    SyncFramed(Extend(paid.l, l.invoices[id].key, storage, env.firstStamp), env.now, env.secondStamp);
  }

  lemma IssueEvolves(l: Ledger, env: Env)
    ensures var r := IssueRequest(l, env).l; RowsEvolve(l.invoices, r.invoices, env.now) && r == l.(invoices := r.invoices)
  {
    CreateEvolves(l, Invoice(MonthlySubscription, DueDate(PaidUntil(l.sub)), Issued,
                             EstimateNext(env.catalog, l.sub, env.usedGb).totalCents, env.now, env.now,
                             InvoiceLine(env.catalog, l.sub, Some(NextBillingDate(l.sub)), true)), env.now);
  }

  lemma CycleEvolves(l: Ledger, env: Env)
    ensures RowsEvolve(l.invoices, DueCycle(l, env).l.invoices, env.now) && Framed(l, DueCycle(l, env).l, env.now)
  {
    var synced := SyncStatus(ApplyDueChange(l, env.now, env.firstStamp), env.now, env.secondStamp);
    SyncFramed(ApplyDueChange(l, env.now, env.firstStamp), env.now, env.secondStamp);
    RowsStay(l.invoices, env.now);
    IssueEvolves(synced, env);
  }

  /** The retry mark written after a row was turned into a failed one. */
  lemma MarkEvolves(rows: seq<Invoice>, l: Ledger, id: nat, now: Instant)
    requires RowsEvolve(rows, l.invoices, now) && |l.invoices| == |rows| && id < |rows| && Unpaid(l.invoices[id])
    ensures var o := UpdateInvoice(l, id, PaymentFailed, None, Some(now.date));
      && RowsEvolve(rows, o.l.invoices, now) && o.l == l.(invoices := o.l.invoices)
      && (o.Done? ==> id < |o.l.invoices| && o.l.invoices[id].line.retryDate == Some(now.date))
  {
    UpdateEvolves(l, id, PaymentFailed, None, Some(now.date), now);
    EvolveTwice(rows, l.invoices, UpdateInvoice(l, id, PaymentFailed, None, Some(now.date)).l.invoices, now);
  }

  /** A debt turned into a failed one. */
  lemma FailEvolves(l: Ledger, id: nat, kind: Option<Kind>, now: Instant)
    requires id < |l.invoices| && Unpaid(l.invoices[id])
    ensures var o := UpdateInvoice(l, id, PaymentFailed, kind, None);
      && RowsEvolve(l.invoices, o.l.invoices, now) && |o.l.invoices| == |l.invoices| && o.l == l.(invoices := o.l.invoices)
      && (o.Done? ==> Unpaid(o.l.invoices[id]))
  {
    UpdateEvolves(l, id, PaymentFailed, kind, None, now);
  }

  lemma RowsStay(rows: seq<Invoice>, now: Instant)
    ensures RowsEvolve(rows, rows, now)
  {
  }

  lemma RetryFailedEvolves(l: Ledger, env: Env)
    requires LatestUnpaidDebt(l.invoices).Some?
    ensures var r := RetryFailed(l, env); var id := LatestUnpaidDebt(l.invoices).value;
      && RowsEvolve(l.invoices, r.l.invoices, env.now) && Framed(l, r.l, env.now)
      && (r.Done? ==> id < |r.l.invoices| && r.l.invoices[id].line.retryDate == Some(env.now.date))
  {
    var id := LatestUnpaidDebt(l.invoices).value;
    if l.invoices[id].status == Issued {
      var failed := UpdateInvoice(l, id, PaymentFailed, Some(MonthlySubscriptionFailed), None);
      FailEvolves(l, id, Some(MonthlySubscriptionFailed), env.now);
      if failed.Done? {
        SyncFramed(failed.l, env.now, env.firstStamp);
        MarkEvolves(l.invoices, SyncStatus(failed.l, env.now, env.firstStamp), id, env.now);
      }
    } else {
      RowsStay(l.invoices, env.now);
      MarkEvolves(l.invoices, l, id, env.now);
    }
  }

  lemma BillPaidEvolves(l: Ledger, env: Env)
    ensures var r := BillPaid(l, env).l; RowsEvolve(l.invoices, r.invoices, env.now) && Framed(l, r, env.now)
  {
    var requested := Latest(l.invoices, OpenRequests);
    LatestSelects(l.invoices, OpenRequests);
    if requested.Some? {
      SettleDebtEvolves(l, requested.value, env);
    } else {
      var failure := UnansweredFailure(l.invoices);
      var key := if failure.Some? then l.invoices[failure.value].key else DueDate(PaidUntil(l.sub));
      RowsStay(l.invoices, env.now);
      CreateEvolves(l, Invoice(MonthlySubscription, key, Paid, EstimateNext(env.catalog, l.sub, env.usedGb).totalCents,
                               env.now, env.now, InvoiceLine(env.catalog, l.sub, Some(NextBillingDate(l.sub)), false)), env.now);
    }
  }

  lemma BillFailedEvolves(l: Ledger, env: Env)
    ensures var r := BillFailed(l, env).l; RowsEvolve(l.invoices, r.invoices, env.now) && Framed(l, r, env.now)
  {
    var failure := UnansweredFailure(l.invoices);
    var due := if failure.Some? then l.invoices[failure.value].dueAt.date else PaidUntil(l.sub);
    RowsStay(l.invoices, env.now);
    CreateEvolves(l, Invoice(MonthlySubscriptionFailed, DueDate(PaidUntil(l.sub)), PaymentFailed,
                             EstimateNext(env.catalog, l.sub, env.usedGb).totalCents,
                             env.now, Midnight(due), InvoiceLine(env.catalog, l.sub, None, false)), env.now);
  }

  lemma AdvanceEvolves(l: Ledger, env: Env, accepted: bool)
    ensures var r := (if accepted then BillPaid(l, env) else BillFailed(l, env)).l;
      RowsEvolve(l.invoices, r.invoices, env.now) && Framed(l, r, env.now)
  {
    if accepted {
      BillPaidEvolves(l, env);
    } else {
      BillFailedEvolves(l, env);
    }
  }

  lemma SettleFailedEvolves(l: Ledger, id: nat, env: Env)
    requires id < |l.invoices| && Unpaid(l.invoices[id])
    ensures var r := SettleFailed(l, id, env).l; RowsEvolve(l.invoices, r.invoices, env.now) && Framed(l, r, env.now)
  {
    var kind := if HasInvoice(l.invoices, MonthlySubscriptionFailed, l.invoices[id].key)
                then None else Some(MonthlySubscriptionFailed);
    UpdateEvolves(l, id, PaymentFailed, kind, None, env.now);
    SyncFramed(UpdateInvoice(l, id, PaymentFailed, kind, None).l, env.now, env.firstStamp);
  }

  lemma SettleWithDebtEvolves(l: Ledger, env: Env, accepted: bool)
    requires l.present && LatestUnpaidDebt(l.invoices).Some?
    ensures var r := SettleSubscription(l, env, accepted).l; RowsEvolve(l.invoices, r.invoices, env.now) && Framed(l, r, env.now)
  {
    var id := LatestUnpaidDebt(l.invoices).value;
    if accepted {
      SettleDebtEvolves(l, id, env);
    } else {
      SettleFailedEvolves(l, id, env);
    }
  }

  lemma SettleInAdvanceEvolves(l: Ledger, env: Env, accepted: bool)
    requires l.present && LatestUnpaidDebt(l.invoices) == None
    ensures var r := SettleSubscription(l, env, accepted).l; RowsEvolve(l.invoices, r.invoices, env.now) && Framed(l, r, env.now)
  {
    var due := ApplyDueChange(l, env.now, env.firstStamp);
    assert due == l.(sub := due.sub);
    AdvanceEvolves(due, env, accepted);
  }

  lemma SettleEvolves(l: Ledger, env: Env, accepted: bool)
    requires l.present
    ensures var r := SettleSubscription(l, env, accepted).l; RowsEvolve(l.invoices, r.invoices, env.now) && Framed(l, r, env.now)
  {
    if LatestUnpaidDebt(l.invoices).Some? {
      SettleWithDebtEvolves(l, env, accepted);
    } else {
      SettleInAdvanceEvolves(l, env, accepted);
    }
  }

  lemma FailAndMarkEvolves(l: Ledger, id: nat, kind: Option<Kind>, now: Instant)
    requires id < |l.invoices| && Unpaid(l.invoices[id])
    ensures var failed := UpdateInvoice(l, id, PaymentFailed, kind, None);
      && RowsEvolve(l.invoices, failed.l.invoices, now) && failed.l == l.(invoices := failed.l.invoices)
      && var marked := UpdateInvoice(failed.l, id, PaymentFailed, None, Some(now.date));
         failed.Done? ==> RowsEvolve(l.invoices, marked.l.invoices, now) && marked.l == l.(invoices := marked.l.invoices)
  {
    FailEvolves(l, id, kind, now);
    var failed := UpdateInvoice(l, id, PaymentFailed, kind, None);
    if failed.Done? {
      MarkEvolves(l.invoices, failed.l, id, now);
    }
  }

  lemma SimulateFailedEvolves(l: Ledger, id: nat, env: Env)
    requires id < |l.invoices| && Unpaid(l.invoices[id])
    ensures var r := SimulateFailed(l, id, env).l; RowsEvolve(l.invoices, r.invoices, env.now) && Framed(l, r, env.now)
  {
    var i := l.invoices[id];
    var kind := if i.kind == MonthlySubscription && !HasInvoice(l.invoices, MonthlySubscriptionFailed, i.key)
                then Some(MonthlySubscriptionFailed) else None;
    FailAndMarkEvolves(l, id, kind, env.now);
    var failed := UpdateInvoice(l, id, PaymentFailed, kind, None);
    var marked := UpdateInvoice(failed.l, id, PaymentFailed, None, Some(env.now.date));
    if failed.Done? && marked.Done? {
      SyncFramed(marked.l, env.now, env.firstStamp);
    }
  }

  lemma SimulateEvolves(l: Ledger, env: Env, success: bool)
    ensures var r := SimulatePayment(l, env, success).l; RowsEvolve(l.invoices, r.invoices, env.now) && Framed(l, r, env.now)
  {
    var debt := LatestUnpaidDebt(l.invoices);
    RowsStay(l.invoices, env.now);
    if debt.Some? {
      SettleDebtEvolves(l, debt.value, env);
      SimulateFailedEvolves(l, debt.value, env);
    }
  }

  lemma CheckOutEvolves(l: Ledger, env: Env, plan: string, period: Period)
    ensures var r := CheckOut(l, env, plan, period).l; RowsEvolve(l.invoices, r.invoices, env.now) && Framed(l, r, env.now)
  {
    var changed := ChangeNow(l, env, plan, period);
    var unit := MonthlyCharge(PlanOf(env.catalog, plan).priceCents, period);
    RowsStay(l.invoices, env.now);
    CreateEvolves(changed, Invoice(MonthlySubscription, Checkout(env.now.date, env.now.micros / 10_000), Paid,
                                   unit * Multiplier(period), env.now, env.now,
                                   InvoiceLine(env.catalog, changed.sub, None, false)), env.now);
  }

  lemma ChooseEvolves(l: Ledger, env: Env, plan: string, period: Period)
    ensures var r := UpdateSubscription(l, env, plan, period).l; RowsEvolve(l.invoices, r.invoices, env.now) && Framed(l, r, env.now)
  {
    RowsStay(l.invoices, env.now);
    CheckOutEvolves(l, env, plan, period);
  }

  /** The charge a step adds, if any: the daily retry's. */
  function ChargesOf(l: Ledger, s: Step): seq<Charge> {
    if l.present && s.Retry? && RetryApplies(l, s.env.now.date)
    then [Charge(LatestUnpaidDebt(l.invoices).value, s.env.now.date)] else []
  }

  predicate IsBilling(s: Step) {
    !TenantStep(s)
  }

  lemma UpgradeEvolves(l: Ledger, env: Env, plan: string, period: Period)
    ensures var r := Upgrade(l, env, plan, period).l; RowsEvolve(l.invoices, r.invoices, env.now) && Framed(l, r, env.now)
  {
    RowsStay(l.invoices, env.now);
  }

  lemma LifecycleEvolves(l: Ledger, s: Step)
    requires !IsBilling(s)
    ensures Apply(l, s).l.invoices == l.invoices && Apply(l, s).l.charges == l.charges
  {
    if l.present && s.Lifecycle? {
      PassFrame(l, 0, s.at, s.replies);
    }
  }

  /** What any step does to the rows and the charges. */
  lemma StepEvolves(l: Ledger, s: Step)
    ensures RowsEvolve(l.invoices, Apply(l, s).l.invoices, NowOf(s))
    ensures Apply(l, s).l.charges == l.charges + ChargesOf(l, s)
    ensures IsBilling(s) ==> Framed(l, Apply(l, s).l.(charges := l.charges), NowOf(s))
  {
    RowsStay(l.invoices, NowOf(s));
    if !IsBilling(s) {
      LifecycleEvolves(l, s);
    } else if l.present {
      match s
      case Cycle(env) => CycleEvolves(l, env);
      case Retry(env, success) => RetryEvolves(l, env, success);
      case Settle(env, accepted) => SettleEvolves(l, env, accepted);
      case Simulate(env, success) => SimulateEvolves(l, env, success);
      case Choose(env, plan, period) => ChooseEvolves(l, env, plan, period);
      case UpgradeTo(env, plan, period) => UpgradeEvolves(l, env, plan, period);
      case Sync(at, stamp) => SyncFramed(l, at, stamp);
      case Touch(_, _, _, _) => {}
    }
  }

  /** A charged invoice is either paid by the charge or marked with the day. */
  lemma RetryEvolves(l: Ledger, env: Env, success: bool)
    ensures var o := DailyRetry(l, env, success); var id := LatestUnpaidDebt(l.invoices);
      && RowsEvolve(l.invoices, o.l.invoices, env.now)
      && Framed(l, o.l.(charges := l.charges), env.now)
      && o.l.charges == l.charges + (if RetryApplies(l, env.now.date) then [Charge(id.value, env.now.date)] else [])
      && (RetryApplies(l, env.now.date) && o.Done? ==>
            o.l.invoices[id.value].status == Paid || o.l.invoices[id.value].line.retryDate == Some(env.now.date))
  {
    if RetryApplies(l, env.now.date) {
      var id := LatestUnpaidDebt(l.invoices).value;
      var charged := l.(charges := l.charges + [Charge(id, env.now.date)]);
      if success {
        SettleDebtEvolves(charged, id, env);
      } else {
        RetryFailedEvolves(charged, env);
      }
    }
  }

  // ----- over whole runs

  lemma {:induction false} RowsKept(l: Ledger, steps: seq<Step>, more: seq<Step>, i: nat)
    requires i < |After(l, steps).invoices|
    ensures i < |After(l, steps + more).invoices|
    ensures var a, b := After(l, steps).invoices[i], After(l, steps + more).invoices[i];
      && (a.status == Paid ==> b == a)
      && b.key == a.key && b.totalCents == a.totalCents && b.issuedAt == a.issuedAt && b.dueAt == a.dueAt
  {
    if more == [] {
      assert steps + more == steps;
    } else {
      var n := |more| - 1;
      assert (steps + more)[..|steps + more| - 1] == steps + more[..n];
      RowsKept(l, steps, more[..n], i);
      StepEvolves(After(l, steps + more[..n]), more[n]);
    }
  }

  lemma {:induction false} GoneForGood(l: Ledger, steps: seq<Step>, more: seq<Step>)
    requires !After(l, steps).present
    ensures After(l, steps + more) == After(l, steps)
  {
    if more == [] {
      assert steps + more == steps;
    } else {
      var n := |more| - 1;
      assert (steps + more)[..|steps + more| - 1] == steps + more[..n];
      GoneForGood(l, steps, more[..n]);
    }
  }

  /** As long as the tenant is not deleted no run takes a row away or changes a paid one, nor
      the amount, key, issue and due moments of any; with the tenant all rows go for good. */
  lemma PaidForever(l: Ledger, steps: seq<Step>, more: seq<Step>, i: nat)
    requires i < |StoredInvoices(After(l, steps))|
    ensures var before, after := StoredInvoices(After(l, steps)), StoredInvoices(After(l, steps + more));
      if After(l, steps + more).present then
        && i < |after|
        && (before[i].status == Paid ==> after[i] == before[i])
        && after[i].key == before[i].key && after[i].totalCents == before[i].totalCents
        && after[i].issuedAt == before[i].issuedAt && after[i].dueAt == before[i].dueAt
      else forall further: seq<Step> :: StoredInvoices(After(l, steps + more + further)) == []
  {
    RowsKept(l, steps, more, i);
    if !After(l, steps + more).present {
      forall further: seq<Step> ensures StoredInvoices(After(l, steps + more + further)) == [] {
        GoneForGood(l, steps + more, further);
      }
    }
  }

  /** The next billing date written on a request is one period of the request after its key. */
  predicate RequestLine(i: Invoice) {
    && i.line.multiplier == Multiplier(i.line.period)
    && (i.line.paymentRequest ==> i.key.DueDate? && i.line.nextBilling == Some(AddMonthsToDate(i.key.date, i.line.multiplier)))
  }

  lemma {:induction false} RequestsNameNextDate(l: Ledger, steps: seq<Step>)
    requires l.invoices == []
    ensures forall i :: 0 <= i < |After(l, steps).invoices| ==> RequestLine(After(l, steps).invoices[i])
  {
    if steps != [] {
      var before := After(l, steps[..|steps| - 1]);
      var s := steps[|steps| - 1];
      RequestsNameNextDate(l, steps[..|steps| - 1]);
      StepEvolves(before, s);
      LinesKept(before.invoices, After(l, steps).invoices, NowOf(s));
    }
  }

  lemma LinesKept(a: seq<Invoice>, b: seq<Invoice>, now: Instant)
    requires RowsEvolve(a, b, now) && forall i :: 0 <= i < |a| ==> RequestLine(a[i])
    ensures forall i :: 0 <= i < |b| ==> RequestLine(b[i])
  {
    forall i | 0 <= i < |b| ensures RequestLine(b[i]) {
      if i < |a| {
        assert RowEvolves(a[i], b[i], now.date) && RequestLine(a[i]);
      }
    }
  }
}
