/** What every billing operation keeps: one invoice per period, at most one unpaid and that
    for the current paid-until date, and a history of periods without gap or overlap. */
module LedgerInvariant {
  import opened Options
  import opened Calendar
  import opened Instants
  import opened Pricing
  import opened Ledger

  // ----- the invoice table

  ghost predicate KeysDistinct(invoices: seq<Invoice>) {
    forall i, j :: 0 <= i < j < |invoices| ==> invoices[i].key != invoices[j].key
  }

  /** Where an invoice stands relative to the paid-until date. */
  ghost predicate Placed(i: Invoice, until: Date) {
    && (i.kind == MonthlySubscriptionFailed <==> i.status == PaymentFailed)
    && (Unpaid(i) ==> i.key == DueDate(until))
    && (i.status == Paid && i.key.DueDate? ==> Before(i.key.date, until))
  }

  ghost predicate TableOk(invoices: seq<Invoice>, until: Date) {
    && KeysDistinct(invoices)
    && forall i :: 0 <= i < |invoices| ==> Placed(invoices[i], until)
  }

  ghost predicate NoDebt(invoices: seq<Invoice>) {
    forall i :: 0 <= i < |invoices| ==> !Unpaid(invoices[i])
  }

  // ----- the history of the paid-until date

  /** Where the history says coverage ends. */
  function CoveredUntil(history: seq<Coverage>): Date {
    if history == [] then Date(1, 1, 1)
    else
      match history[|history| - 1]
      case Moved(to) => to
      case Billed(key, months) => AddMonthsToDate(key.date, months)
  }

  /** Each bill is for the period that starts where coverage ended, and later than all
      bills before it; only a plan change moves the date otherwise. */
  ghost predicate Contiguous(history: seq<Coverage>) {
    history == [] ||
    (var before, last := history[..|history| - 1], history[|history| - 1];
      && Contiguous(before)
      && (last.Billed? ==>
            && before != [] && last.key == DueDate(CoveredUntil(before)) && Valid(last.key.date) && 1 <= last.months
            && forall d :: d in BilledDates(before) ==> Before(d, last.key.date)))
  }

  function BilledDates(history: seq<Coverage>): set<Date> {
    if history == [] then {}
    else
      var last := history[|history| - 1];
      BilledDates(history[..|history| - 1]) + (if last.Billed? then {last.key.date} else {})
  }

  function PaidDates(invoices: seq<Invoice>): set<Date> {
    set i | 0 <= i < |invoices| && invoices[i].status == Paid && invoices[i].key.DueDate? :: invoices[i].key.date
  }

  ghost predicate HistoryOk(l: Ledger) {
    && l.coverage != [] && Contiguous(l.coverage)
    && PaidUntil(l.sub) == CoveredUntil(l.coverage)
    && PaidDates(l.invoices) == BilledDates(l.coverage)
  }

  ghost predicate Sound(l: Ledger) {
    && Valid(PaidUntil(l.sub))
    && TableOk(l.invoices, PaidUntil(l.sub))
    && HistoryOk(l)
    && (l.sub.scheduled.Some? ==> l.sub.scheduled.value.effective == PaidUntil(l.sub))
  }

  /** A tenant as signing up leaves it. */
  ghost predicate SignedUp(l: Ledger) {
    && l.present && l.invoices == [] && l.cancellations == [] && l.charges == []
    && l.sub.scheduled == None && Valid(PaidUntil(l.sub)) && l.coverage == [Moved(PaidUntil(l.sub))]
  }

  lemma SignedUpSound(l: Ledger)
    requires SignedUp(l)
    ensures Sound(l)
  {
    assert l.coverage[..0] == [];
    assert BilledDates(l.coverage) == {};
  }

  // ----- the ways the table changes

  lemma HistoryGrows(history: seq<Coverage>, event: Coverage)
    ensures CoveredUntil(history + [event]) ==
              (match event case Moved(to) => to case Billed(key, months) => AddMonthsToDate(key.date, months))
    ensures BilledDates(history + [event]) == BilledDates(history) + (if event.Billed? then {event.key.date} else {})
    ensures Contiguous(history + [event]) <==>
              Contiguous(history) &&
              (event.Billed? ==>
                && history != [] && event.key == DueDate(CoveredUntil(history)) && Valid(event.key.date) && 1 <= event.months
                && forall d :: d in BilledDates(history) ==> Before(d, event.key.date))
  {
    assert (history + [event])[..|history|] == history;
  }

  lemma NextPeriodLater(until: Date, period: Period)
    requires Valid(until)
    ensures var next := AddMonthsToDate(until, Multiplier(period)); Valid(next) && Before(until, next)
  {
    AddMonthsLands(until, Multiplier(period));
    AddMonthsZero(until);
    AddMonthsStrictInCount(until, 0, Multiplier(period));
  }

  /** Paid dates lie before the paid-until date. */
  lemma PaidBefore(invoices: seq<Invoice>, until: Date)
    requires TableOk(invoices, until)
    ensures forall d :: d in PaidDates(invoices) ==> Before(d, until)
  {
  }

  /** The rows but one are as before and have other keys. */
  ghost predicate OthersKept(invoices: seq<Invoice>, next: seq<Invoice>, id: nat, key: PeriodKey) {
    forall i :: 0 <= i < |next| && i != id ==> i < |invoices| && next[i] == invoices[i] && next[i].key != key
  }

  /** Adding the current period's paid invoice, or paying the one there is, moves on by a period. */
  lemma TableExtended(invoices: seq<Invoice>, next: seq<Invoice>, id: nat, until: Date, later: Date)
    requires TableOk(invoices, until) && Before(until, later)
    requires id < |next| && next[id].kind == MonthlySubscription && next[id].status == Paid && next[id].key == DueDate(until)
    requires OthersKept(invoices, next, id, DueDate(until))
    requires |invoices| <= |next| && (id < |invoices| ==> Unpaid(invoices[id]))
    ensures TableOk(next, later)
    ensures PaidDates(next) == PaidDates(invoices) + {until}
  {
    forall i | 0 <= i < |next| ensures Placed(next[i], later) {
      if i != id {
        var row := next[i];
        assert i < |invoices| && row == invoices[i];
        assert Placed(row, until);
      }
    }
    forall d | d in PaidDates(next) ensures d in PaidDates(invoices) + {until} {
      var i :| 0 <= i < |next| && next[i].status == Paid && next[i].key.DueDate? && next[i].key.date == d;
      if i != id {
        assert invoices[i].key.date == d;
      }
    }
    forall d | d in PaidDates(invoices) + {until} ensures d in PaidDates(next) {
      if d in PaidDates(invoices) {
        var i :| 0 <= i < |invoices| && invoices[i].status == Paid && invoices[i].key.DueDate? && invoices[i].key.date == d;
        assert next[i].key.date == d;
      } else {
        assert next[id].key.date == d;
      }
    }
  }

  /** Rows that are not paid leave the paid dates as they are. */
  lemma PaidDatesSame(invoices: seq<Invoice>, next: seq<Invoice>)
    requires |invoices| <= |next|
    requires forall i :: 0 <= i < |invoices| ==>
      next[i].key == invoices[i].key && (next[i].status == Paid <==> invoices[i].status == Paid)
    requires forall i :: |invoices| <= i < |next| ==> next[i].status != Paid || !next[i].key.DueDate?
    ensures PaidDates(next) == PaidDates(invoices)
  {
    forall d ensures d in PaidDates(next) <==> d in PaidDates(invoices) {
      if d in PaidDates(next) {
        var i :| 0 <= i < |next| && next[i].status == Paid && next[i].key.DueDate? && next[i].key.date == d;
        assert invoices[i].key.date == d;
      }
      if d in PaidDates(invoices) {
        var i :| 0 <= i < |invoices| && invoices[i].status == Paid && invoices[i].key.DueDate? && invoices[i].key.date == d;
        assert next[i].key.date == d;
      }
    }
  }

  // ----- operations that leave billing alone

  /** Same invoices, dates and schedule; status and cancellations may differ. */
  predicate SameBilling(a: Ledger, b: Ledger) {
    && b.invoices == a.invoices && b.charges == a.charges && b.coverage == a.coverage && b.present == a.present
    && b.sub == a.sub.(status := b.sub.status, updatedAt := b.sub.updatedAt)
  }

  lemma SyncSameBilling(l: Ledger, now: Instant, stamp: Instant)
    ensures SameBilling(l, SyncStatus(l, now, stamp))
  {
  }

  lemma SameBillingSound(a: Ledger, b: Ledger)
    requires Sound(a) && SameBilling(a, b)
    ensures Sound(b)
  {
  }

  // ----- settling

  lemma UpdateNeverConflicts(l: Ledger, id: nat, status: InvoiceStatus, kind: Option<Kind>, retryDate: Option<Date>)
    requires KeysDistinct(l.invoices) && id < |l.invoices|
    ensures var o := UpdateInvoice(l, id, status, kind, retryDate);
      && o.Done? && o.l == l.(invoices := o.l.invoices) && |o.l.invoices| == |l.invoices|
      && (forall i :: 0 <= i < |l.invoices| && i != id ==> o.l.invoices[i] == l.invoices[i])
      && var row := o.l.invoices[id];
         && row.status == status && row.kind == (if kind.Some? then kind.value else l.invoices[id].kind)
         && row == l.invoices[id].(status := status, kind := row.kind, line := row.line)
         && row.line == (if retryDate.Some? then l.invoices[id].line.(retryDate := retryDate) else l.invoices[id].line)
  {
  }

  lemma ExtendSound(l: Ledger, billed: Ledger, id: nat, storage: nat, stamp: Instant)
    requires Sound(l) && billed == l.(invoices := billed.invoices)
    requires id < |billed.invoices|
    requires var row := billed.invoices[id];
      row.kind == MonthlySubscription && row.status == Paid && row.key == DueDate(PaidUntil(l.sub))
    requires OthersKept(l.invoices, billed.invoices, id, DueDate(PaidUntil(l.sub)))
    requires |l.invoices| <= |billed.invoices| && (id < |l.invoices| ==> Unpaid(l.invoices[id]))
    ensures Sound(Extend(billed, DueDate(PaidUntil(l.sub)), storage, stamp))
  {
    var until := PaidUntil(l.sub);
    var key := DueDate(until);
    NextPeriodLater(until, l.sub.period);
    TableExtended(l.invoices, billed.invoices, id, until, NextBillingDate(l.sub));
    PaidBefore(l.invoices, until);
    HistoryGrows(l.coverage, Billed(key, Multiplier(l.sub.period)));
  }

  lemma SettleDebtSound(l: Ledger, id: nat, env: Env)
    requires Sound(l) && id < |l.invoices| && Unpaid(l.invoices[id])
    ensures SettleDebt(l, id, env).Done? && Sound(SettleDebt(l, id, env).l)
  {
    UpdateNeverConflicts(l, id, Paid, Some(MonthlySubscription), None);
    var paid := UpdateInvoice(l, id, Paid, Some(MonthlySubscription), None).l;
    var storage := EstimateNext(env.catalog, l.sub, env.usedGb).extraStorageGb;
    assert Placed(l.invoices[id], PaidUntil(l.sub));
    ExtendSound(l, paid, id, storage, env.firstStamp);
    var extended := Extend(paid, l.invoices[id].key, storage, env.firstStamp);
    SyncSameBilling(extended, env.now, env.secondStamp);
    SameBillingSound(extended, SyncStatus(extended, env.now, env.secondStamp));
  }

  /** A debt that stays unpaid: its status, kind and retry mark change together. */
  lemma FailSound(l: Ledger, next: Ledger, id: nat)
    requires Sound(l) && id < |l.invoices| && Unpaid(l.invoices[id])
    requires next == l.(invoices := next.invoices) && |next.invoices| == |l.invoices|
    requires forall i :: 0 <= i < |l.invoices| && i != id ==> next.invoices[i] == l.invoices[i]
    requires var row := next.invoices[id];
      && row.key == l.invoices[id].key && row.status == PaymentFailed && row.kind == MonthlySubscriptionFailed
    ensures Sound(next)
  {
    PaidDatesSame(l.invoices, next.invoices);
    forall i | 0 <= i < |next.invoices| ensures Placed(next.invoices[i], PaidUntil(l.sub)) {
      assert Placed(l.invoices[i], PaidUntil(l.sub));
    }
  }

  // ----- issuing

  lemma CreateSound(l: Ledger, i: Invoice)
    requires Sound(l) && Placed(i, PaidUntil(l.sub)) && !(i.status == Paid && i.key.DueDate?)
    requires forall k :: 0 <= k < |l.invoices| ==> l.invoices[k].key != i.key
    ensures CreateInvoice(l, i).Done? && Sound(CreateInvoice(l, i).l)
  {
    var next := l.invoices + [i];
    PaidDatesSame(l.invoices, next);
    forall k | 0 <= k < |next| ensures Placed(next[k], PaidUntil(l.sub)) {
      if k < |l.invoices| {
        assert Placed(l.invoices[k], PaidUntil(l.sub));
      }
    }
  }

  /** With neither kind of invoice for the key there is no invoice for it. */
  lemma NoInvoiceForKey(invoices: seq<Invoice>, key: PeriodKey)
    requires !HasInvoice(invoices, MonthlySubscription, key) && !HasInvoice(invoices, MonthlySubscriptionFailed, key)
    ensures forall k :: 0 <= k < |invoices| ==> invoices[k].key != key
  {
    forall k | 0 <= k < |invoices| ensures invoices[k].key != key {
      assert invoices[k].kind == MonthlySubscription || invoices[k].kind == MonthlySubscriptionFailed;
    }
  }

  /** Without debt there is no invoice yet for the current paid-until date. */
  lemma NoDebtNoInvoice(l: Ledger)
    requires Sound(l) && LatestUnpaidDebt(l.invoices) == None
    ensures NoDebt(l.invoices)
    ensures forall k :: 0 <= k < |l.invoices| ==> l.invoices[k].key != DueDate(PaidUntil(l.sub))
  {
    LatestSelects(l.invoices, OpenRequests);
    LatestSelects(l.invoices, FailedDebts);
    forall k | 0 <= k < |l.invoices|
      ensures !Unpaid(l.invoices[k]) && l.invoices[k].key != DueDate(PaidUntil(l.sub))
    {
      assert Placed(l.invoices[k], PaidUntil(l.sub));
      assert !Selects(OpenRequests, l.invoices[k]) && !Selects(FailedDebts, l.invoices[k]);
    }
  }

  // ----- each operation keeps the ledger sound and never meets the uniqueness constraint

  ghost predicate Keeps(l: Ledger, o: Outcome) {
    o.Done? && Sound(o.l)
  }

  lemma ApplyDueChangeSound(l: Ledger, now: Instant, stamp: Instant)
    requires Sound(l)
    ensures var r := ApplyDueChange(l, now, stamp);
      && Sound(r) && r.invoices == l.invoices && r.charges == l.charges && r.coverage == l.coverage
      && PaidUntil(r.sub) == PaidUntil(l.sub)
      && (!Before(now.date, PaidUntil(l.sub)) ==> r.sub.scheduled == None)
  {
  }

  lemma IssueRequestSound(l: Ledger, env: Env)
    requires Sound(l) && !HasInvoice(l.invoices, MonthlySubscriptionFailed, DueDate(PaidUntil(l.sub)))
    ensures Keeps(l, IssueRequest(l, env))
  {
    var key := DueDate(PaidUntil(l.sub));
    if !HasInvoice(l.invoices, MonthlySubscription, key) {
      NoInvoiceForKey(l.invoices, key);
      CreateSound(l, Invoice(MonthlySubscription, key, Issued, EstimateNext(env.catalog, l.sub, env.usedGb).totalCents,
                             env.now, env.now, InvoiceLine(env.catalog, l.sub, Some(NextBillingDate(l.sub)), true)));
    }
  }

  lemma DueCycleSound(l: Ledger, env: Env)
    requires Sound(l)
    ensures Keeps(l, DueCycle(l, env))
  {
    if l.present && l.active {
      var changed := ApplyDueChange(l, env.now, env.firstStamp);
      var synced := SyncStatus(changed, env.now, env.secondStamp);
      ApplyDueChangeSound(l, env.now, env.firstStamp);
      SyncSameBilling(changed, env.now, env.secondStamp);
      SameBillingSound(changed, synced);
      if !HasInvoice(synced.invoices, MonthlySubscriptionFailed, DueDate(PaidUntil(synced.sub))) {
        IssueRequestSound(synced, env);
      }
    }
  }

  lemma ChargeSound(l: Ledger, charge: Charge)
    requires Sound(l)
    ensures Sound(l.(charges := l.charges + [charge]))
  {
  }

  lemma RetryFailedSound(l: Ledger, env: Env)
    requires Sound(l) && LatestUnpaidDebt(l.invoices).Some?
    ensures Keeps(l, RetryFailed(l, env))
  {
    var id := LatestUnpaidDebt(l.invoices).value;
    assert Placed(l.invoices[id], PaidUntil(l.sub));
    var synced := l;
    if l.invoices[id].status == Issued {
      UpdateNeverConflicts(l, id, PaymentFailed, Some(MonthlySubscriptionFailed), None);
      var failed := UpdateInvoice(l, id, PaymentFailed, Some(MonthlySubscriptionFailed), None).l;
      FailSound(l, failed, id);
      SyncSameBilling(failed, env.now, env.firstStamp);
      synced := SyncStatus(failed, env.now, env.firstStamp);
      SameBillingSound(failed, synced);
    }
    UpdateNeverConflicts(synced, id, PaymentFailed, None, Some(env.now.date));
    FailSound(synced, UpdateInvoice(synced, id, PaymentFailed, None, Some(env.now.date)).l, id);
  }

  lemma DailyRetrySound(l: Ledger, env: Env, success: bool)
    requires Sound(l)
    ensures Keeps(l, DailyRetry(l, env, success))
  {
    if RetryApplies(l, env.now.date) {
      var id := LatestUnpaidDebt(l.invoices).value;
      var charged := l.(charges := l.charges + [Charge(id, env.now.date)]);
      ChargeSound(l, Charge(id, env.now.date));
      if success {
        SettleDebtSound(charged, id, env);
      } else {
        RetryFailedSound(charged, env);
      }
    }
  }

  /** Without debt there is no open request and no unanswered failure. */
  lemma NothingOpen(l: Ledger)
    requires Sound(l) && NoDebt(l.invoices)
    ensures Latest(l.invoices, OpenRequests) == None && UnansweredFailure(l.invoices) == None
  {
    LatestSelects(l.invoices, OpenRequests);
    LatestSelects(l.invoices, OfKind(MonthlySubscriptionFailed));
  }

  lemma AdvanceSound(l: Ledger, env: Env, accepted: bool)
    requires Sound(l) && LatestUnpaidDebt(l.invoices) == None
    ensures Keeps(l, if accepted then BillPaid(l, env) else BillFailed(l, env))
  {
    var key := DueDate(PaidUntil(l.sub));
    NoDebtNoInvoice(l);
    NothingOpen(l);
    var estimate := EstimateNext(env.catalog, l.sub, env.usedGb);
    if accepted {
      var i := Invoice(MonthlySubscription, key, Paid, estimate.totalCents, env.now, env.now,
                       InvoiceLine(env.catalog, l.sub, Some(NextBillingDate(l.sub)), false));
      ExtendSound(l, l.(invoices := l.invoices + [i]), |l.invoices|, estimate.extraStorageGb, env.secondStamp);
    } else {
      CreateSound(l, Invoice(MonthlySubscriptionFailed, key, PaymentFailed, estimate.totalCents, env.now,
                             Midnight(PaidUntil(l.sub)), InvoiceLine(env.catalog, l.sub, None, false)));
    }
  }

  lemma SettleFailedSound(l: Ledger, id: nat, env: Env)
    requires Sound(l) && id < |l.invoices| && Unpaid(l.invoices[id])
    ensures Keeps(l, SettleFailed(l, id, env))
  {
    assert Placed(l.invoices[id], PaidUntil(l.sub));
    var kind := if HasInvoice(l.invoices, MonthlySubscriptionFailed, l.invoices[id].key)
                then None else Some(MonthlySubscriptionFailed);
    FailedKind(l, id);
    UpdateNeverConflicts(l, id, PaymentFailed, kind, None);
    var failed := UpdateInvoice(l, id, PaymentFailed, kind, None).l;
    FailSound(l, failed, id);
    SyncSameBilling(failed, env.now, env.firstStamp);
    SameBillingSound(failed, SyncStatus(failed, env.now, env.firstStamp));
  }

  lemma SettleSubscriptionSound(l: Ledger, env: Env, accepted: bool)
    requires Sound(l)
    ensures Keeps(l, SettleSubscription(l, env, accepted))
  {
    var debt := LatestUnpaidDebt(l.invoices);
    if l.present && debt.Some? && accepted {
      SettleDebtSound(l, debt.value, env);
    } else if l.present && debt.Some? {
      SettleFailedSound(l, debt.value, env);
    } else if l.present {
      ApplyDueChangeSound(l, env.now, env.firstStamp);
      AdvanceSound(ApplyDueChange(l, env.now, env.firstStamp), env, accepted);
    }
  }

  /** A failed-kind row for the debt's key can only be the debt itself. */
  lemma FailedKind(l: Ledger, id: nat)
    requires Sound(l) && id < |l.invoices|
    ensures HasInvoice(l.invoices, MonthlySubscriptionFailed, l.invoices[id].key) <==>
            l.invoices[id].kind == MonthlySubscriptionFailed
  {
  }

  lemma SimulatePaymentSound(l: Ledger, env: Env, success: bool)
    requires Sound(l)
    ensures Keeps(l, SimulatePayment(l, env, success))
  {
    var debt := LatestUnpaidDebt(l.invoices);
    if l.present && debt.Some? && success {
      SettleDebtSound(l, debt.value, env);
    } else if l.present && debt.Some? {
      SimulateFailedSound(l, debt.value, env);
    }
  }

  lemma SimulateFailedSound(l: Ledger, id: nat, env: Env)
    requires Sound(l) && id < |l.invoices| && Unpaid(l.invoices[id])
    ensures Keeps(l, SimulateFailed(l, id, env))
  {
    var i := l.invoices[id];
    assert Placed(i, PaidUntil(l.sub));
    FailedKind(l, id);
    var kind := if i.kind == MonthlySubscription && !HasInvoice(l.invoices, MonthlySubscriptionFailed, i.key)
                then Some(MonthlySubscriptionFailed) else None;
    UpdateNeverConflicts(l, id, PaymentFailed, kind, None);
    var failed := UpdateInvoice(l, id, PaymentFailed, kind, None).l;
    FailSound(l, failed, id);
    UpdateNeverConflicts(failed, id, PaymentFailed, None, Some(env.now.date));
    var marked := UpdateInvoice(failed, id, PaymentFailed, None, Some(env.now.date)).l;
    FailSound(failed, marked, id);
    SyncSameBilling(marked, env.now, env.firstStamp);
    SameBillingSound(marked, SyncStatus(marked, env.now, env.firstStamp));
  }

  // ----- immediate plan changes

  /** The latest date billed so far. */
  function LastBilled(history: seq<Coverage>): Option<Date> {
    if history == [] then None
    else
      var last := history[|history| - 1];
      if last.Billed? then Some(last.key.date) else LastBilled(history[..|history| - 1])
  }

  lemma {:induction false} LastBilledIsLast(history: seq<Coverage>)
    requires Contiguous(history)
    ensures var last := LastBilled(history);
      && (last.None? <==> BilledDates(history) == {})
      && (last.Some? ==> last.value in BilledDates(history) && forall d :: d in BilledDates(history) ==> AtMost(d, last.value))
  {
    if history != [] {
      LastBilledIsLast(history[..|history| - 1]);
    }
  }

  /** A plan change that moves the paid-until date keeps the ledger sound exactly when it
      leaves the date where it is, or there is no debt and the new date is later than every
      date billed. */
  lemma MoveSound(l: Ledger, env: Env, plan: string, period: Period)
    requires Sound(l) && Valid(env.now.date) && plan != "free"
    ensures var to := AddMonthsToDate(env.now.date, Multiplier(period)); var last := LastBilled(l.coverage);
      Sound(ChangeNow(l, env, plan, period)) <==>
        || to == PaidUntil(l.sub)
        || (LatestUnpaidDebt(l.invoices) == None && (last.Some? ==> Before(last.value, to)))
  {
    var to := AddMonthsToDate(env.now.date, Multiplier(period));
    var moved := ChangeNow(l, env, plan, period);
    AddMonthsLands(env.now.date, Multiplier(period));
    HistoryGrows(l.coverage, Moved(to));
    LastBilledIsLast(l.coverage);
    if LatestUnpaidDebt(l.invoices) == None {
      NoDebtNoInvoice(l);
      MoveWithoutDebt(l, to);
    } else {
      var i := l.invoices[LatestUnpaidDebt(l.invoices).value];
      assert Placed(i, PaidUntil(l.sub));
      assert Placed(i, to) <==> to == PaidUntil(l.sub);
    }
  }

  lemma MoveWithoutDebt(l: Ledger, to: Date)
    requires Sound(l) && NoDebt(l.invoices)
    ensures TableOk(l.invoices, to) <==> forall d :: d in PaidDates(l.invoices) ==> Before(d, to)
  {
    if forall d :: d in PaidDates(l.invoices) ==> Before(d, to) {
      forall k | 0 <= k < |l.invoices| ensures Placed(l.invoices[k], to) {
        assert Placed(l.invoices[k], PaidUntil(l.sub));
        if l.invoices[k].key.DueDate? {
          assert l.invoices[k].key.date in PaidDates(l.invoices);
        }
      }
    }
    if TableOk(l.invoices, to) {
      PaidBefore(l.invoices, to);
    }
  }
}
