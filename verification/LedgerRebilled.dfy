/** What follows when a plan change moves the paid-until date back to a date already billed:
    the one way in which a run leaves the sound ledgers. */
module LedgerRebilled {
  import opened Options
  import opened Calendar
  import opened Instants
  import opened Pricing
  import opened Ledger
  import opened LedgerInvariant
  import opened LedgerRuns
  import opened LedgerBilling
  import opened LedgerRetry

  /** No debt, no change pending, and the period that starts at the paid-until date has its
      invoice already. */
  ghost predicate Rebilled(l: Ledger) {
    && l.present && LatestUnpaidDebt(l.invoices) == None && l.sub.scheduled == None
    && HasInvoice(l.invoices, MonthlySubscription, DueDate(PaidUntil(l.sub)))
  }

  /** A plan change to a date already billed leads there, whatever happened before it. */
  lemma MovedBack(l: Ledger, env: Env, plan: string, period: Period)
    requires Sound(l) && l.present && LatestUnpaidDebt(l.invoices) == None && plan != "free"
    requires AddMonthsToDate(env.now.date, Multiplier(period)) in BilledDates(l.coverage)
    ensures Rebilled(ChangeNow(l, env, plan, period))
  {
    var to := AddMonthsToDate(env.now.date, Multiplier(period));
    assert to in PaidDates(l.invoices);
    var k :| 0 <= k < |l.invoices| && l.invoices[k].status == Paid
      && l.invoices[k].key.DueDate? && l.invoices[k].key.date == to;
    assert Placed(l.invoices[k], PaidUntil(l.sub));
    assert l.invoices[k].kind == MonthlySubscription && l.invoices[k].key == DueDate(to);
  }

  /** The steps other than the owner's payments and plan changes. */
  predicate Passive(s: Step) {
    !s.Settle? && !s.Choose? && !s.UpgradeTo?
  }

  /** The same invoices, charges, plan and paid-until date, and no change pending. */
  ghost predicate Unbilled(l: Ledger, r: Ledger) {
    && r.invoices == l.invoices && r.charges == l.charges && r.sub.plan == l.sub.plan
    && r.sub.trialEndsAt == l.sub.trialEndsAt && r.sub.scheduled == None
  }

  lemma CycleUnbilled(l: Ledger, env: Env)
    requires Rebilled(l)
    ensures Unbilled(l, DueCycle(l, env).l)
  {
    var synced := SyncStatus(l, env.now, env.secondStamp);
    SyncedForInvoicing(l, env.now, env.secondStamp);
    InvoicedExactly(synced, env);
    assert ApplyDueChange(l, env.now, env.firstStamp) == l;
  }

  lemma StepUnbilled(l: Ledger, s: Step)
    requires Rebilled(l) && Passive(s)
    ensures Unbilled(l, Apply(l, s).l)
  {
    if s.Cycle? {
      CycleUnbilled(l, s.env);
    } else if TenantStep(s) {
      TenantStepKeeps(l, s);
    }
  }

  /** However long the jobs run, and whatever happens but a payment or a plan change: no
      invoice is ever added, nothing is ever charged, and the plan is kept. */
  lemma {:induction false} NeverBilledAgain(l: Ledger, steps: seq<Step>)
    requires Rebilled(l) && forall i :: 0 <= i < |steps| ==> Passive(steps[i])
    ensures Unbilled(l, After(l, steps))
  {
    if steps != [] {
      var init, s := steps[..|steps| - 1], steps[|steps| - 1];
      NeverBilledAgain(l, init);
      if After(l, init).present {
        StepUnbilled(After(l, init), s);
      }
    }
  }

  lemma NoFailure(l: Ledger)
    requires LatestUnpaidDebt(l.invoices) == None
    ensures Latest(l.invoices, OpenRequests) == None && UnansweredFailure(l.invoices) == None
    ensures forall i :: 0 <= i < |l.invoices| ==> !Selects(OpenRequests, l.invoices[i]) && !Selects(FailedDebts, l.invoices[i])
  {
    LatestSelects(l.invoices, OpenRequests);
    LatestSelects(l.invoices, FailedDebts);
    LatestSelects(l.invoices, OfKind(MonthlySubscriptionFailed));
  }

  /** A payment the owner makes now extends coverage by a period and leaves no invoice. */
  lemma PaidWithoutInvoice(l: Ledger, env: Env)
    requires Rebilled(l)
    ensures var r := SettleSubscription(l, env, true).l;
      && r.invoices == l.invoices
      && r.sub.trialEndsAt == Midnight(AddMonthsToDate(PaidUntil(l.sub), Multiplier(l.sub.period)))
      && r.coverage == l.coverage + [Billed(DueDate(PaidUntil(l.sub)), Multiplier(l.sub.period))]
  {
    NoFailure(l);
  }

  /** A payment that is refused puts a failed row beside the row of the same key. */
  lemma RefusedBesidePaid(l: Ledger, env: Env)
    requires Rebilled(l) && !HasInvoice(l.invoices, MonthlySubscriptionFailed, DueDate(PaidUntil(l.sub)))
    ensures var r := SettleSubscription(l, env, false).l; var n := |l.invoices|;
      && r == l.(invoices := r.invoices) && |r.invoices| == n + 1 && r.invoices[..n] == l.invoices
      && r.invoices[n].key == DueDate(PaidUntil(l.sub)) && r.invoices[n].dueAt == Midnight(PaidUntil(l.sub))
      && r.invoices[n].line.retryDate == None
      && LatestUnpaidDebt(r.invoices) == Some(n) && DebtConflicts(r, true)
  {
    NoFailure(l);
    var r, n := SettleSubscription(l, env, false).l, |l.invoices|;
    assert r == BillFailed(l, env).l;
    OnlyDebt(r.invoices, n);
    var k :| 0 <= k < n && l.invoices[k].kind == MonthlySubscription && l.invoices[k].key == DueDate(PaidUntil(l.sub));
    assert r.invoices[k] == l.invoices[k];
  }

  lemma OnlyDebt(invoices: seq<Invoice>, n: nat)
    requires |invoices| == n + 1 && invoices[n].status == PaymentFailed
    requires forall i :: 0 <= i < n ==> !Selects(OpenRequests, invoices[i]) && !Selects(FailedDebts, invoices[i])
    ensures LatestUnpaidDebt(invoices) == Some(n)
  {
    LatestSelects(invoices, OpenRequests);
    LatestSelects(invoices, FailedDebts);
  }

  /** From then on every retry the gateway accepts charges the debt, raises and leaves no mark:
      on one day within the retry window any number of charges. */
  lemma ChargedWithoutBound(l: Ledger, refused: Env, retry: Env, n: nat)
    requires Rebilled(l) && l.active && !HasInvoice(l.invoices, MonthlySubscriptionFailed, DueDate(PaidUntil(l.sub)))
    requires DaysBetween(PaidUntil(l.sub), retry.now.date) < FAILURE_DAYS
    ensures After(l, [Settle(refused, false)] + Repeat(n, Retry(retry, true))).charges
         == l.charges + Repeat(n, Charge(|l.invoices|, retry.now.date))
  {
    var r := SettleSubscription(l, refused, false).l;
    RefusedBesidePaid(l, refused);
    assert RetryApplies(r, retry.now.date);
    RetryRaisesExactly(r, retry, true);
    RaisedRetryRepeats(r, retry, true, n);
    StepByStep(l, [], Settle(refused, false));
    assert [] + [Settle(refused, false)] == [Settle(refused, false)];
    AfterBoth(l, [Settle(refused, false)], Repeat(n, Retry(retry, true)));
  }
}
