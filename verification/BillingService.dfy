/** The billing service: the operations of the ledger carried out statement by statement on
    the tables, for one tenant or for all in turn. */
module BillingService {
  import opened Options
  import opened Calendar
  import opened Instants
  import opened Pricing
  import opened Spec = Ledger
  import opened BillingRepository
  import opened Cancellations
  import opened LedgerRuns

  class Service {
    const repo: Repository

    constructor (repo: Repository)
      ensures this.repo == repo
    {
      this.repo := repo;
    }

    // ----- status

    /** The failed debt that counts against the tenant at the moment, if any. */
    method FindOverdue(t: nat, now: Instant) returns (overdue: Option<nat>)
      requires t in repo.tenants
      ensures overdue.Some? <==> Overdue(repo.tenants[t], now)
      ensures overdue.Some? ==> overdue == OverdueCandidate(repo.tenants[t].invoices, now)
    {
      var l := repo.tenants[t];
      var invoices := l.invoices;
      LatestSelects(invoices, OfKind(MonthlySubscriptionFailed));
      LatestSelects(invoices, OfKind(MonthlySubscription));
      var failed := Latest(invoices, OfKind(MonthlySubscriptionFailed));
      var monthly := Latest(invoices, OfKind(MonthlySubscription));
      var openFailed: Option<nat> := None;
      if monthly.Some? && invoices[monthly.value].status == PaymentFailed {
        openFailed := monthly;
      }
      if failed.Some? && invoices[failed.value].status == PaymentFailed {
        if openFailed.None? || Earlier(invoices[openFailed.value].issuedAt, invoices[failed.value].issuedAt) {
          openFailed := failed;
        }
      }
      overdue := None;
      if openFailed.Some? {
        var i := invoices[openFailed.value];
        var paidAfterFailed := false;
        if monthly.Some? && invoices[monthly.value].status == Paid {
          paidAfterFailed := Earlier(i.issuedAt, invoices[monthly.value].issuedAt);
        }
        if !paidAfterFailed && Before(i.dueAt.date, now.date) {
          overdue := openFailed;
        }
      }
      if overdue.Some? && Earlier(invoices[overdue.value].issuedAt, l.sub.updatedAt) {
        overdue := None;
      }
    }

    /** Whether the latest cancellation restricts the tenant; a week after it took effect access is cut. */
    method CheckCancellation(t: nat, now: Instant) returns (restrict: bool)
      requires t in repo.tenants
      modifies repo`tenants
      ensures restrict == CancellationRestricts(old(repo.tenants[t]).cancellations, now)
      ensures repo.tenants == old(repo.tenants)[t := CutAccessIfDue(old(repo.tenants[t]), now)]
    {
      var cs := repo.tenants[t].cancellations;
      restrict := false;
      var latest := LatestCancellation(cs);
      if latest.Some? && cs[latest.value].status == DeactivationRequested {
        var c := cs[latest.value];
        if c.deactivatedAt.None? && NotAfter(c.effectiveAt, now) {
          restrict := true;
          if DaysBetween(c.effectiveAt.date, now.date) >= 7 {
            repo.SetActive(t, false);
            var _ := repo.MarkDeactivated(t, latest.value, now);
          }
        }
      }
    }

    method SyncStatus(t: nat, now: Instant, stamp: Instant)
      requires t in repo.tenants
      modifies repo`tenants
      ensures repo.tenants == old(repo.tenants)[t := Spec.SyncStatus(old(repo.tenants[t]), now, stamp)]
    {
      var restrict := CheckCancellation(t, now);
      var l := repo.tenants[t];
      var overdue := FindOverdue(t, now);
      var status := Resolve(l.sub, overdue.Some?, now);
      if restrict {
        status := Restricted;
      }
      if overdue.Some? && DaysBetween(l.invoices[overdue.value].dueAt.date, now.date) >= FAILURE_DAYS {
        repo.SetActive(t, false);
      }
      if status != l.sub.status {
        repo.UpsertSubscription(t, l.sub.(status := status, updatedAt := stamp));
      }
    }

    /** The check before anything the limits govern: the status is synchronised first. */
    method AssertNotRestricted(t: nat, now: Instant, stamp: Instant) returns (allowed: bool)
      requires t in repo.tenants && repo.tenants[t].present
      modifies repo`tenants
      ensures repo.tenants == old(repo.tenants)[t := Apply(old(repo.tenants[t]), Sync(now, stamp)).l]
      ensures allowed <==> repo.tenants[t].sub.status != Restricted
    {
      SyncStatus(t, now, stamp);
      allowed := repo.tenants[t].sub.status != Restricted;
    }

    function Resolve(sub: Subscription, overdue: bool, now: Instant): Status {
      if overdue then Restricted
      else if sub.plan == "free" then if NotAfter(sub.trialEndsAt, now) then Restricted else Trial
      else Active
    }

    // ----- settling

    method SettleDebtInvoiceAsPaid(t: nat, id: nat, env: Env) returns (error: Option<Error>)
      requires t in repo.tenants && id < |repo.tenants[t].invoices|
      modifies repo`tenants
      ensures var o := SettleDebt(old(repo.tenants[t]), id, env);
        repo.tenants == old(repo.tenants)[t := o.l] && error == ErrorOf(o)
    {
      var sub, key := repo.tenants[t].sub, repo.tenants[t].invoices[id].key;
      error := repo.UpdateInvoicePaymentStatus(t, id, Paid, Some(MonthlySubscription), None);
      if error.None? {
        var estimate := EstimateNext(env.catalog, sub, env.usedGb);
        GrantPeriod(t, key, estimate.extraStorageGb, env.firstStamp);
        SyncStatus(t, env.now, env.secondStamp);
      }
    }

    /** Writes the extended subscription and lets the tenant in again. */
    method GrantPeriod(t: nat, key: PeriodKey, extraStorageGb: nat, stamp: Instant)
      requires t in repo.tenants
      modifies repo`tenants
      ensures repo.tenants == old(repo.tenants)[t := Extend(old(repo.tenants[t]), key, extraStorageGb, stamp)]
    {
      var sub := repo.tenants[t].sub;
      var next := AddMonthsToDate(PaidUntil(sub), Multiplier(sub.period));
      repo.ObserveCoverage(t, Billed(key, Multiplier(sub.period)));
      if sub.scheduled.Some? {
        repo.UpsertSubscription(t, sub.(plan := sub.scheduled.value.plan, period := sub.scheduled.value.period, status := Active,
                                        trialEndsAt := Midnight(next), updatedAt := stamp, extraStorageGb := extraStorageGb,
                                        scheduled := None));
      } else {
        repo.UpsertSubscription(t, sub.(status := Active, trialEndsAt := Midnight(next), updatedAt := stamp,
                                        extraStorageGb := extraStorageGb));
      }
      if !repo.tenants[t].active {
        repo.SetActive(t, true);
      }
    }

    method ApplyDueScheduledPlanChange(t: nat, now: Instant, stamp: Instant)
      requires t in repo.tenants
      modifies repo`tenants
      ensures repo.tenants == old(repo.tenants)[t := ApplyDueChange(old(repo.tenants[t]), now, stamp)]
    {
      var sub := repo.tenants[t].sub;
      if sub.scheduled.None? {
        return;
      }
      var s := sub.scheduled.value;
      if Before(now.date, PaidUntil(sub)) || Before(now.date, s.effective) {
        return;
      }
      var status := if s.plan == "free" then Trial else Active;
      repo.UpsertSubscription(t, sub.(plan := s.plan, period := s.period, status := status, scheduled := None, updatedAt := stamp));
    }

    // ----- the due cycle

    method IssueSubscriptionPaymentRequest(t: nat, env: Env) returns (error: Option<Error>)
      requires t in repo.tenants
      modifies repo`tenants
      ensures var o := IssueRequest(old(repo.tenants[t]), env);
        repo.tenants == old(repo.tenants)[t := o.l] && error == ErrorOf(o)
    {
      error := None;
      var l := repo.tenants[t];
      if l.sub.plan == "free" || l.sub.status == Restricted {
        return;
      }
      var key := DueDate(PaidUntil(l.sub));
      if HasInvoice(l.invoices, MonthlySubscription, key) {
        return;
      }
      var estimate := EstimateNext(env.catalog, l.sub, env.usedGb);
      if estimate.totalCents <= 0 {
        return;
      }
      var next := AddMonthsToDate(PaidUntil(l.sub), Multiplier(l.sub.period));
      error := repo.CreateInvoice(t, Invoice(MonthlySubscription, key, Issued, estimate.totalCents, env.now, env.now,
                                             InvoiceLine(env.catalog, l.sub, Some(next), true)));
    }

    method InvoiceDueTenant(t: nat, env: Env) returns (error: Option<Error>)
      requires t in repo.tenants
      modifies repo`tenants
      ensures var o := InvoiceWhenDue(old(repo.tenants[t]), env);
        repo.tenants == old(repo.tenants)[t := o.l] && error == ErrorOf(o)
    {
      error := None;
      var l := repo.tenants[t];
      if l.sub.plan == "free" || l.sub.status == Restricted {
        return;
      }
      if CancellationRequested(l.cancellations) || Before(env.now.date, PaidUntil(l.sub)) {
        return;
      }
      var key := DueDate(PaidUntil(l.sub));
      if HasInvoice(l.invoices, MonthlySubscription, key) {
        return;
      }
      if HasInvoice(l.invoices, MonthlySubscriptionFailed, key) {
        return;
      }
      error := IssueSubscriptionPaymentRequest(t, env);
    }

    method ProcessTenant(t: nat, env: Env) returns (error: Option<Error>)
      requires t in repo.tenants && repo.tenants[t].present && repo.tenants[t].active
      modifies repo`tenants
      ensures var o := DueCycle(old(repo.tenants[t]), env);
        repo.tenants == old(repo.tenants)[t := o.l] && error == ErrorOf(o)
    {
      ApplyDueScheduledPlanChange(t, env.now, env.firstStamp);
      SyncStatus(t, env.now, env.secondStamp);
      error := InvoiceDueTenant(t, env);
    }

    // ----- the daily retry

    /** `mailed` is whether the owner has an address and the mail server accepts the notice. */
    method RetryTenant(t: nat, env: Env, success: bool, mailed: bool) returns (outcome: RetryOutcome)
      requires t in repo.tenants && repo.tenants[t].present && repo.tenants[t].active
      modifies repo`tenants
      ensures var o := DailyRetry(old(repo.tenants[t]), env, success);
        && repo.tenants == old(repo.tenants)[t := o.l]
        && outcome == RetryOutcomeOf(old(repo.tenants[t]), env, success, mailed)
    {
      var debt := LatestUnpaidDebt(repo.tenants[t].invoices);
      if debt.None? {
        return NotTried;
      }
      var i := repo.tenants[t].invoices[debt.value];
      if DaysBetween(i.dueAt.date, env.now.date) >= FAILURE_DAYS {
        return NotTried;
      }
      if i.line.retryDate == Some(env.now.date) {
        return NotTried;
      }
      outcome := ChargeDebt(t, debt.value, env, success, mailed);
    }

    method ChargeDebt(t: nat, id: nat, env: Env, success: bool, mailed: bool) returns (outcome: RetryOutcome)
      requires t in repo.tenants && RetryApplies(repo.tenants[t], env.now.date)
      requires LatestUnpaidDebt(repo.tenants[t].invoices) == Some(id)
      modifies repo`tenants
      ensures var o := DailyRetry(old(repo.tenants[t]), env, success);
        && repo.tenants == old(repo.tenants)[t := o.l]
        && outcome == RetryOutcomeOf(old(repo.tenants[t]), env, success, mailed)
    {
      ChargedFirst(repo.tenants[t], id, env, success, mailed);
      repo.ObserveCharge(t, Charge(id, env.now.date));
      if success {
        var error := SettleDebtInvoiceAsPaid(t, id, env);
        outcome := if error.Some? then Failed(false) else Collected;
      } else {
        var error, sent := MarkRetryFailed(t, id, env, mailed);
        outcome := if error.Some? then Failed(sent) else Refused(sent);
      }
    }

    /** The notice goes out after the debt is marked as failed and before the retry mark. */
    method MarkRetryFailed(t: nat, id: nat, env: Env, mailed: bool) returns (error: Option<Error>, sent: bool)
      requires t in repo.tenants && LatestUnpaidDebt(repo.tenants[t].invoices) == Some(id)
      modifies repo`tenants
      ensures var l := old(repo.tenants[t]); var o := RetryFailed(l, env);
        && repo.tenants == old(repo.tenants)[t := o.l] && error == ErrorOf(o)
        && sent == (mailed && ReachesNotice(l, id))
    {
      sent := false;
      if repo.tenants[t].invoices[id].status == Issued {
        error := repo.UpdateInvoicePaymentStatus(t, id, PaymentFailed, Some(MonthlySubscriptionFailed), None);
        if error.Some? {
          return;
        }
        SyncStatus(t, env.now, env.firstStamp);
      }
      sent := mailed;
      error := repo.UpdateInvoicePaymentStatus(t, id, PaymentFailed, None, Some(env.now.date));
    }

    // ----- the owner's operations

    /** `asked` is the amount the gateway is asked for. */
    method SettleSubscription(t: nat, env: Env, accepted: bool) returns (error: Option<Error>, asked: int)
      requires t in repo.tenants && repo.tenants[t].present
      modifies repo`tenants
      ensures var o := Spec.SettleSubscription(old(repo.tenants[t]), env, accepted);
        repo.tenants == old(repo.tenants)[t := o.l] && error == ErrorOf(o)
      ensures asked == AmountAsked(old(repo.tenants[t]), env)
    {
      var debt := LatestUnpaidDebt(repo.tenants[t].invoices);
      if debt.Some? {
        asked := repo.tenants[t].invoices[debt.value].totalCents;
        if accepted {
          error := SettleDebtInvoiceAsPaid(t, debt.value, env);
        } else {
          error := FailDebt(t, debt.value, env);
        }
      } else {
        asked := EstimateNext(env.catalog, repo.tenants[t].sub, env.askedGb).totalCents;
        ApplyDueScheduledPlanChange(t, env.now, env.firstStamp);
        if accepted {
          error := CompletePaid(t, env);
        } else {
          error := CompleteFailed(t, env);
        }
      }
    }

    method FailDebt(t: nat, id: nat, env: Env) returns (error: Option<Error>)
      requires t in repo.tenants && id < |repo.tenants[t].invoices|
      modifies repo`tenants
      ensures var o := SettleFailed(old(repo.tenants[t]), id, env);
        repo.tenants == old(repo.tenants)[t := o.l] && error == ErrorOf(o)
    {
      var l := repo.tenants[t];
      var kind := Some(MonthlySubscriptionFailed);
      if HasInvoice(l.invoices, MonthlySubscriptionFailed, l.invoices[id].key) {
        kind := None;
      }
      error := repo.UpdateInvoicePaymentStatus(t, id, PaymentFailed, kind, None);
      if error.None? {
        SyncStatus(t, env.now, env.firstStamp);
      }
    }

    method CompletePaid(t: nat, env: Env) returns (error: Option<Error>)
      requires t in repo.tenants
      modifies repo`tenants
      ensures var o := BillPaid(old(repo.tenants[t]), env);
        repo.tenants == old(repo.tenants)[t := o.l] && error == ErrorOf(o)
    {
      var l := repo.tenants[t];
      LatestSelects(l.invoices, OpenRequests);
      var requested := Latest(l.invoices, OpenRequests);
      if requested.Some? {
        error := SettleDebtInvoiceAsPaid(t, requested.value, env);
        return;
      }
      var key := DueDate(PaidUntil(l.sub));
      var failure := FindUnansweredFailure(t);
      if failure.Some? {
        key := l.invoices[failure.value].key;
      }
      var estimate := EstimateNext(env.catalog, l.sub, env.usedGb);
      var next := AddMonthsToDate(PaidUntil(l.sub), Multiplier(l.sub.period));
      error := None;
      if !HasInvoice(l.invoices, MonthlySubscription, key) {
        error := repo.CreateInvoice(t, Invoice(MonthlySubscription, key, Paid, estimate.totalCents, env.now, env.now,
                                               InvoiceLine(env.catalog, l.sub, Some(next), false)));
      }
      if error.None? {
        GrantPeriod(t, key, estimate.extraStorageGb, env.secondStamp);
      }
    }

    /** The latest failed invoice, unless a monthly one was issued after it. */
    method FindUnansweredFailure(t: nat) returns (failure: Option<nat>)
      requires t in repo.tenants
      ensures failure == UnansweredFailure(repo.tenants[t].invoices)
      ensures failure.Some? ==> failure.value < |repo.tenants[t].invoices|
    {
      var invoices := repo.tenants[t].invoices;
      LatestSelects(invoices, OfKind(MonthlySubscriptionFailed));
      LatestSelects(invoices, OfKind(MonthlySubscription));
      failure := Latest(invoices, OfKind(MonthlySubscriptionFailed));
      if failure.Some? && invoices[failure.value].status != PaymentFailed {
        failure := None;
      }
      var paid := Latest(invoices, OfKind(MonthlySubscription));
      if failure.Some? && paid.Some? {
        if Earlier(invoices[failure.value].issuedAt, invoices[paid.value].issuedAt) {
          failure := None;
        }
      }
    }

    method CompleteFailed(t: nat, env: Env) returns (error: Option<Error>)
      requires t in repo.tenants
      modifies repo`tenants
      ensures var o := BillFailed(old(repo.tenants[t]), env);
        repo.tenants == old(repo.tenants)[t := o.l] && error == ErrorOf(o)
    {
      var l := repo.tenants[t];
      var key := DueDate(PaidUntil(l.sub));
      var due := PaidUntil(l.sub);
      var failure := FindUnansweredFailure(t);
      if failure.Some? {
        due := l.invoices[failure.value].dueAt.date;
      }
      error := None;
      if !HasInvoice(l.invoices, MonthlySubscriptionFailed, key) {
        error := repo.CreateInvoice(t, Invoice(MonthlySubscriptionFailed, key, PaymentFailed,
                                               EstimateNext(env.catalog, l.sub, env.usedGb).totalCents, env.now, Midnight(due),
                                               InvoiceLine(env.catalog, l.sub, None, false)));
      }
    }

    method SimulateTenant(t: nat, env: Env, success: bool, mailed: bool) returns (detail: Option<Detail>)
      requires t in repo.tenants && repo.tenants[t].present
      modifies repo`tenants
      ensures repo.tenants == old(repo.tenants)[t := SimulatePayment(old(repo.tenants[t]), env, success).l]
      ensures detail == SimulateDetail(t, old(repo.tenants[t]), env, success, mailed)
    {
      var debt := LatestUnpaidDebt(repo.tenants[t].invoices);
      if debt.None? {
        return None;
      }
      if success {
        var error := SettleDebtInvoiceAsPaid(t, debt.value, env);
        detail := if error.Some? then None else Some(SimulatedPaid(t, debt.value));
      } else {
        var error := RecordSimulatedFailure(t, debt.value, env);
        detail := if error.Some? then None else Some(SimulatedFailed(t, debt.value, mailed));
      }
    }

    method RecordSimulatedFailure(t: nat, id: nat, env: Env) returns (error: Option<Error>)
      requires t in repo.tenants && id < |repo.tenants[t].invoices|
      modifies repo`tenants
      ensures var o := SimulateFailed(old(repo.tenants[t]), id, env);
        repo.tenants == old(repo.tenants)[t := o.l] && error == ErrorOf(o)
    {
      var l := repo.tenants[t];
      var kind: Option<Kind> := None;
      if l.invoices[id].kind == MonthlySubscription && !HasInvoice(l.invoices, MonthlySubscriptionFailed, l.invoices[id].key) {
        kind := Some(MonthlySubscriptionFailed);
      }
      error := repo.UpdateInvoicePaymentStatus(t, id, PaymentFailed, kind, None);
      if error.None? {
        error := repo.UpdateInvoicePaymentStatus(t, id, PaymentFailed, None, Some(env.now.date));
      }
      if error.None? {
        SyncStatus(t, env.now, env.firstStamp);
      }
    }

    method ApplyImmediatePlanChange(t: nat, env: Env, plan: string, period: Period)
      requires t in repo.tenants
      modifies repo`tenants
      ensures repo.tenants == old(repo.tenants)[t := ChangeNow(old(repo.tenants[t]), env, plan, period)]
    {
      var sub := repo.tenants[t].sub.(plan := plan, period := period, updatedAt := env.firstStamp, scheduled := None);
      if plan == "free" {
        repo.UpsertSubscription(t, sub.(status := Trial));
      } else {
        var paidUntil := AddMonthsToDate(env.now.date, Multiplier(period));
        repo.UpsertSubscription(t, sub.(status := Active, trialEndsAt := Midnight(paidUntil)));
        repo.ObserveCoverage(t, Moved(paidUntil));
      }
    }

    method UpdateSubscription(t: nat, env: Env, plan: string, period: Period) returns (error: Option<Error>)
      requires t in repo.tenants
      modifies repo`tenants
      ensures var o := Spec.UpdateSubscription(old(repo.tenants[t]), env, plan, period);
        repo.tenants == old(repo.tenants)[t := o.l] && error == ErrorOf(o)
    {
      var sub := repo.tenants[t].sub;
      error := None;
      if plan !in env.catalog {
        return Some(ValueError);
      }
      if IsScheduledChange(env.catalog, sub.plan, sub.period, plan, period) {
        repo.UpsertSubscription(t, sub.(scheduled := Some(Schedule(plan, period, PaidUntil(sub))), updatedAt := env.firstStamp));
        return;
      }
      var wasFreeCheckout := sub.plan == "free" && plan != "free";
      if !wasFreeCheckout && plan != "free" {
        return Some(PaidUntilCleared);
      }
      ApplyImmediatePlanChange(t, env, plan, period);
      if wasFreeCheckout {
        var unit := MonthlyCharge(PlanOf(env.catalog, plan).priceCents, period);
        var key := Checkout(env.now.date, env.now.micros / 10_000);
        if !HasInvoice(repo.tenants[t].invoices, MonthlySubscription, key) {
          error := repo.CreateInvoice(t, Invoice(MonthlySubscription, key, Paid, unit * Multiplier(period), env.now, env.now,
                                                 InvoiceLine(env.catalog, repo.tenants[t].sub, None, false)));
        }
      }
    }

    method CompleteUpgrade(t: nat, env: Env, plan: string, period: Period) returns (error: Option<Error>)
      requires t in repo.tenants
      modifies repo`tenants
      ensures var o := Upgrade(old(repo.tenants[t]), env, plan, period);
        repo.tenants == old(repo.tenants)[t := o.l] && error == ErrorOf(o)
    {
      var sub := repo.tenants[t].sub;
      if plan !in env.catalog {
        return Some(ValueError);
      }
      if sub.plan == "free" {
        return Some(ValueError);
      }
      if IsDowngrade(env.catalog, sub.plan, plan) {
        return Some(ValueError);
      }
      error := None;
      if sub.plan != plan || sub.period != period {
        ApplyImmediatePlanChange(t, env, plan, period);
      }
    }

    // ----- cancellation

    method RequestCancellation(t: nat, at: Instant, reasonValid: bool) returns (error: Option<Error>)
      requires t in repo.tenants
      modifies repo`tenants
      ensures var o := Cancel(old(repo.tenants[t]), at, reasonValid);
        repo.tenants == old(repo.tenants)[t := o.l] && error == ErrorOf(o)
    {
      if !reasonValid {
        return Some(ValueError);
      }
      error := None;
      var effective := NextDay(PaidUntil(repo.tenants[t].sub));
      repo.CreateCancellationRequest(t, Cancellation(at, DeactivationRequested, Midnight(effective), None, None, None, None, None));
    }

    method RestoreSubscriptionRenewal(t: nat, now: Instant) returns (error: Option<Error>)
      requires t in repo.tenants
      modifies repo`tenants
      ensures var o := Restore(old(repo.tenants[t]), now);
        repo.tenants == old(repo.tenants)[t := o.l] && error == ErrorOf(o)
    {
      error := None;
      var cs := repo.tenants[t].cancellations;
      var latest := LatestCancellation(cs);
      if latest.None? || cs[latest.value].status != DeactivationRequested {
        return;
      }
      if cs[latest.value].deactivatedAt.Some? {
        return Some(ValueError);
      }
      LatestIsInForce(cs);
      var _ := repo.RestoreLatestCancellation(t, now);
    }

    method DeleteServiceAccess(t: nat, now: Instant, activeKbs: nat) returns (error: Option<Error>)
      requires t in repo.tenants
      modifies repo`tenants
      ensures var o := DeleteAccess(old(repo.tenants[t]), now, activeKbs);
        repo.tenants == old(repo.tenants)[t := o.l] && error == ErrorOf(o)
    {
      error := None;
      if activeKbs > 0 {
        return;
      }
      var cs := repo.tenants[t].cancellations;
      var latest := LatestCancellation(cs);
      if latest.None? || cs[latest.value].status != DeactivationRequested {
        return Some(ValueError);
      }
      if cs[latest.value].deactivatedAt.None? {
        repo.SetActive(t, false);
        var _ := repo.MarkDeactivated(t, latest.value, now);
      }
    }
  }

  /** What the retry did with a tenant; `Failed` is an exception after the charge. */
  datatype RetryOutcome = NotTried | Collected | Refused(mailed: bool) | Failed(mailed: bool)

  /** The refused retry gets as far as writing to the owner. */
  predicate ReachesNotice(l: Spec.Ledger, id: nat) {
    id < |l.invoices|
    && (l.invoices[id].status == Issued ==> UpdateInvoice(l, id, PaymentFailed, Some(MonthlySubscriptionFailed), None).Done?)
  }

  function RetryOutcomeOf(l: Spec.Ledger, env: Env, success: bool, mailed: bool): RetryOutcome {
    if !RetryApplies(l, env.now.date) then NotTried
    else
      var sent := !success && mailed && ReachesNotice(l, LatestUnpaidDebt(l.invoices).value);
      if DailyRetry(l, env, success).Raised? then Failed(sent)
      else if success then Collected else Refused(sent)
  }

  /** The retry charges the debt and then settles it or marks it as failed. */
  lemma ChargedFirst(l: Spec.Ledger, id: nat, env: Env, success: bool, mailed: bool)
    requires RetryApplies(l, env.now.date) && LatestUnpaidDebt(l.invoices) == Some(id)
    ensures var charged := l.(charges := l.charges + [Charge(id, env.now.date)]);
      && DailyRetry(l, env, success) == (if success then SettleDebt(charged, id, env) else RetryFailed(charged, env))
      && RetryOutcomeOf(l, env, success, mailed)
           == (if success then (if SettleDebt(charged, id, env).Raised? then Failed(false) else Collected)
               else
                 var sent := mailed && ReachesNotice(charged, id);
                 if RetryFailed(charged, env).Raised? then Failed(sent) else Refused(sent))
  {
  }

  /** An entry of the simulation's report. */
  datatype Detail = SimulatedPaid(tenant: nat, invoice: nat) | SimulatedFailed(tenant: nat, invoice: nat, mailed: bool)

  function SimulateDetail(t: nat, l: Spec.Ledger, env: Env, success: bool, mailed: bool): Option<Detail> {
    var debt := LatestUnpaidDebt(l.invoices);
    if debt.None? || SimulatePayment(l, env, success).Raised? then None
    else Some(if success then SimulatedPaid(t, debt.value) else SimulatedFailed(t, debt.value, mailed))
  }
}
