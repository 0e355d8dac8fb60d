/** One tenant's billing rows and what each operation of the billing service makes of them. */
module Ledger {
  import opened Options
  import opened Calendar
  import opened Instants
  import opened Pricing

  // ----- the rows

  datatype Status = Trial | Active | Restricted

  datatype Schedule = Schedule(plan: string, period: Period, effective: Date)

  /** `trialEndsAt` is the paid-until moment; `updatedAt` is stamped by every write. */
  datatype Subscription = Subscription(
    plan: string, period: Period, status: Status, trialEndsAt: Instant, updatedAt: Instant,
    extraKbs: nat, extraStorageGb: nat, scheduled: Option<Schedule>)

  datatype Kind = MonthlySubscription | MonthlySubscriptionFailed

  /** `Paid` stands for the three paid statuses, one per payment provider. */
  datatype InvoiceStatus = Issued | PaymentFailed | Paid

  /** A due date in ISO form, or the digits of the moment of a checkout; the two forms
      never coincide. */
  datatype PeriodKey = DueDate(date: Date) | Checkout(date: Date, centis: int)

  /** The first invoice line, with the retry mark that is merged into it. */
  datatype Line = Line(
    plan: string, period: Period, multiplier: int, unitPriceCents: int,
    nextBilling: Option<Date>, paymentRequest: bool, retryDate: Option<Date>)

  /** An invoice's id is its position in the table. */
  datatype Invoice = Invoice(
    kind: Kind, key: PeriodKey, status: InvoiceStatus, totalCents: int, issuedAt: Instant, dueAt: Instant, line: Line)

  /** Taken back by the owner, or restored by the platform administrator. */
  datatype CancelStatus = DeactivationRequested | RenewalRestored | RestoredByAdmin

  datatype Cancellation = Cancellation(
    requestedAt: Instant, status: CancelStatus, effectiveAt: Instant,
    noticeTwoDays: Option<Instant>, noticeOneDay: Option<Instant>, noticeExpired: Option<Instant>,
    deactivatedAt: Option<Instant>, cleanupAt: Option<Instant>)

  /** An automatic charge attempt of the daily retry. */
  datatype Charge = Charge(invoice: nat, day: Date)

  /** What moved the paid-until date: an invoice settled for some months, or a plan change. */
  datatype Coverage = Billed(key: PeriodKey, months: int) | Moved(to: Date)

  /** Deleting the tenant deletes its rows with it: once `present` is false the tables hold
      none, and the fields keep what they last held.  The last two fields are observations of
      the run, not columns: the charges the payment gateway received from the daily retry, and
      the history of the paid-until date. */
  datatype Ledger = Ledger(
    present: bool, active: bool, sub: Subscription, invoices: seq<Invoice>, cancellations: seq<Cancellation>,
    charges: seq<Charge>, coverage: seq<Coverage>)

  /** The invoices and requests the tables hold of the tenant. */
  function StoredInvoices(l: Ledger): seq<Invoice> {
    if l.present then l.invoices else []
  }

  function StoredRequests(l: Ledger): seq<Cancellation> {
    if l.present then l.cancellations else []
  }

  /** `PaidUntilCleared` marks the one call after which a subscription has no paid-until
      date any more; such subscriptions are outside this model. */
  datatype Error = UniqueViolation | ValueError | PaidUntilCleared

  datatype Outcome = Done(l: Ledger) | Raised(l: Ledger, error: Error) {
    predicate IsFailure() {
      Raised?
    }

    function PropagateFailure(): Outcome
      requires Raised?
    {
      this
    }

    function Extract(): Ledger
      requires Done?
    {
      l
    }
  }

  /** The moments the statements of one operation run at, and the storage the tenant uses; the
      settlement reads that twice, first for the amount it asks the gateway for. */
  datatype Env = Env(catalog: Catalog, now: Instant, firstStamp: Instant, secondStamp: Instant, usedGb: nat, askedGb: nat)

  const FAILURE_DAYS := 30

  function PaidUntil(sub: Subscription): Date {
    sub.trialEndsAt.date
  }

  function DaysBetween(from: Date, to: Date): int {
    DayNumber(to) - DayNumber(from)
  }

  // ----- invoice table

  predicate Unpaid(i: Invoice) {
    i.status == Issued || i.status == PaymentFailed
  }

  datatype Query = OfKind(kind: Kind) | OpenRequests | FailedDebts

  predicate Selects(q: Query, i: Invoice) {
    match q
    case OfKind(kind) => i.kind == kind
    case OpenRequests => i.kind == MonthlySubscription && i.status == Issued
    case FailedDebts => i.status == PaymentFailed
  }

  /** ORDER BY issued_at DESC LIMIT 1; of equally late rows, the one first in the table. */
  function Latest(invoices: seq<Invoice>, q: Query): Option<nat> {
    if invoices == [] then None
    else
      var n := |invoices| - 1;
      var best := Latest(invoices[..n], q);
      if Selects(q, invoices[n]) && (best.None? || (best.value < n && Earlier(invoices[best.value].issuedAt, invoices[n].issuedAt)))
      then Some(n) else best
  }

  predicate HasInvoice(invoices: seq<Invoice>, kind: Kind, key: PeriodKey) {
    exists i :: 0 <= i < |invoices| && invoices[i].kind == kind && invoices[i].key == key
  }

  predicate Conflicts(invoices: seq<Invoice>, id: nat, kind: Kind, key: PeriodKey) {
    exists i :: 0 <= i < |invoices| && i != id && invoices[i].kind == kind && invoices[i].key == key
  }

  /** Unpaid debt: the later of the latest open request and the latest failed debt. */
  function LatestUnpaidDebt(invoices: seq<Invoice>): (r: Option<nat>)
    ensures r.Some? ==> r.value < |invoices| && Unpaid(invoices[r.value])
  {
    LatestSelects(invoices, OpenRequests);
    LatestSelects(invoices, FailedDebts);
    var requested, failed := Latest(invoices, OpenRequests), Latest(invoices, FailedDebts);
    if requested.None? then failed
    else if failed.None? then requested
    else if Earlier(invoices[requested.value].issuedAt, invoices[failed.value].issuedAt) then failed
    else requested
  }

  lemma {:induction false} LatestSelects(invoices: seq<Invoice>, q: Query)
    ensures var r := Latest(invoices, q);
      && (r.Some? ==> r.value < |invoices| && Selects(q, invoices[r.value]))
      && (r.None? ==> forall i :: 0 <= i < |invoices| ==> !Selects(q, invoices[i]))
  {
    if invoices != [] {
      LatestSelects(invoices[..|invoices| - 1], q);
    }
  }

  function CreateInvoice(l: Ledger, i: Invoice): Outcome {
    if HasInvoice(l.invoices, i.kind, i.key) then Raised(l, UniqueViolation)
    else Done(l.(invoices := l.invoices + [i]))
  }

  /** Sets the status, the kind and the retry mark where given; an unknown id changes nothing. */
  function UpdateInvoice(l: Ledger, id: nat, status: InvoiceStatus, kind: Option<Kind>, retryDate: Option<Date>): Outcome {
    if id >= |l.invoices| then Done(l)
    else
      var row := l.invoices[id];
      var newKind := if kind.Some? then kind.value else row.kind;
      var line := if retryDate.Some? then row.line.(retryDate := retryDate) else row.line;
      if Conflicts(l.invoices, id, newKind, row.key) then Raised(l, UniqueViolation)
      else Done(l.(invoices := l.invoices[id := row.(status := status, kind := newKind, line := line)]))
  }

  // ----- status

  function LatestCancellation(cs: seq<Cancellation>): (r: Option<nat>)
    ensures r.None? <==> cs == []
    ensures r.Some? ==> r.value < |cs|
  {
    if cs == [] then None
    else
      var n := |cs| - 1;
      var best := LatestCancellation(cs[..n]);
      if best.None? || NotAfter(cs[best.value].requestedAt, cs[n].requestedAt) then Some(n) else best
  }

  /** The latest of the requests still in force. */
  function LatestInForce(cs: seq<Cancellation>): (r: Option<nat>)
    ensures r.Some? ==> r.value < |cs| && cs[r.value].status == DeactivationRequested
  {
    if cs == [] then None
    else
      var n := |cs| - 1;
      var best := LatestInForce(cs[..n]);
      if cs[n].status == DeactivationRequested && (best.None? || NotAfter(cs[best.value].requestedAt, cs[n].requestedAt))
      then Some(n) else best
  }

  predicate CancellationRequested(cs: seq<Cancellation>) {
    var latest := LatestCancellation(cs);
    latest.Some? && cs[latest.value].status == DeactivationRequested
  }

  /** The latest request has taken effect and access has not been cut yet. */
  predicate CancellationRestricts(cs: seq<Cancellation>, now: Instant) {
    var latest := LatestCancellation(cs);
    && latest.Some?
    && var c := cs[latest.value];
       c.status == DeactivationRequested && c.deactivatedAt.None? && NotAfter(c.effectiveAt, now)
  }

  /** A week after it took effect. */
  predicate CutsAccess(cs: seq<Cancellation>, now: Instant) {
    && CancellationRestricts(cs, now)
    && DaysBetween(cs[LatestCancellation(cs).value].effectiveAt.date, now.date) >= 7
  }

  function StampIfDue(cs: seq<Cancellation>, now: Instant): seq<Cancellation> {
    if !CutsAccess(cs, now) then cs
    else
      var latest := LatestCancellation(cs).value;
      cs[latest := cs[latest].(deactivatedAt := Some(now))]
  }

  predicate FailedAt(invoices: seq<Invoice>, id: Option<nat>) {
    id.Some? && id.value < |invoices| && invoices[id.value].status == PaymentFailed
  }

  /** The failed debt that counts against the tenant: the later of the latest rows of both
      kinds if failed, due before today, and no later paid invoice. */
  function OverdueCandidate(invoices: seq<Invoice>, now: Instant): Option<nat> {
    var failed := Latest(invoices, OfKind(MonthlySubscriptionFailed));
    var monthly := Latest(invoices, OfKind(MonthlySubscription));
    var first := if FailedAt(invoices, monthly) then monthly else None;
    var chosen :=
      if FailedAt(invoices, failed)
         && (first.None? || Earlier(invoices[first.value].issuedAt, invoices[failed.value].issuedAt))
      then failed else first;
    if chosen.None? then None
    else
      var paidAfter := monthly.Some? && monthly.value < |invoices| && invoices[monthly.value].status == Paid
                       && Earlier(invoices[chosen.value].issuedAt, invoices[monthly.value].issuedAt);
      if !paidAfter && Before(invoices[chosen.value].dueAt.date, now.date) then chosen else None
  }

  /** It counts only while the subscription has not been written since it was issued. */
  predicate Overdue(l: Ledger, now: Instant) {
    var candidate := OverdueCandidate(l.invoices, now);
    && candidate.Some? && candidate.value < |l.invoices|
    && !Earlier(l.invoices[candidate.value].issuedAt, l.sub.updatedAt)
  }

  predicate TrialEnded(sub: Subscription, now: Instant) {
    sub.plan == "free" && NotAfter(sub.trialEndsAt, now)
  }

  function TargetStatus(l: Ledger, now: Instant): Status {
    if CancellationRestricts(l.cancellations, now) || Overdue(l, now) || TrialEnded(l.sub, now) then Restricted
    else if l.sub.plan == "free" then Trial
    else Active
  }

  function WithStatus(l: Ledger, status: Status, stamp: Instant): Ledger {
    if status == l.sub.status then l else l.(sub := l.sub.(status := status, updatedAt := stamp))
  }

  function CutAccessIfDue(l: Ledger, now: Instant): Ledger {
    l.(active := l.active && !CutsAccess(l.cancellations, now), cancellations := StampIfDue(l.cancellations, now))
  }

  function DeactivateIfLongOverdue(l: Ledger, now: Instant): Ledger {
    if Overdue(l, now)
       && DaysBetween(l.invoices[OverdueCandidate(l.invoices, now).value].dueAt.date, now.date) >= FAILURE_DAYS
    then l.(active := false) else l
  }

  function SyncStatus(l: Ledger, now: Instant, stamp: Instant): Ledger {
    WithStatus(DeactivateIfLongOverdue(CutAccessIfDue(l, now), now), TargetStatus(l, now), stamp)
  }

  // ----- billing

  datatype Estimate = Estimate(plan: string, period: Period, multiplier: int, baseMonthlyCents: int,
                               addonsMonthlyCents: int, extraStorageGb: nat, totalCents: int)

  function NonNegative(n: int): nat {
    if n < 0 then 0 else n
  }

  /** Priced for the scheduled plan and period when there is one. */
  function EstimateNext(catalog: Catalog, sub: Subscription, usedGb: nat): Estimate {
    var plan := if sub.scheduled.Some? then sub.scheduled.value.plan else sub.plan;
    var period := if sub.scheduled.Some? then sub.scheduled.value.period else sub.period;
    var base := MonthlyCharge(PlanOf(catalog, plan).priceCents, period);
    var storage := NonNegative(usedGb - PlanOf(catalog, sub.plan).includedStorageGb);
    var addons := sub.extraKbs * 500 + storage * 500;
    Estimate(plan, period, Multiplier(period), base, addons, storage,
             base * Multiplier(period) + addons * Multiplier(period))
  }

  function NextBillingDate(sub: Subscription): Date {
    AddMonthsToDate(PaidUntil(sub), Multiplier(sub.period))
  }

  /** The subscription after a payment: extended by the current period, the scheduled plan
      taken over. */
  function Renewed(sub: Subscription, extraStorageGb: nat, stamp: Instant): Subscription {
    sub.(plan := if sub.scheduled.Some? then sub.scheduled.value.plan else sub.plan,
         period := if sub.scheduled.Some? then sub.scheduled.value.period else sub.period,
         status := Active, trialEndsAt := Midnight(NextBillingDate(sub)), updatedAt := stamp,
         extraStorageGb := extraStorageGb, scheduled := None)
  }

  function Extend(l: Ledger, key: PeriodKey, extraStorageGb: nat, stamp: Instant): Ledger {
    l.(sub := Renewed(l.sub, extraStorageGb, stamp),
       coverage := l.coverage + [Billed(key, Multiplier(l.sub.period))],
       active := true)
  }

  function SettleDebt(l: Ledger, id: nat, env: Env): Outcome
    requires id < |l.invoices|
  {
    var key := l.invoices[id].key;
    var paid :- UpdateInvoice(l, id, Paid, Some(MonthlySubscription), None);
    var storage := EstimateNext(env.catalog, l.sub, env.usedGb).extraStorageGb;
    Done(SyncStatus(Extend(paid, key, storage, env.firstStamp), env.now, env.secondStamp))
  }

  function InvoiceLine(catalog: Catalog, sub: Subscription, nextBilling: Option<Date>, request: bool): Line {
    Line(sub.plan, sub.period, Multiplier(sub.period), MonthlyCharge(PlanOf(catalog, sub.plan).priceCents, sub.period),
         nextBilling, request, None)
  }

  /** The unpaid request issued when a period falls due. */
  function IssueRequest(l: Ledger, env: Env): Outcome {
    var key := DueDate(PaidUntil(l.sub));
    var estimate := EstimateNext(env.catalog, l.sub, env.usedGb);
    if l.sub.plan == "free" || l.sub.status == Restricted then Done(l)
    else if HasInvoice(l.invoices, MonthlySubscription, key) then Done(l)
    else if estimate.totalCents <= 0 then Done(l)
    else CreateInvoice(l, Invoice(MonthlySubscription, key, Issued, estimate.totalCents, env.now, env.now,
                                  InvoiceLine(env.catalog, l.sub, Some(NextBillingDate(l.sub)), true)))
  }

  /** A scheduled change takes effect when the paid period is over; the paid-until date stays. */
  function ApplyDueChange(l: Ledger, now: Instant, stamp: Instant): Ledger {
    if l.sub.scheduled.None? then l
    else
      var s := l.sub.scheduled.value;
      if Before(now.date, PaidUntil(l.sub)) || Before(now.date, s.effective) then l
      else l.(sub := l.sub.(plan := s.plan, period := s.period, status := if s.plan == "free" then Trial else Active,
                            scheduled := None, updatedAt := stamp))
  }

  function InvoiceWhenDue(l: Ledger, env: Env): Outcome {
    if l.sub.plan == "free" || l.sub.status == Restricted || CancellationRequested(l.cancellations) then Done(l)
    else if Before(env.now.date, PaidUntil(l.sub)) then Done(l)
    else if HasInvoice(l.invoices, MonthlySubscription, DueDate(PaidUntil(l.sub))) then Done(l)
    else if HasInvoice(l.invoices, MonthlySubscriptionFailed, DueDate(PaidUntil(l.sub))) then Done(l)
    else IssueRequest(l, env)
  }

  /** Renewal, status and invoicing of one active tenant in the due cycle. */
  function DueCycle(l: Ledger, env: Env): Outcome {
    if !l.present || !l.active then Done(l)
    else InvoiceWhenDue(SyncStatus(ApplyDueChange(l, env.now, env.firstStamp), env.now, env.secondStamp), env)
  }

  /** The daily retry: charges the debt, at most once a day and for thirty days. */
  predicate RetryApplies(l: Ledger, today: Date) {
    var debt := LatestUnpaidDebt(l.invoices);
    && l.present && l.active && debt.Some?
    && var i := l.invoices[debt.value];
       DaysBetween(i.dueAt.date, today) < FAILURE_DAYS && i.line.retryDate != Some(today)
  }

  function RetryFailed(l: Ledger, env: Env): Outcome
    requires LatestUnpaidDebt(l.invoices).Some?
  {
    var id := LatestUnpaidDebt(l.invoices).value;
    var failed :- if l.invoices[id].status == Issued
                  then UpdateInvoice(l, id, PaymentFailed, Some(MonthlySubscriptionFailed), None) else Done(l);
    var synced := if l.invoices[id].status == Issued then SyncStatus(failed, env.now, env.firstStamp) else failed;
    UpdateInvoice(synced, id, PaymentFailed, None, Some(env.now.date))
  }

  function DailyRetry(l: Ledger, env: Env, success: bool): Outcome {
    if !RetryApplies(l, env.now.date) then Done(l)
    else
      var id := LatestUnpaidDebt(l.invoices).value;
      var charged := l.(charges := l.charges + [Charge(id, env.now.date)]);
      if success then SettleDebt(charged, id, env) else RetryFailed(charged, env)
  }

  /** A failed debt of an earlier round that no paid invoice has followed. */
  function UnansweredFailure(invoices: seq<Invoice>): Option<nat> {
    var failed, monthly := Latest(invoices, OfKind(MonthlySubscriptionFailed)), Latest(invoices, OfKind(MonthlySubscription));
    if FailedAt(invoices, failed)
       && !(monthly.Some? && monthly.value < |invoices|
            && Earlier(invoices[failed.value].issuedAt, invoices[monthly.value].issuedAt))
    then failed else None
  }

  function BillPaid(l: Ledger, env: Env): Outcome {
    var requested := Latest(l.invoices, OpenRequests);
    if requested.Some? && requested.value < |l.invoices| then SettleDebt(l, requested.value, env)
    else
      var failure := UnansweredFailure(l.invoices);
      var key := if failure.Some? then l.invoices[failure.value].key else DueDate(PaidUntil(l.sub));
      var estimate := EstimateNext(env.catalog, l.sub, env.usedGb);
      var billed :-
        if HasInvoice(l.invoices, MonthlySubscription, key) then Done(l)
        else CreateInvoice(l, Invoice(MonthlySubscription, key, Paid, estimate.totalCents, env.now, env.now,
                                      InvoiceLine(env.catalog, l.sub, Some(NextBillingDate(l.sub)), false)));
      Done(Extend(billed, key, estimate.extraStorageGb, env.secondStamp))
  }

  function BillFailed(l: Ledger, env: Env): Outcome {
    var failure := UnansweredFailure(l.invoices);
    var due := if failure.Some? then l.invoices[failure.value].dueAt.date else PaidUntil(l.sub);
    var key := DueDate(PaidUntil(l.sub));
    if HasInvoice(l.invoices, MonthlySubscriptionFailed, key) then Done(l)
    else CreateInvoice(l, Invoice(MonthlySubscriptionFailed, key, PaymentFailed,
                                  EstimateNext(env.catalog, l.sub, env.usedGb).totalCents, env.now, Midnight(due),
                                  InvoiceLine(env.catalog, l.sub, None, false)))
  }

  /** What the gateway is asked for when the owner pays: the debt, or the estimate as it is
      before a due change is taken over. */
  function AmountAsked(l: Ledger, env: Env): int {
    var debt := LatestUnpaidDebt(l.invoices);
    if debt.Some? then l.invoices[debt.value].totalCents else EstimateNext(env.catalog, l.sub, env.askedGb).totalCents
  }

  /** The owner pays: the debt if there is one, otherwise the coming period in advance. */
  function SettleSubscription(l: Ledger, env: Env, accepted: bool): Outcome {
    var debt := LatestUnpaidDebt(l.invoices);
    if !l.present then Done(l)
    else if debt.Some? then
      if accepted then SettleDebt(l, debt.value, env) else SettleFailed(l, debt.value, env)
    else
      var due := ApplyDueChange(l, env.now, env.firstStamp);
      if accepted then BillPaid(due, env) else BillFailed(due, env)
  }

  function SettleFailed(l: Ledger, id: nat, env: Env): Outcome
    requires id < |l.invoices|
  {
    var i := l.invoices[id];
    var kind := if HasInvoice(l.invoices, MonthlySubscriptionFailed, i.key) then None else Some(MonthlySubscriptionFailed);
    var failed :- UpdateInvoice(l, id, PaymentFailed, kind, None);
    Done(SyncStatus(failed, env.now, env.firstStamp))
  }

  /** The platform's simulation of a payment result. */
  function SimulatePayment(l: Ledger, env: Env, success: bool): Outcome {
    var debt := LatestUnpaidDebt(l.invoices);
    if !l.present || debt.None? then Done(l)
    else if success then SettleDebt(l, debt.value, env)
    else SimulateFailed(l, debt.value, env)
  }

  function SimulateFailed(l: Ledger, id: nat, env: Env): Outcome
    requires id < |l.invoices|
  {
    var i := l.invoices[id];
    var kind := if i.kind == MonthlySubscription && !HasInvoice(l.invoices, MonthlySubscriptionFailed, i.key)
                then Some(MonthlySubscriptionFailed) else None;
    var failed :- UpdateInvoice(l, id, PaymentFailed, kind, None);
    var marked :- UpdateInvoice(failed, id, PaymentFailed, None, Some(env.now.date));
    Done(SyncStatus(marked, env.now, env.firstStamp))
  }

  // ----- plan changes

  /** An immediate change to a paid plan starts a period of its own today. */
  function ChangeNow(l: Ledger, env: Env, plan: string, period: Period): Ledger {
    var changed := l.sub.(plan := plan, period := period, updatedAt := env.firstStamp, scheduled := None);
    if plan == "free" then l.(sub := changed.(status := Trial))
    else
      var paidUntil := AddMonthsToDate(env.now.date, Multiplier(period));
      l.(sub := changed.(status := Active, trialEndsAt := Midnight(paidUntil)),
         coverage := l.coverage + [Moved(paidUntil)])
  }

  /** From the free plan to a paid one, with the invoice of the checkout. */
  function CheckOut(l: Ledger, env: Env, plan: string, period: Period): Outcome {
    var changed := ChangeNow(l, env, plan, period);
    var key := Checkout(env.now.date, env.now.micros / 10_000);
    if HasInvoice(changed.invoices, MonthlySubscription, key) then Done(changed)
    else
      var unit := MonthlyCharge(PlanOf(env.catalog, plan).priceCents, period);
      CreateInvoice(changed, Invoice(MonthlySubscription, key, Paid, unit * Multiplier(period), env.now, env.now,
                                     InvoiceLine(env.catalog, changed.sub, None, false)))
  }

  /** The owner picks a plan: a step down waits for the end of the paid period. */
  function UpdateSubscription(l: Ledger, env: Env, plan: string, period: Period): Outcome {
    if plan !in env.catalog then Raised(l, ValueError)
    else if IsScheduledChange(env.catalog, l.sub.plan, l.sub.period, plan, period) then
      Done(l.(sub := l.sub.(scheduled := Some(Schedule(plan, period, PaidUntil(l.sub))), updatedAt := env.firstStamp)))
    else if plan == "free" then Done(ChangeNow(l, env, plan, period))
    else if l.sub.plan == "free" then CheckOut(l, env, plan, period)
    else Raised(l, PaidUntilCleared)
  }

  /** From one paid plan to a better one; its invoice is of a kind of its own. */
  function Upgrade(l: Ledger, env: Env, plan: string, period: Period): Outcome {
    if plan !in env.catalog || l.sub.plan == "free" || IsDowngrade(env.catalog, l.sub.plan, plan) then Raised(l, ValueError)
    else if l.sub.plan == plan && l.sub.period == period then Done(l)
    else Done(ChangeNow(l, env, plan, period))
  }
}
