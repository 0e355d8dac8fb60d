/** The jobs that go over all tenants: every tenant takes exactly one step of its own run, and
    the metrics add up. */
module BillingJobs {
  import opened Options
  import opened Calendar
  import opened Instants
  import opened Spec = Ledger
  import opened LedgerInvariant
  import opened Cancellations
  import opened LedgerOutcomes
  import opened LedgerRuns
  import opened BillingRepository
  import opened BillingService

  // ----- one step for every tenant

  /** Where a step of each tenant's own leads. */
  function Targets(before: map<nat, Spec.Ledger>, steps: map<nat, Step>): map<nat, Spec.Ledger>
    requires before.Keys <= steps.Keys
  {
    map t | t in before :: Apply(before[t], steps[t]).l
  }

  ghost predicate AllStepped(before: map<nat, Spec.Ledger>, after: map<nat, Spec.Ledger>, steps: map<nat, Step>) {
    before.Keys <= steps.Keys && after == Targets(before, steps)
  }

  /** Names a tenant whose step is to be looked at. */
  ghost predicate Looked(t: nat) {
    true
  }

  /** `targets` is where the steps lead; what a step does is unfolded for tenants looked at only. */
  ghost predicate LeadTo(before: map<nat, Spec.Ledger>, steps: map<nat, Step>, targets: map<nat, Spec.Ledger>) {
    && before.Keys <= steps.Keys && targets.Keys == before.Keys
    && forall t {:trigger Looked(t)} :: Looked(t) && t in before ==> targets[t] == Apply(before[t], steps[t]).l
  }

  lemma TargetsLeadTo(before: map<nat, Spec.Ledger>, steps: map<nat, Step>)
    requires before.Keys <= steps.Keys
    ensures LeadTo(before, steps, Targets(before, steps))
  {
  }

  /** The tenants before position `n` have reached their target. */
  ghost predicate Partway(before: map<nat, Spec.Ledger>, now: map<nat, Spec.Ledger>, ids: seq<nat>, n: nat,
                          targets: map<nat, Spec.Ledger>)
    requires n <= |ids|
  {
    && now.Keys == before.Keys && targets.Keys == before.Keys
    && forall t :: t in before ==> now[t] == (if t in ids[..n] then targets[t] else before[t])
  }

  ghost predicate Distinct(ids: seq<nat>) {
    forall i, j :: 0 <= i < j < |ids| ==> ids[i] != ids[j]
  }

  lemma NotYet(ids: seq<nat>, n: nat)
    requires n < |ids| && Distinct(ids)
    ensures ids[n] !in ids[..n] && ids[..n + 1] == ids[..n] + [ids[n]]
  {
  }

  lemma NextTenant(before: map<nat, Spec.Ledger>, now: map<nat, Spec.Ledger>, next: map<nat, Spec.Ledger>,
                   ids: seq<nat>, n: nat, targets: map<nat, Spec.Ledger>)
    requires n < |ids| && Distinct(ids) && ids[n] in before && Partway(before, now, ids, n, targets)
    requires next == now[ids[n] := targets[ids[n]]]
    ensures Partway(before, next, ids, n + 1, targets)
  {
    NotYet(ids, n);
  }

  /** Nothing happens to a tenant that is gone, nor in the cycle and the retry to an inactive one. */
  lemma IdleStep(l: Spec.Ledger, s: Step)
    requires !l.present || (!l.active && (s.Cycle? || s.Retry?))
    ensures Apply(l, s).l == l
  {
  }

  lemma UnlistedIdle(before: map<nat, Spec.Ledger>, rows: seq<nat>, activeOnly: bool, steps: map<nat, Step>)
    requires before.Keys <= steps.Keys && forall t :: t in rows <==> t in before
    requires activeOnly ==> forall t :: t in before ==> steps[t].Cycle? || steps[t].Retry?
    ensures forall t :: t in before && t !in Listed(before, rows, activeOnly) ==> Targets(before, steps)[t] == before[t]
  {
    forall t | t in before && t !in Listed(before, rows, activeOnly) ensures Targets(before, steps)[t] == before[t] {
      IdleStep(before[t], steps[t]);
    }
  }

  /** When the listed tenants have reached their targets and nothing happens to the others, all have. */
  lemma AllDone(before: map<nat, Spec.Ledger>, after: map<nat, Spec.Ledger>, ids: seq<nat>, targets: map<nat, Spec.Ledger>)
    requires Partway(before, after, ids, |ids|, targets)
    requires forall t :: t in before && t !in ids ==> targets[t] == before[t]
    ensures after == targets
  {
    assert ids[..|ids|] == ids;
  }

  function CycleSteps(envs: map<nat, Env>): map<nat, Step> {
    map t | t in envs :: Cycle(envs[t])
  }

  function RetrySteps(envs: map<nat, Env>, pays: set<nat>): map<nat, Step> {
    map t | t in envs :: Retry(envs[t], t in pays)
  }

  function SimulateSteps(envs: map<nat, Env>, success: bool): map<nat, Step> {
    map t | t in envs :: Simulate(envs[t], success)
  }

  function LifecycleSteps(now: Instant, replies: map<nat, seq<Reply>>): map<nat, Step> {
    map t | t in replies :: Lifecycle(now, replies[t])
  }

  /** A whole sweep of the jobs keeps every tenant sound. */
  lemma SweepSound(before: map<nat, Spec.Ledger>, after: map<nat, Spec.Ledger>, steps: map<nat, Step>)
    requires AllStepped(before, after, steps)
    requires forall t :: t in before ==>
      Sound(before[t]) && !steps[t].Choose? && !steps[t].UpgradeTo? && Valid(NowOf(steps[t]).date)
    ensures forall t :: t in after ==> Sound(after[t])
  {
    forall t | t in after ensures Sound(after[t]) {
      StepSound(before[t], steps[t]);
    }
  }

  // ----- metrics of the retry

  datatype Metrics = Metrics(retried: nat, paid: nat, failed: nat, emailsSent: nat, skipped: nat)

  function Counted(m: Metrics, outcome: RetryOutcome): Metrics {
    match outcome
    case NotTried => m.(skipped := m.skipped + 1)
    case Collected => m.(retried := m.retried + 1, paid := m.paid + 1)
    case Refused(mailed) =>
      m.(retried := m.retried + 1, failed := m.failed + 1, emailsSent := m.emailsSent + (if mailed then 1 else 0))
    case Failed(mailed) =>
      m.(retried := m.retried + 1, skipped := m.skipped + 1, emailsSent := m.emailsSent + (if mailed then 1 else 0))
  }

  /** Which payments and which notices would be accepted, by tenant. */
  datatype Gateway = Gateway(pays: set<nat>, mails: set<nat>)

  /** What the retry does with each tenant. */
  function Outcomes(tenants: map<nat, Spec.Ledger>, envs: map<nat, Env>, gateway: Gateway): map<nat, RetryOutcome>
    requires forall t :: t in tenants ==> t in envs
  {
    map t | t in tenants :: RetryOutcomeOf(tenants[t], envs[t], t in gateway.pays, t in gateway.mails)
  }

  ghost predicate AreOutcomes(before: map<nat, Spec.Ledger>, envs: map<nat, Env>, gateway: Gateway,
                              outcomes: map<nat, RetryOutcome>)
  {
    && outcomes.Keys == before.Keys && before.Keys <= envs.Keys
    && forall t {:trigger Looked(t)} :: Looked(t) && t in before ==>
         outcomes[t] == RetryOutcomeOf(before[t], envs[t], t in gateway.pays, t in gateway.mails)
  }

  function Tally(outcomes: map<nat, RetryOutcome>, ids: seq<nat>): Metrics
    requires forall t :: t in ids ==> t in outcomes
  {
    if ids == [] then Metrics(0, 0, 0, 0, 0)
    else Counted(Tally(outcomes, ids[..|ids| - 1]), outcomes[ids[|ids| - 1]])
  }

  lemma TallyGrows(outcomes: map<nat, RetryOutcome>, ids: seq<nat>, n: nat)
    requires n < |ids| && forall t :: t in ids ==> t in outcomes
    ensures Tally(outcomes, ids[..n + 1]) == Counted(Tally(outcomes, ids[..n]), outcomes[ids[n]])
  {
    assert ids[..n + 1][..n] == ids[..n];
  }

  /** The counters fit together for `n` tenants, of which all or not all have sound ledgers
      and accept their mail. */
  predicate AddsUp(m: Metrics, n: nat, sound: bool, mailed: bool) {
    && m.paid + m.failed + m.skipped == n && m.paid + m.failed <= m.retried <= n
    && (sound ==> m.retried == m.paid + m.failed && m.emailsSent <= m.failed)
    && (sound && mailed ==> m.emailsSent == m.failed)
  }

  lemma CountedAddsUp(m: Metrics, n: nat, outcome: RetryOutcome, sound: bool, mailed: bool)
    requires AddsUp(m, n, sound, mailed)
    requires Expected(outcome, sound, mailed)
    ensures AddsUp(Counted(m, outcome), n + 1, sound, mailed)
  {
  }

  /** Every tenant listed is paid, failed or skipped; with sound ledgers every charge is one or
      the other, and the owner is written to for refused ones only, for each whose mail is accepted. */
  lemma TallyAddsUp(tenants: map<nat, Spec.Ledger>, ids: seq<nat>, envs: map<nat, Env>, gateway: Gateway,
                    sound: bool, mailed: bool)
    requires (forall t :: t in tenants ==> t in envs) && forall t :: t in ids ==> t in tenants
    requires sound ==> forall t :: t in ids ==> Sound(tenants[t])
    requires mailed ==> forall t :: t in ids ==> t in gateway.mails
    ensures AddsUp(Tally(Outcomes(tenants, envs, gateway), ids), |ids|, sound, mailed)
  {
    var outcomes := Outcomes(tenants, envs, gateway);
    forall t | t in ids ensures Expected(outcomes[t], sound, mailed) {
      OutcomeExpected(tenants, envs, gateway, t, sound, mailed);
    }
    TallyPrefix(outcomes, ids, |ids|, sound, mailed);
    assert ids[..|ids|] == ids;
  }

  lemma OutcomeExpected(tenants: map<nat, Spec.Ledger>, envs: map<nat, Env>, gateway: Gateway, t: nat,
                        sound: bool, mailed: bool)
    requires (forall u :: u in tenants ==> u in envs) && t in tenants
    requires (sound ==> Sound(tenants[t])) && (mailed ==> t in gateway.mails)
    ensures Expected(Outcomes(tenants, envs, gateway)[t], sound, mailed)
  {
    if sound {
      SoundNeverFails(tenants[t], envs[t], t in gateway.pays, t in gateway.mails);
    }
  }

  predicate Expected(outcome: RetryOutcome, sound: bool, mailed: bool) {
    sound ==> !outcome.Failed? && (outcome.Refused? && mailed ==> outcome.mailed)
  }

  lemma {:induction false} TallyPrefix(outcomes: map<nat, RetryOutcome>, ids: seq<nat>, n: nat, sound: bool, mailed: bool)
    requires n <= |ids| && forall t :: t in ids ==> t in outcomes && Expected(outcomes[t], sound, mailed)
    ensures AddsUp(Tally(outcomes, ids[..n]), n, sound, mailed)
  {
    if n > 0 {
      TallyPrefix(outcomes, ids, n - 1, sound, mailed);
      TallyGrows(outcomes, ids, n - 1);
      CountedAddsUp(Tally(outcomes, ids[..n - 1]), n - 1, outcomes[ids[n - 1]], sound, mailed);
    }
  }

  lemma SoundNeverFails(l: Spec.Ledger, env: Env, success: bool, mailed: bool)
    requires Sound(l)
    ensures var outcome := RetryOutcomeOf(l, env, success, mailed);
      !outcome.Failed? && (outcome.Refused? ==> outcome.mailed == mailed)
  {
    DailyRetrySound(l, env, success);
    if RetryApplies(l, env.now.date) {
      UpdateNeverConflicts(l, LatestUnpaidDebt(l.invoices).value, PaymentFailed, Some(MonthlySubscriptionFailed), None);
    }
  }

  // ----- who is counted where

  /** The tenant has a debt to be charged today. */
  ghost predicate IsDue(l: Spec.Ledger, today: Date) {
    exists id: nat :: Chargeable(l, id, today)
  }

  lemma OutcomeExactly(l: Spec.Ledger, env: Env, success: bool, mailed: bool)
    requires Sound(l)
    ensures RetryOutcomeOf(l, env, success, mailed) ==
              if !IsDue(l, env.now.date) then NotTried else if success then Collected else Refused(mailed)
  {
    if IsDue(l, env.now.date) {
      var id: nat :| Chargeable(l, id, env.now.date);
      RetryOfCharged(l, env, success, id);
      SoundNeverFails(l, env, success, mailed);
      DailyRetrySound(l, env, success);
    } else {
      var debt := LatestUnpaidDebt(l.invoices);
      if debt.Some? {
        assert !Chargeable(l, debt.value, env.now.date);
      }
    }
  }

  function Collecteds(outcomes: map<nat, RetryOutcome>, ids: seq<nat>): set<nat> {
    set t | t in ids && t in outcomes && outcomes[t].Collected?
  }

  function Refusals(outcomes: map<nat, RetryOutcome>, ids: seq<nat>): set<nat> {
    set t | t in ids && t in outcomes && outcomes[t].Refused?
  }

  lemma NextCounted(outcomes: map<nat, RetryOutcome>, ids: seq<nat>, n: nat)
    requires n < |ids| && Distinct(ids) && forall t :: t in ids ==> t in outcomes
    ensures var t, before, after := ids[n], ids[..n], ids[..n + 1];
      && t !in before
      && Collecteds(outcomes, after) == Collecteds(outcomes, before) + (if outcomes[t].Collected? then {t} else {})
      && Refusals(outcomes, after) == Refusals(outcomes, before) + (if outcomes[t].Refused? then {t} else {})
  {
    NotYet(ids, n);
  }

  lemma {:induction false} TallyCounts(outcomes: map<nat, RetryOutcome>, ids: seq<nat>, n: nat)
    requires n <= |ids| && Distinct(ids) && forall t :: t in ids ==> t in outcomes
    ensures var m := Tally(outcomes, ids[..n]);
      m.paid == |Collecteds(outcomes, ids[..n])| && m.failed == |Refusals(outcomes, ids[..n])|
  {
    if n > 0 {
      TallyCounts(outcomes, ids, n - 1);
      TallyGrows(outcomes, ids, n - 1);
      NextCounted(outcomes, ids, n - 1);
    }
  }

  /** The tenants with a debt to be charged. */
  ghost function Debtful(tenants: map<nat, Spec.Ledger>, ids: seq<nat>, envs: map<nat, Env>): set<nat> {
    set t | t in ids && t in tenants && t in envs && IsDue(tenants[t], envs[t].now.date)
  }

  lemma OutcomesExactly(tenants: map<nat, Spec.Ledger>, ids: seq<nat>, envs: map<nat, Env>, gateway: Gateway,
                        outcomes: map<nat, RetryOutcome>, due: set<nat>)
    requires (forall t :: t in tenants ==> t in envs) && forall t :: t in ids ==> t in tenants && Sound(tenants[t])
    requires outcomes == Outcomes(tenants, envs, gateway) && due == Debtful(tenants, ids, envs)
    ensures forall t :: t in ids ==>
      t in outcomes && outcomes[t] == if t !in due then NotTried else if t in gateway.pays then Collected
                                      else Refused(t in gateway.mails)
  {
    forall t | t in ids
      ensures outcomes[t] == if t !in due then NotTried else if t in gateway.pays then Collected else Refused(t in gateway.mails)
    {
      OutcomeExactly(tenants[t], envs[t], t in gateway.pays, t in gateway.mails);
    }
  }

  lemma Partition(ids: seq<nat>, gateway: Gateway, outcomes: map<nat, RetryOutcome>, due: set<nat>)
    requires forall t :: t in due ==> t in ids
    requires forall t :: t in ids ==>
      t in outcomes && outcomes[t] == if t !in due then NotTried else if t in gateway.pays then Collected
                                      else Refused(t in gateway.mails)
    ensures Collecteds(outcomes, ids) == due * gateway.pays && Refusals(outcomes, ids) == due - gateway.pays
  {
  }

  /** With sound ledgers the retry counts as paid the tenants with a debt to be charged whose
      payment is accepted, as failed those whose payment is not, and as skipped all others. */
  lemma TallyExactly(tenants: map<nat, Spec.Ledger>, ids: seq<nat>, envs: map<nat, Env>, gateway: Gateway)
    requires (forall t :: t in tenants ==> t in envs) && Distinct(ids)
    requires forall t :: t in ids ==> t in tenants && Sound(tenants[t])
    ensures var m, due := Tally(Outcomes(tenants, envs, gateway), ids), Debtful(tenants, ids, envs);
      && m.paid == |due * gateway.pays| && m.failed == |due - gateway.pays|
      && m.retried == m.paid + m.failed && m.skipped == |ids| - m.retried
  {
    var outcomes := Outcomes(tenants, envs, gateway);
    TallyCounts(outcomes, ids, |ids|);
    TallyAddsUp(tenants, ids, envs, gateway, true, false);
    assert ids[..|ids|] == ids;
    OutcomesExactly(tenants, ids, envs, gateway, outcomes, Debtful(tenants, ids, envs));
    Partition(ids, gateway, outcomes, Debtful(tenants, ids, envs));
  }

  // ----- the report of the simulation

  /** What the simulation reports of each tenant. */
  function Reports(tenants: map<nat, Spec.Ledger>, envs: map<nat, Env>, success: bool, mails: set<nat>)
    : map<nat, Option<Detail>>
    requires forall t :: t in tenants ==> t in envs
  {
    map t | t in tenants :: SimulateDetail(t, tenants[t], envs[t], success, t in mails)
  }

  ghost predicate AreReports(before: map<nat, Spec.Ledger>, envs: map<nat, Env>, success: bool, mails: set<nat>,
                             reports: map<nat, Option<Detail>>) {
    && reports.Keys == before.Keys && before.Keys <= envs.Keys
    && forall t {:trigger Looked(t)} :: Looked(t) && t in before ==>
         reports[t] == SimulateDetail(t, before[t], envs[t], success, t in mails)
  }

  function Details(reports: map<nat, Option<Detail>>, ids: seq<nat>): seq<Detail>
    requires forall t :: t in ids ==> t in reports
  {
    if ids == [] then []
    else
      var detail := reports[ids[|ids| - 1]];
      Details(reports, ids[..|ids| - 1]) + (if detail.Some? then [detail.value] else [])
  }

  lemma DetailsGrow(reports: map<nat, Option<Detail>>, ids: seq<nat>, n: nat)
    requires n < |ids| && forall t :: t in ids ==> t in reports
    ensures var detail := reports[ids[n]];
      Details(reports, ids[..n + 1]) == Details(reports, ids[..n]) + (if detail.Some? then [detail.value] else [])
  {
    assert ids[..n + 1][..n] == ids[..n];
  }

  /** With sound ledgers the report has one entry for each tenant listed that is in debt, and
      names its debt, and of a failed one whether the owner's mail was accepted. */
  lemma {:induction false} ReportIsTheDebtors(tenants: map<nat, Spec.Ledger>, ids: seq<nat>, envs: map<nat, Env>, success: bool,
                                              mails: set<nat>)
    requires forall t :: t in tenants ==> t in envs
    requires forall t :: t in ids ==> t in tenants && tenants[t].present && Sound(tenants[t])
    ensures forall d :: d in Details(Reports(tenants, envs, success, mails), ids) ==>
              && d.tenant in ids && LatestUnpaidDebt(tenants[d.tenant].invoices) == Some(d.invoice) && d.SimulatedPaid? == success
              && (d.SimulatedFailed? ==> d.mailed == (d.tenant in mails))
    ensures |Details(Reports(tenants, envs, success, mails), ids)| == Debtors(tenants, ids)
  {
    if ids != [] {
      var n := |ids| - 1;
      ReportIsTheDebtors(tenants, ids[..n], envs, success, mails);
      SoundReport(ids[n], tenants[ids[n]], envs[ids[n]], success, ids[n] in mails);
    }
  }

  lemma SoundReport(t: nat, l: Spec.Ledger, env: Env, success: bool, mailed: bool)
    requires l.present && Sound(l)
    ensures var detail := SimulateDetail(t, l, env, success, mailed); var debt := LatestUnpaidDebt(l.invoices);
      && (detail.Some? <==> debt.Some?)
      && (detail.Some? ==>
            && detail.value.tenant == t && debt == Some(detail.value.invoice) && detail.value.SimulatedPaid? == success
            && (detail.value.SimulatedFailed? ==> detail.value.mailed == mailed))
  {
    SimulatePaymentSound(l, env, success);
  }

  function Debtors(tenants: map<nat, Spec.Ledger>, ids: seq<nat>): nat
    requires forall t :: t in ids ==> t in tenants
  {
    if ids == [] then 0
    else Debtors(tenants, ids[..|ids| - 1]) + (if LatestUnpaidDebt(tenants[ids[|ids| - 1]].invoices).Some? then 1 else 0)
  }

  // ----- metrics of the lifecycle

  function Notices(c: Cancellation): nat {
    (if c.noticeTwoDays.Some? then 1 else 0) + (if c.noticeOneDay.Some? then 1 else 0) + (if c.noticeExpired.Some? then 1 else 0)
  }

  function Stamps(c: Cancellation): nat {
    if c.deactivatedAt.Some? then 1 else 0
  }

  function Total(cs: seq<Cancellation>, f: Cancellation -> nat): nat {
    if cs == [] then 0 else Total(cs[..|cs| - 1], f) + f(cs[|cs| - 1])
  }

  lemma {:induction false} TotalUpdate(cs: seq<Cancellation>, id: nat, c: Cancellation, f: Cancellation -> nat)
    requires id < |cs|
    ensures Total(cs[id := c], f) == Total(cs, f) - f(cs[id]) + f(c)
  {
    var n := |cs| - 1;
    if id == n {
      assert cs[id := c][..n] == cs[..n];
    } else {
      assert cs[id := c][..n] == cs[..n][id := c];
      TotalUpdate(cs[..n], id, c, f);
    }
  }

  predicate HasTwoDays(c: Cancellation) {
    c.noticeTwoDays != None
  }

  predicate HasOneDay(c: Cancellation) {
    c.noticeOneDay != None
  }

  predicate HasExpired(c: Cancellation) {
    c.noticeExpired != None
  }

  predicate HasStamp(c: Cancellation) {
    c.deactivatedAt != None
  }

  /** What is counted: the requests with each of the three notices, and those with a stamp. */
  lemma {:induction false} TotalsCounted(cs: seq<Cancellation>)
    ensures Total(cs, Notices) == |With(cs, HasTwoDays)| + |With(cs, HasOneDay)| + |With(cs, HasExpired)|
    ensures Total(cs, Stamps) == |With(cs, HasStamp)|
  {
    if cs != [] {
      TotalsCounted(cs[..|cs| - 1]);
      OneMoreWith(cs, HasTwoDays);
      OneMoreWith(cs, HasOneDay);
      OneMoreWith(cs, HasExpired);
      OneMoreWith(cs, HasStamp);
    }
  }

  function With(cs: seq<Cancellation>, p: Cancellation -> bool): set<int> {
    set k | 0 <= k < |cs| && p(cs[k])
  }

  lemma OneMoreWith(cs: seq<Cancellation>, p: Cancellation -> bool)
    requires cs != []
    ensures var n := |cs| - 1;
      |With(cs, p)| == |With(cs[..n], p)| + (if p(cs[n]) then 1 else 0)
  {
    var n := |cs| - 1;
    assert With(cs, p) == With(cs[..n], p) + (if p(cs[n]) then {n} else {});
  }

  datatype LifecycleMetrics = LifecycleMetrics(emailsSent: int, deactivated: int, deleted: int)

  /** The difference the pass made to one tenant: notices and stamps recorded, tenant gone. */
  function Recorded(before: Spec.Ledger, after: Spec.Ledger): LifecycleMetrics {
    LifecycleMetrics(Total(after.cancellations, Notices) - Total(before.cancellations, Notices),
                     Total(after.cancellations, Stamps) - Total(before.cancellations, Stamps),
                     if before.present && !after.present then 1 else 0)
  }

  function Plus(a: LifecycleMetrics, b: LifecycleMetrics): LifecycleMetrics {
    LifecycleMetrics(a.emailsSent + b.emailsSent, a.deactivated + b.deactivated, a.deleted + b.deleted)
  }

  function RecordedSum(before: map<nat, Spec.Ledger>, after: map<nat, Spec.Ledger>, ids: seq<nat>): LifecycleMetrics
    requires forall t :: t in ids ==> t in before && t in after
  {
    if ids == [] then LifecycleMetrics(0, 0, 0)
    else
      var t := ids[|ids| - 1];
      Plus(RecordedSum(before, after, ids[..|ids| - 1]), Recorded(before[t], after[t]))
  }

  lemma {:induction false} SumUnaffected(before: map<nat, Spec.Ledger>, a: map<nat, Spec.Ledger>, b: map<nat, Spec.Ledger>,
                                         ids: seq<nat>)
    requires forall t :: t in ids ==> t in before && t in a && t in b && b[t] == a[t]
    ensures RecordedSum(before, a, ids) == RecordedSum(before, b, ids)
  {
    if ids != [] {
      SumUnaffected(before, a, b, ids[..|ids| - 1]);
    }
  }

  class Worker {
    const service: Service
    const repo: Repository := service.repo

    constructor (service: Service)
      ensures this.service == service
    {
      this.service := service;
    }

    /** The due cycle over the active tenants; an exception in one leaves the others alone. */
    method ProcessCycles(envs: map<nat, Env>)
      requires repo.Valid() && forall t :: t in repo.tenants ==> t in envs
      modifies repo`tenants
      ensures repo.Valid() && AllStepped(old(repo.tenants), repo.tenants, CycleSteps(envs))
    {
      ghost var before, steps := repo.tenants, CycleSteps(envs);
      ghost var targets := Targets(before, steps);
      var ids := Listed(repo.tenants, repo.rows, true);
      ListedDistinct(repo.tenants, repo.rows, true);
      for n := 0 to |ids|
        invariant Partway(before, repo.tenants, ids, n, targets)
      {
        ghost var now := repo.tenants;
        NotYet(ids, n);
        CycleListed(ids[n], envs[ids[n]]);
        NextTenant(before, now, repo.tenants, ids, n, targets);
      }
      UnlistedIdle(before, repo.rows, true, steps);
      AllDone(before, repo.tenants, ids, targets);
    }

    method CycleListed(t: nat, env: Env)
      requires t in repo.tenants && repo.tenants[t].present && repo.tenants[t].active
      modifies repo`tenants
      ensures repo.tenants == old(repo.tenants)[t := Apply(old(repo.tenants[t]), Cycle(env)).l]
    {
      var _ := service.ProcessTenant(t, env);
    }

    method RetryFailedPaymentsDaily(envs: map<nat, Env>, gateway: Gateway) returns (m: Metrics)
      requires repo.Valid() && forall t :: t in repo.tenants ==> t in envs
      modifies repo`tenants
      ensures repo.Valid() && AllStepped(old(repo.tenants), repo.tenants, RetrySteps(envs, gateway.pays))
      ensures m == Tally(Outcomes(old(repo.tenants), envs, gateway), Listed(old(repo.tenants), repo.rows, true))
    {
      var ids := Listed(repo.tenants, repo.rows, true);
      ListedDistinct(repo.tenants, repo.rows, true);
      ghost var steps := RetrySteps(envs, gateway.pays);
      TargetsLeadTo(repo.tenants, steps);
      UnlistedIdle(repo.tenants, repo.rows, true, steps);
      m := RetryAll(ids, envs, gateway, steps, Targets(repo.tenants, steps), Outcomes(repo.tenants, envs, gateway));
    }

    method RetryAll(ids: seq<nat>, envs: map<nat, Env>, gateway: Gateway, ghost steps: map<nat, Step>,
                    ghost targets: map<nat, Spec.Ledger>, ghost outcomes: map<nat, RetryOutcome>) returns (m: Metrics)
      requires Distinct(ids) && forall t :: t in ids ==> t in repo.tenants && repo.tenants[t].present && repo.tenants[t].active
      requires steps == RetrySteps(envs, gateway.pays) && LeadTo(repo.tenants, steps, targets)
      requires AreOutcomes(repo.tenants, envs, gateway, outcomes)
      requires forall t :: t in repo.tenants && t !in ids ==> targets[t] == repo.tenants[t]
      modifies repo`tenants
      ensures repo.tenants == targets && m == Tally(outcomes, ids)
    {
      ghost var before := repo.tenants;
      m := Metrics(0, 0, 0, 0, 0);
      for n := 0 to |ids|
        invariant Partway(before, repo.tenants, ids, n, targets)
        invariant m == Tally(outcomes, ids[..n])
      {
        ghost var now := repo.tenants;
        NotYet(ids, n);
        TallyGrows(outcomes, ids, n);
        var outcome := RetryListed(ids[n], envs, gateway, before, steps, targets, outcomes);
        m := Counted(m, outcome);
        NextTenant(before, now, repo.tenants, ids, n, targets);
      }
      assert ids[..|ids|] == ids;
      AllDone(before, repo.tenants, ids, targets);
    }

    method RetryListed(t: nat, envs: map<nat, Env>, gateway: Gateway, ghost before: map<nat, Spec.Ledger>, ghost steps: map<nat, Step>,
                       ghost targets: map<nat, Spec.Ledger>, ghost outcomes: map<nat, RetryOutcome>) returns (outcome: RetryOutcome)
      requires steps == RetrySteps(envs, gateway.pays) && LeadTo(before, steps, targets)
      requires AreOutcomes(before, envs, gateway, outcomes) && t in before
      requires t in repo.tenants && repo.tenants[t] == before[t] && repo.tenants[t].present && repo.tenants[t].active
      modifies repo`tenants
      ensures repo.tenants == old(repo.tenants)[t := targets[t]] && outcome == outcomes[t]
    {
      assert Looked(t);
      outcome := service.RetryTenant(t, envs[t], t in gateway.pays, t in gateway.mails);
    }

    /** The simulation over all tenants, with its counters and its report. */
    method SimulateOpenInvoicePayments(envs: map<nat, Env>, success: bool, mails: set<nat>)
      returns (processed: nat, skipped: nat, details: seq<Detail>)
      requires repo.Valid() && forall t :: t in repo.tenants ==> t in envs
      modifies repo`tenants
      ensures repo.Valid() && AllStepped(old(repo.tenants), repo.tenants, SimulateSteps(envs, success))
      ensures details == Details(Reports(old(repo.tenants), envs, success, mails), Listed(old(repo.tenants), repo.rows, false))
      ensures processed == |details| && processed + skipped == |Listed(old(repo.tenants), repo.rows, false)|
    {
      var ids := Listed(repo.tenants, repo.rows, false);
      ListedDistinct(repo.tenants, repo.rows, false);
      ghost var steps := SimulateSteps(envs, success);
      TargetsLeadTo(repo.tenants, steps);
      UnlistedIdle(repo.tenants, repo.rows, false, steps);
      processed, skipped, details := SimulateAll(ids, envs, success, mails, steps, Targets(repo.tenants, steps),
                                                 Reports(repo.tenants, envs, success, mails));
    }

    method SimulateAll(ids: seq<nat>, envs: map<nat, Env>, success: bool, mails: set<nat>, ghost steps: map<nat, Step>,
                       ghost targets: map<nat, Spec.Ledger>, ghost reports: map<nat, Option<Detail>>)
      returns (processed: nat, skipped: nat, details: seq<Detail>)
      requires Distinct(ids) && forall t :: t in ids ==> t in repo.tenants && repo.tenants[t].present
      requires steps == SimulateSteps(envs, success) && LeadTo(repo.tenants, steps, targets)
      requires AreReports(repo.tenants, envs, success, mails, reports)
      requires forall t :: t in repo.tenants && t !in ids ==> targets[t] == repo.tenants[t]
      modifies repo`tenants
      ensures repo.tenants == targets && details == Details(reports, ids)
      ensures processed == |details| && processed + skipped == |ids|
    {
      ghost var before := repo.tenants;
      processed, skipped, details := 0, 0, [];
      for n := 0 to |ids|
        invariant Partway(before, repo.tenants, ids, n, targets)
        invariant details == Details(reports, ids[..n])
        invariant processed == |details| && processed + skipped == n
      {
        ghost var now := repo.tenants;
        NotYet(ids, n);
        DetailsGrow(reports, ids, n);
        var detail := SimulateListed(ids[n], envs, success, mails, before, steps, targets, reports);
        if detail.Some? {
          processed := processed + 1;
          details := details + [detail.value];
        } else {
          skipped := skipped + 1;
        }
        NextTenant(before, now, repo.tenants, ids, n, targets);
      }
      assert ids[..|ids|] == ids;
      AllDone(before, repo.tenants, ids, targets);
    }

    method SimulateListed(t: nat, envs: map<nat, Env>, success: bool, mails: set<nat>, ghost before: map<nat, Spec.Ledger>,
                          ghost steps: map<nat, Step>, ghost targets: map<nat, Spec.Ledger>, ghost reports: map<nat, Option<Detail>>)
      returns (detail: Option<Detail>)
      requires steps == SimulateSteps(envs, success) && LeadTo(before, steps, targets)
      requires AreReports(before, envs, success, mails, reports) && t in before
      requires t in repo.tenants && repo.tenants[t] == before[t] && repo.tenants[t].present
      modifies repo`tenants
      ensures repo.tenants == old(repo.tenants)[t := targets[t]] && detail == reports[t]
    {
      assert Looked(t);
      detail := service.SimulateTenant(t, envs[t], success, t in mails);
    }

    // ----- the cancellation lifecycle

    /** The notices of two days and one day before. */
    method SendNotices(t: nat, id: nat, now: Instant, reply: Reply) returns (emails: int)
      requires t in repo.tenants && id < |repo.tenants[t].cancellations|
      modifies repo`tenants
      ensures var l := old(repo.tenants[t]); var c := l.cancellations[id]; var d := Noticed(c, now, reply);
        && repo.tenants == old(repo.tenants)[t := l.(cancellations := l.cancellations[id := d])]
        && emails == Notices(d) - Notices(c)
    {
      emails := 0;
      var row := repo.tenants[t].cancellations[id];
      ghost var before := repo.tenants[t].cancellations;
      var daysUntil := DaysBetween(now.date, row.effectiveAt.date);
      if reply.hasOwner {
        if daysUntil == 2 && row.noticeTwoDays.None? && reply.twoDays {
          var marked := repo.MarkNoticeTwoDays(t, id, now);
          emails := emails + (if marked then 1 else 0);
        }
        if daysUntil == 1 && row.noticeOneDay.None? && reply.oneDay {
          var marked := repo.MarkNoticeOneDay(t, id, now);
          emails := emails + (if marked then 1 else 0);
        }
      }
      assert repo.tenants[t].cancellations == before[id := Noticed(row, now, reply)];
    }

    method CutOffIfDue(t: nat, id: nat, now: Instant) returns (deactivated: int)
      requires t in repo.tenants && id < |repo.tenants[t].cancellations|
      modifies repo`tenants
      ensures var l := old(repo.tenants[t]); var c := l.cancellations[id]; var due := DueForDeactivation(c, now);
        && repo.tenants == old(repo.tenants)[t := l.(active := l.active && !due,
             cancellations := l.cancellations[id := if due then c.(deactivatedAt := Some(now)) else c])]
        && deactivated == (if due then 1 else 0)
    {
      var row := repo.tenants[t].cancellations[id];
      ghost var before := repo.tenants[t].cancellations;
      deactivated := 0;
      if row.deactivatedAt.None? && DaysBetween(row.effectiveAt.date, now.date) >= NOTICE_DAYS {
        repo.SetActive(t, false);
        var marked := repo.MarkDeactivated(t, id, now);
        deactivated := if marked then 1 else 0;
      } else {
        assert before[id := row] == before;
      }
    }

    method SendExpired(t: nat, id: nat, now: Instant, reply: Reply) returns (emails: int)
      requires t in repo.tenants && id < |repo.tenants[t].cancellations|
      modifies repo`tenants
      ensures var l := old(repo.tenants[t]); var c := l.cancellations[id];
        var sends := NotAfter(c.effectiveAt, now) && c.noticeExpired.None? && reply.hasOwner && reply.expired;
        && repo.tenants == old(repo.tenants)[t := l.(
             cancellations := l.cancellations[id := if sends then c.(noticeExpired := Some(now)) else c])]
        && emails == (if sends then 1 else 0)
    {
      var row := repo.tenants[t].cancellations[id];
      ghost var before := repo.tenants[t].cancellations;
      emails := 0;
      if NotAfter(row.effectiveAt, now) && row.noticeExpired.None? && reply.hasOwner && reply.expired {
        var marked := repo.MarkNoticeExpired(t, id, now);
        emails := if marked then 1 else 0;
      } else {
        assert before[id := row] == before;
      }
    }

    /** Everything a pass does to a request short of deleting the tenant. */
    method NotifyAndCutOff(t: nat, id: nat, now: Instant, reply: Reply) returns (emails: int, deactivated: int)
      requires t in repo.tenants && id < |repo.tenants[t].cancellations|
      modifies repo`tenants
      ensures var l := old(repo.tenants[t]); var c := l.cancellations[id]; var d := Processed(c, now, reply);
        && repo.tenants == old(repo.tenants)[t := l.(active := l.active && !DueForDeactivation(c, now),
                                                     cancellations := l.cancellations[id := d])]
        && emails == Notices(d) - Notices(c) && deactivated == Stamps(d) - Stamps(c)
    {
      ghost var before := repo.tenants[t].cancellations;
      emails := SendNotices(t, id, now, reply);
      deactivated := CutOffIfDue(t, id, now);
      var more := SendExpired(t, id, now, reply);
      emails := emails + more;
      assert repo.tenants[t].cancellations == before[id := Processed(before[id], now, reply)];
    }

    /** One pending request: notices, cutting off, deletion, in this order; the last test sees
        the row as it was listed. */
    method ProcessPendingRequest(t: nat, id: nat, now: Instant, replies: seq<Reply>) returns (m: LifecycleMetrics)
      requires t in repo.tenants && id < |repo.tenants[t].cancellations|
      requires repo.tenants[t].present && Pending(repo.tenants[t].cancellations[id])
      modifies repo`tenants
      ensures repo.tenants == old(repo.tenants)[t := ProcessRequest(old(repo.tenants[t]), id, now, replies)]
      ensures m == Recorded(old(repo.tenants[t]), repo.tenants[t])
    {
      ghost var before := repo.tenants[t].cancellations;
      var row, reply := repo.tenants[t].cancellations[id], ReplyAt(replies, id);
      var emails, deactivated := NotifyAndCutOff(t, id, now, reply);
      TotalUpdate(before, id, Processed(row, now, reply), Notices);
      TotalUpdate(before, id, Processed(row, now, reply), Stamps);
      m := LifecycleMetrics(emails, deactivated, 0);
      if row.deactivatedAt.None? {
        return;
      }
      if DaysBetween(row.deactivatedAt.value.date, now.date) < NOTICE_DAYS || !reply.schemaDropped {
        return;
      }
      var deleted := repo.HardDeleteTenant(t);
      if deleted {
        m := m.(deleted := 1);
      }
    }

    /** The pending requests of one tenant in turn. */
    method ProcessTenantRequests(t: nat, now: Instant, replies: seq<Reply>) returns (m: LifecycleMetrics)
      requires t in repo.tenants
      modifies repo`tenants
      ensures repo.tenants == old(repo.tenants)[t := ProcessLifecycle(old(repo.tenants[t]), now, replies)]
      ensures m == Recorded(old(repo.tenants[t]), repo.tenants[t])
    {
      ghost var before := repo.tenants;
      var count := |repo.tenants[t].cancellations|;
      m := LifecycleMetrics(0, 0, 0);
      for id := 0 to count
        invariant t in repo.tenants && |repo.tenants[t].cancellations| == count
        invariant repo.tenants == before[t := repo.tenants[t]]
        invariant ProcessFrom(repo.tenants[t], id, now, replies) == ProcessLifecycle(before[t], now, replies)
        invariant m == Recorded(before[t], repo.tenants[t]) && (repo.tenants[t].present ==> before[t].present)
      {
        if repo.tenants[t].present && Pending(repo.tenants[t].cancellations[id]) {
          var one := ProcessPendingRequest(t, id, now, replies);
          m := Plus(m, one);
        }
      }
    }

    method ProcessTenantLifecycle(t: nat, now: Instant, replies: map<nat, seq<Reply>>, ghost before: map<nat, Spec.Ledger>,
                                  ghost steps: map<nat, Step>, ghost targets: map<nat, Spec.Ledger>) returns (m: LifecycleMetrics)
      requires steps == LifecycleSteps(now, replies) && LeadTo(before, steps, targets) && t in before
      requires t in repo.tenants && repo.tenants[t] == before[t]
      modifies repo`tenants
      ensures repo.tenants == old(repo.tenants)[t := targets[t]] && m == Recorded(before[t], targets[t])
    {
      assert Looked(t);
      PassFrame(repo.tenants[t], 0, now, replies[t]);
      m := ProcessTenantRequests(t, now, replies[t]);
    }

    /** The lifecycle of all tenants; the metrics are the notices and stamps recorded and the
        tenants deleted. */
    method ProcessCancellationLifecycle(now: Instant, replies: map<nat, seq<Reply>>) returns (m: LifecycleMetrics)
      requires repo.Valid() && forall t :: t in repo.tenants ==> t in replies
      modifies repo`tenants
      ensures repo.Valid() && AllStepped(old(repo.tenants), repo.tenants, LifecycleSteps(now, replies))
      ensures m == RecordedSum(old(repo.tenants), repo.tenants, repo.rows)
    {
      ghost var steps := LifecycleSteps(now, replies);
      TargetsLeadTo(repo.tenants, steps);
      m := ProcessAllLifecycles(now, replies, steps, Targets(repo.tenants, steps));
    }

    method ProcessAllLifecycles(now: Instant, replies: map<nat, seq<Reply>>, ghost steps: map<nat, Step>,
                                ghost targets: map<nat, Spec.Ledger>) returns (m: LifecycleMetrics)
      requires repo.Valid() && steps == LifecycleSteps(now, replies) && LeadTo(repo.tenants, steps, targets)
      modifies repo`tenants
      ensures repo.tenants == targets && m == RecordedSum(old(repo.tenants), targets, repo.rows)
    {
      ghost var before := repo.tenants;
      var ids := repo.rows;
      m := LifecycleMetrics(0, 0, 0);
      for n := 0 to |ids|
        invariant Partway(before, repo.tenants, ids, n, targets)
        invariant m == RecordedSum(before, repo.tenants, ids[..n])
      {
        ghost var current := repo.tenants;
        NotYet(ids, n);
        var one := ProcessTenantLifecycle(ids[n], now, replies, before, steps, targets);
        m := Plus(m, one);
        SumUnaffected(before, current, repo.tenants, ids[..n]);
        NextTenant(before, current, repo.tenants, ids, n, targets);
      }
      assert ids[..|ids|] == ids;
      AllDone(before, repo.tenants, ids, targets);
    }

    /** The nightly job: cancellations, then the due cycle, then the retry; each tenant takes
        these three steps of its run. */
    method ProcessDueCycles(now: Instant, replies: map<nat, seq<Reply>>, cycleEnvs: map<nat, Env>, retryEnvs: map<nat, Env>,
                            gateway: Gateway)
      requires repo.Valid()
      requires forall t :: t in repo.tenants ==> t in replies && t in cycleEnvs && t in retryEnvs
      modifies repo`tenants
      ensures repo.Valid() && repo.tenants.Keys == old(repo.tenants.Keys)
      ensures forall t :: t in repo.tenants ==>
                repo.tenants[t] == After(old(repo.tenants[t]), [Lifecycle(now, replies[t]), Cycle(cycleEnvs[t]),
                                                                Retry(retryEnvs[t], t in gateway.pays)])
    {
      ghost var start := repo.tenants;
      var _ := ProcessCancellationLifecycle(now, replies);
      ProcessCycles(cycleEnvs);
      var _ := RetryFailedPaymentsDaily(retryEnvs, gateway);
      forall t | t in repo.tenants
        ensures repo.tenants[t] == After(start[t], [Lifecycle(now, replies[t]), Cycle(cycleEnvs[t]),
                                                    Retry(retryEnvs[t], t in gateway.pays)])
      {
        ThreeSteps(start[t], Lifecycle(now, replies[t]), Cycle(cycleEnvs[t]), Retry(retryEnvs[t], t in gateway.pays));
      }
    }
  }
}
