/** Runs of billing operations: what holds after any number of them. */
module LedgerRuns {
  import opened Options
  import opened Calendar
  import opened Instants
  import opened Pricing
  import opened Ledger
  import opened LedgerInvariant
  import opened Cancellations

  /** What can happen to a tenant: the jobs; the owner's operations; the status
      synchronisation that the overview, the access check and the limit checks run by itself;
      the writes of the subscription that belong to quotas, warnings and add-ons; switching off
      an unsubscribed or expired demo tenant; and the administrator's operations. */
  datatype Step =
    | Cycle(env: Env)
    | Retry(env: Env, success: bool)
    | Settle(env: Env, accepted: bool)
    | Simulate(env: Env, success: bool)
    | Choose(env: Env, plan: string, period: Period)
    | UpgradeTo(env: Env, plan: string, period: Period)
    | RequestCancel(at: Instant, reasonValid: bool)
    | TakeBack(at: Instant)
    | CutOff(at: Instant, activeKbs: nat)
    | Lifecycle(at: Instant, replies: seq<Reply>)
    | Sync(at: Instant, stamp: Instant)
    | Touch(at: Instant, stamp: Instant, extraKbs: nat, extraStorageGb: nat)
    | SwitchOff(at: Instant)
    | RestoreByAdmin(at: Instant)
    | ActivateByAdmin(at: Instant)
    | DeactivateByAdmin(at: Instant)
    | DeleteByAdmin(at: Instant)

  function NowOf(s: Step): Instant {
    if s.Cycle? || s.Retry? || s.Settle? || s.Simulate? || s.Choose? || s.UpgradeTo? then s.env.now else s.at
  }

  function Apply(l: Ledger, s: Step): Outcome {
    if !l.present then Done(l)
    else
      match s
      case Cycle(env) => DueCycle(l, env)
      case Retry(env, success) => DailyRetry(l, env, success)
      case Settle(env, accepted) => SettleSubscription(l, env, accepted)
      case Simulate(env, success) => SimulatePayment(l, env, success)
      case Choose(env, plan, period) => UpdateSubscription(l, env, plan, period)
      case UpgradeTo(env, plan, period) => Upgrade(l, env, plan, period)
      case RequestCancel(at, reasonValid) => Cancel(l, at, reasonValid)
      case TakeBack(at) => Restore(l, at)
      case CutOff(at, activeKbs) => DeleteAccess(l, at, activeKbs)
      case Lifecycle(at, replies) => Done(ProcessLifecycle(l, at, replies))
      case Sync(at, stamp) => Done(SyncStatus(l, at, stamp))
      case Touch(_, stamp, extraKbs, extraStorageGb) => Done(Touched(l, stamp, extraKbs, extraStorageGb))
      case SwitchOff(_) => Done(l.(active := false))
      case RestoreByAdmin(_) => AdminRestore(l)
      case ActivateByAdmin(_) => AdminActivate(l)
      case DeactivateByAdmin(_) => AdminDeactivate(l)
      case DeleteByAdmin(_) => AdminDelete(l)
  }

  function Touched(l: Ledger, stamp: Instant, extraKbs: nat, extraStorageGb: nat): Ledger {
    l.(sub := l.sub.(extraKbs := extraKbs, extraStorageGb := extraStorageGb, updatedAt := stamp))
  }

  function After(l: Ledger, steps: seq<Step>): Ledger {
    if steps == [] then l else Apply(After(l, steps[..|steps| - 1]), steps[|steps| - 1]).l
  }

  lemma StepByStep(l: Ledger, steps: seq<Step>, s: Step)
    ensures After(l, []) == l && After(l, steps + [s]) == Apply(After(l, steps), s).l
  {
    assert (steps + [s])[..|steps|] == steps;
  }

  lemma {:induction false} AfterBoth(l: Ledger, a: seq<Step>, b: seq<Step>)
    ensures After(l, a + b) == After(After(l, a), b)
  {
    if b == [] {
      assert a + b == a;
    } else {
      var n := |b| - 1;
      assert (a + b)[..|a + b| - 1] == a + b[..n];
      AfterBoth(l, a, b[..n]);
    }
  }

  lemma ThreeSteps(l: Ledger, a: Step, b: Step, c: Step)
    ensures After(l, [a, b, c]) == Apply(Apply(Apply(l, a).l, b).l, c).l
  {
    StepByStep(l, [], a);
    StepByStep(l, [a], b);
    StepByStep(l, [a, b], c);
    assert [] + [a] == [a] && [a] + [b] == [a, b] && [a, b] + [c] == [a, b, c];
  }

  /** The clock never goes back during a run. */
  ghost predicate ClockRises(steps: seq<Step>) {
    forall i, j :: 0 <= i < j < |steps| ==> NotAfter(NowOf(steps[i]), NowOf(steps[j]))
  }

  // ----- which plan changes a run may make

  /** The step moves the paid-until date by a change to a paid plan. */
  predicate MovesDate(l: Ledger, s: Step) {
    && (s.Choose? || s.UpgradeTo?) && l.present && s.plan != "free" && s.plan in s.env.catalog
    && (s.Choose? ==> l.sub.plan == "free" && !IsScheduledChange(s.env.catalog, l.sub.plan, l.sub.period, s.plan, s.period))
    && (s.UpgradeTo? ==> l.sub.plan != "free" && !IsDowngrade(s.env.catalog, l.sub.plan, s.plan)
                         && (l.sub.plan != s.plan || l.sub.period != s.period))
  }

  /** Exactly the plan changes that keep a sound ledger sound: see `MoveSound`. */
  predicate MoveAllowed(l: Ledger, s: Step)
    requires s.Choose? || s.UpgradeTo?
  {
    var to := AddMonthsToDate(s.env.now.date, Multiplier(s.period));
    var last := LastBilled(l.coverage);
    to == PaidUntil(l.sub) || (LatestUnpaidDebt(l.invoices) == None && (last.Some? ==> Before(last.value, to)))
  }

  /** The clock shows an existing date, and the paid-until date is not cleared. */
  predicate Dated(l: Ledger, s: Step) {
    Valid(NowOf(s).date) && (s.Choose? && Apply(l, s).Raised? ==> Apply(l, s).error != PaidUntilCleared)
  }

  predicate DatedRun(l: Ledger, steps: seq<Step>) {
    steps == [] || (DatedRun(l, steps[..|steps| - 1]) && Dated(After(l, steps[..|steps| - 1]), steps[|steps| - 1]))
  }

  predicate Permitted(l: Ledger, s: Step) {
    Dated(l, s) && (MovesDate(l, s) ==> MoveAllowed(l, s))
  }

  predicate PermittedRun(l: Ledger, steps: seq<Step>) {
    steps == [] || (PermittedRun(l, steps[..|steps| - 1]) && Permitted(After(l, steps[..|steps| - 1]), steps[|steps| - 1]))
  }

  // ----- soundness of the remaining steps

  lemma SubChangeSound(l: Ledger, sub: Subscription)
    requires Sound(l) && sub.trialEndsAt == l.sub.trialEndsAt
    requires sub.scheduled.Some? ==> sub.scheduled.value.effective == PaidUntil(l.sub)
    ensures Sound(l.(sub := sub))
  {
  }

  lemma CheckOutSound(l: Ledger, env: Env, plan: string, period: Period)
    requires Sound(ChangeNow(l, env, plan, period))
    ensures CheckOut(l, env, plan, period).Done? && Sound(CheckOut(l, env, plan, period).l)
  {
    var changed := ChangeNow(l, env, plan, period);
    var key := Checkout(env.now.date, env.now.micros / 10_000);
    if !HasInvoice(changed.invoices, MonthlySubscription, key) {
      forall k | 0 <= k < |changed.invoices| ensures changed.invoices[k].key != key {
        assert Placed(changed.invoices[k], PaidUntil(changed.sub));
      }
      var unit := MonthlyCharge(PlanOf(env.catalog, plan).priceCents, period);
      CreateSound(changed, Invoice(MonthlySubscription, key, Paid, unit * Multiplier(period), env.now, env.now,
                                   InvoiceLine(env.catalog, changed.sub, None, false)));
    }
  }

  lemma PlanChangeSound(l: Ledger, s: Step)
    requires Sound(l) && l.present && Permitted(l, s) && (s.Choose? || s.UpgradeTo?)
    ensures Sound(Apply(l, s).l) && (Apply(l, s).Raised? ==> Apply(l, s).error == ValueError)
  {
    if MovesDate(l, s) {
      MoveSound(l, s.env, s.plan, s.period);
      CheckOutSound(l, s.env, s.plan, s.period);
    } else if s.plan == "free" {
      SubChangeSound(l, ChangeNow(l, s.env, s.plan, s.period).sub);
      SubChangeSound(l, l.sub.(scheduled := Some(Schedule(s.plan, s.period, PaidUntil(l.sub))), updatedAt := s.env.firstStamp));
    } else {
      SubChangeSound(l, l.sub.(scheduled := Some(Schedule(s.plan, s.period, PaidUntil(l.sub))), updatedAt := s.env.firstStamp));
    }
  }

  /** The step touches the requests and the two flags of the tenant only. */
  predicate TenantStep(s: Step) {
    s.RequestCancel? || s.TakeBack? || s.CutOff? || s.Lifecycle? || s.SwitchOff?
    || s.RestoreByAdmin? || s.ActivateByAdmin? || s.DeactivateByAdmin? || s.DeleteByAdmin?
  }

  lemma LifecycleSound(l: Ledger, s: Step)
    requires Sound(l) && l.present && TenantStep(s)
    ensures Sound(Apply(l, s).l) && (Apply(l, s).Raised? ==> Apply(l, s).error == ValueError)
  {
    var r := Apply(l, s).l;
    if s.Lifecycle? {
      PassFrame(l, 0, s.at, s.replies);
    }
    assert r == l.(present := r.present, active := r.active, cancellations := r.cancellations);
  }

  lemma SyncSound(l: Ledger, at: Instant, stamp: Instant)
    requires Sound(l)
    ensures Sound(SyncStatus(l, at, stamp))
  {
    SyncSameBilling(l, at, stamp);
    SameBillingSound(l, SyncStatus(l, at, stamp));
  }

  lemma StepSound(l: Ledger, s: Step)
    requires Sound(l) && Permitted(l, s)
    ensures Sound(Apply(l, s).l)
    ensures Apply(l, s).Raised? ==> Apply(l, s).error == ValueError
    ensures s.Cycle? || s.Retry? || s.Settle? || s.Simulate? || s.Sync? || s.Touch? ==> Apply(l, s).Done?
  {
    if l.present {
      match s
      case Cycle(env) => DueCycleSound(l, env);
      case Retry(env, success) => DailyRetrySound(l, env, success);
      case Settle(env, accepted) => SettleSubscriptionSound(l, env, accepted);
      case Simulate(env, success) => SimulatePaymentSound(l, env, success);
      case Choose(_, _, _) => PlanChangeSound(l, s);
      case UpgradeTo(_, _, _) => PlanChangeSound(l, s);
      case Sync(at, stamp) => SyncSound(l, at, stamp);
      case Touch(_, stamp, extraKbs, extraStorageGb) => SubChangeSound(l, Touched(l, stamp, extraKbs, extraStorageGb).sub);
      case _ => LifecycleSound(l, s);
    }
  }

  /** Every permitted run from sign-up keeps the ledger sound, and no step of it meets the
      uniqueness constraint. */
  lemma {:induction false} PermittedSound(l: Ledger, steps: seq<Step>)
    requires SignedUp(l) && PermittedRun(l, steps)
    ensures Sound(After(l, steps))
    ensures steps != [] ==>
              var last := Apply(After(l, steps[..|steps| - 1]), steps[|steps| - 1]);
              last.Raised? ==> last.error == ValueError
  {
    if steps == [] {
      SignedUpSound(l);
    } else {
      PermittedSound(l, steps[..|steps| - 1]);
      StepSound(After(l, steps[..|steps| - 1]), steps[|steps| - 1]);
    }
  }

  // ----- exactly which runs are sound

  /** The ledger is sound at the start of the run and after each of its steps. */
  ghost predicate AlwaysSound(l: Ledger, steps: seq<Step>) {
    forall n :: 0 <= n <= |steps| ==> SoundAfter(l, steps, n)
  }

  ghost predicate SoundAfter(l: Ledger, steps: seq<Step>, n: nat)
    requires n <= |steps|
  {
    Sound(After(l, steps[..n]))
  }

  /** Some step meets the uniqueness constraint of the invoice table. */
  ghost predicate EverConflicts(l: Ledger, steps: seq<Step>) {
    exists n :: 0 <= n < |steps| && ConflictsAt(l, steps, n)
  }

  ghost predicate ConflictsAt(l: Ledger, steps: seq<Step>, n: nat)
    requires n < |steps|
  {
    var o := Apply(After(l, steps[..n]), steps[n]);
    o.Raised? && o.error == UniqueViolation
  }

  lemma SoundBefore(l: Ledger, steps: seq<Step>)
    requires steps != [] && AlwaysSound(l, steps)
    ensures AlwaysSound(l, steps[..|steps| - 1]) && Sound(After(l, steps))
  {
    var init := steps[..|steps| - 1];
    forall n | 0 <= n <= |init| ensures SoundAfter(l, init, n) {
      assert SoundAfter(l, steps, n) && init[..n] == steps[..n];
    }
    assert SoundAfter(l, steps, |steps|) && steps[..|steps|] == steps;
  }

  lemma CheckOutSoundBefore(l: Ledger, env: Env, plan: string, period: Period)
    requires Sound(CheckOut(l, env, plan, period).l)
    ensures Sound(ChangeNow(l, env, plan, period))
  {
    var changed, r := ChangeNow(l, env, plan, period), CheckOut(l, env, plan, period).l;
    assert r.invoices[..|changed.invoices|] == changed.invoices;
    PaidDatesSame(changed.invoices, r.invoices);
    forall i | 0 <= i < |changed.invoices| ensures Placed(changed.invoices[i], PaidUntil(changed.sub)) {
      assert Placed(r.invoices[i], PaidUntil(r.sub));
    }
  }

  /** A plan change that leaves the ledger sound is one of those permitted. */
  lemma SoundMoveAllowed(l: Ledger, s: Step)
    requires Sound(l) && MovesDate(l, s) && Valid(NowOf(s).date) && Sound(Apply(l, s).l)
    ensures MoveAllowed(l, s)
  {
    MoveSound(l, s.env, s.plan, s.period);
    if s.Choose? {
      CheckOutSoundBefore(l, s.env, s.plan, s.period);
    }
  }

  lemma {:induction false} SoundPermitted(l: Ledger, steps: seq<Step>)
    requires SignedUp(l) && DatedRun(l, steps) && AlwaysSound(l, steps)
    ensures PermittedRun(l, steps)
  {
    if steps != [] {
      var init, s := steps[..|steps| - 1], steps[|steps| - 1];
      SoundBefore(l, steps);
      SoundPermitted(l, init);
      PermittedSound(l, init);
      if MovesDate(After(l, init), s) {
        SoundMoveAllowed(After(l, init), s);
      }
    }
  }

  lemma {:induction false} PermittedBefore(l: Ledger, steps: seq<Step>, n: nat)
    requires PermittedRun(l, steps) && n <= |steps|
    ensures PermittedRun(l, steps[..n]) && (n < |steps| ==> Permitted(After(l, steps[..n]), steps[n]))
  {
    if n == |steps| {
      assert steps[..n] == steps;
    } else {
      var init := steps[..|steps| - 1];
      PermittedBefore(l, init, n);
      assert init[..n] == steps[..n];
    }
  }

  /** Of the runs from sign-up exactly those are sound throughout whose immediate plan changes
      all leave the paid-until date where it is, or find no debt and move it later than all
      dates billed; and in these no step meets the uniqueness constraint. */
  lemma RunSound(l: Ledger, steps: seq<Step>)
    requires SignedUp(l) && DatedRun(l, steps)
    ensures AlwaysSound(l, steps) <==> PermittedRun(l, steps)
    ensures PermittedRun(l, steps) ==> !EverConflicts(l, steps)
  {
    if AlwaysSound(l, steps) {
      SoundPermitted(l, steps);
    }
    if PermittedRun(l, steps) {
      forall n | 0 <= n <= |steps| ensures SoundAfter(l, steps, n) && (n < |steps| ==> !ConflictsAt(l, steps, n)) {
        PermittedBefore(l, steps, n);
        PermittedSound(l, steps[..n]);
        if n < |steps| {
          StepSound(After(l, steps[..n]), steps[n]);
        }
      }
    }
  }

  // ----- what soundness means for the tenant

  /** After every run: one monthly invoice per key over both kinds, so no change of kind can
      violate the uniqueness constraint; at most one unpaid, it is the debt that all payment
      paths find, and its key is the paid-until date. */
  lemma OneInvoicePerPeriod(l: Ledger, steps: seq<Step>, i: nat, j: nat, kind: Kind)
    requires SignedUp(l) && PermittedRun(l, steps)
    requires i < |After(l, steps).invoices| && j < |After(l, steps).invoices|
    ensures var r := After(l, steps); var a, b := r.invoices[i], r.invoices[j];
      && (a.key == b.key ==> i == j)
      && !Conflicts(r.invoices, i, kind, a.key)
      && (Unpaid(a) && Unpaid(b) ==> i == j)
      && (Unpaid(a) <==> LatestUnpaidDebt(r.invoices) == Some(i))
      && (Unpaid(a) ==> a.key == DueDate(PaidUntil(r.sub)))
  {
    PermittedSound(l, steps);
    var r := After(l, steps);
    assert Placed(r.invoices[i], PaidUntil(r.sub)) && Placed(r.invoices[j], PaidUntil(r.sub));
    if Unpaid(r.invoices[i]) {
      TheDebt(r, i);
    }
  }

  lemma TheDebt(l: Ledger, i: nat)
    requires Sound(l) && i < |l.invoices| && Unpaid(l.invoices[i])
    ensures LatestUnpaidDebt(l.invoices) == Some(i)
  {
    LatestSelects(l.invoices, OpenRequests);
    LatestSelects(l.invoices, FailedDebts);
    assert Placed(l.invoices[i], PaidUntil(l.sub));
    assert Selects(OpenRequests, l.invoices[i]) || Selects(FailedDebts, l.invoices[i]);
    var debt := LatestUnpaidDebt(l.invoices).value;
    assert Placed(l.invoices[debt], PaidUntil(l.sub));
  }

  /** After every run the paid invoices keyed by a date are exactly the bills of the history,
      and the bills form a chain: each starts where coverage ended and later than all before,
      so that no period is billed twice and none is skipped.  The invoices last as long as the
      tenant. */
  lemma BillsFormAChain(l: Ledger, steps: seq<Step>, j: nat)
    requires SignedUp(l) && PermittedRun(l, steps)
    requires j < |After(l, steps).coverage| && After(l, steps).coverage[j].Billed?
    ensures var r := After(l, steps); var bill := r.coverage[j];
      && 0 < j && 1 <= bill.months
      && bill.key == DueDate(match r.coverage[j - 1]
                             case Moved(to) => to
                             case Billed(key, months) => AddMonthsToDate(key.date, months))
      && (forall i :: 0 <= i < j && r.coverage[i].Billed? ==> Before(r.coverage[i].key.date, bill.key.date))
      && (if r.present then exists k :: 0 <= k < |r.invoices| && r.invoices[k].status == Paid && r.invoices[k].key == bill.key
          else StoredInvoices(r) == [])
  {
    var r := After(l, steps);
    assert Sound(r) by {
      PermittedSound(l, steps);
    }
    ChainAt(r.coverage, j);
    PaidInvoiceFor(r.invoices, r.coverage[j].key.date);
  }

  lemma PaidInvoiceFor(invoices: seq<Invoice>, d: Date)
    requires d in PaidDates(invoices)
    ensures exists k :: 0 <= k < |invoices| && invoices[k].status == Paid && invoices[k].key == DueDate(d)
  {
  }

  lemma {:induction false} ChainAt(history: seq<Coverage>, j: nat)
    requires Contiguous(history) && j < |history| && history[j].Billed?
    ensures 0 < j && 1 <= history[j].months
    ensures history[j].key == DueDate(CoveredUntil(history[..j])) && history[..j][j - 1] == history[j - 1]
    ensures forall i :: 0 <= i < j && history[i].Billed? ==> Before(history[i].key.date, history[j].key.date)
    ensures history[j].key.date in BilledDates(history)
  {
    var n := |history| - 1;
    var before := history[..n];
    if j < n {
      ChainAt(before, j);
      assert before[..j] == history[..j];
    } else {
      forall i | 0 <= i < j && history[i].Billed? ensures history[i].key.date in BilledDates(before) {
        assert before[i] == history[i];
        BilledAt(before, i);
      }
    }
  }

  lemma {:induction false} BilledAt(history: seq<Coverage>, i: nat)
    requires i < |history| && history[i].Billed?
    ensures history[i].key.date in BilledDates(history)
  {
    var n := |history| - 1;
    if i < n {
      assert history[..n][i] == history[i];
      BilledAt(history[..n], i);
    }
  }

  /** The other way round: every paid invoice keyed by a date is a bill of the history. */
  lemma EveryPaidInvoiceIsABill(l: Ledger, steps: seq<Step>, k: nat)
    requires SignedUp(l) && PermittedRun(l, steps)
    requires k < |After(l, steps).invoices|
    requires After(l, steps).invoices[k].status == Paid && After(l, steps).invoices[k].key.DueDate?
    ensures var r := After(l, steps);
      && Before(r.invoices[k].key.date, PaidUntil(r.sub))
      && exists j :: 0 <= j < |r.coverage| && r.coverage[j].Billed? && r.coverage[j].key == r.invoices[k].key
  {
    PermittedSound(l, steps);
    var r := After(l, steps);
    assert Placed(r.invoices[k], PaidUntil(r.sub));
    assert r.invoices[k].key.date in PaidDates(r.invoices);
    BillOf(r.coverage, r.invoices[k].key.date);
  }

  lemma {:induction false} BillOf(history: seq<Coverage>, d: Date)
    requires Contiguous(history) && d in BilledDates(history)
    ensures exists j :: 0 <= j < |history| && history[j].Billed? && history[j].key == DueDate(d)
  {
    var n := |history| - 1;
    if history[n].Billed? && history[n].key.date == d {
    } else {
      BillOf(history[..n], d);
      var j :| 0 <= j < n && history[..n][j].Billed? && history[..n][j].key == DueDate(d);
      assert history[j].key == DueDate(d);
    }
  }
}
