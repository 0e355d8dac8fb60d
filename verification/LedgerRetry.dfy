/** The daily retry: a payment request is charged at most once a day and thirty times in all. */
module LedgerRetry {
  import opened Options
  import opened Calendar
  import opened Instants
  import opened Ledger
  import opened LedgerInvariant
  import opened LedgerRuns
  import opened LedgerRows

  // ----- what every step keeps, as of a day the clock has reached

  /** Retry marks and issue days are in the past; a request is due when it is issued. */
  predicate RowFits(i: Invoice, today: Date) {
    && (i.line.retryDate.Some? ==> AtMost(i.line.retryDate.value, today))
    && Valid(i.issuedAt.date) && AtMost(i.issuedAt.date, today)
    && (i.line.paymentRequest ==> i.dueAt == i.issuedAt)
  }

  /** A charge is in the past; the row it is for, while unpaid, is marked with a day at least
      as late; it comes no earlier than the issue and less than thirty days after the due date. */
  predicate ChargeFits(c: Charge, rows: seq<Invoice>, today: Date) {
    && c.invoice < |rows| && Valid(c.day) && AtMost(c.day, today)
    && var i := rows[c.invoice];
       && (Unpaid(i) ==> i.line.retryDate.Some? && AtMost(c.day, i.line.retryDate.value))
       && AtMost(i.issuedAt.date, c.day) && DaysBetween(i.dueAt.date, c.day) < 30
  }

  ghost predicate DaysRise(charges: seq<Charge>) {
    forall a, b :: 0 <= a < b < |charges| && charges[a].invoice == charges[b].invoice ==> Before(charges[a].day, charges[b].day)
  }

  ghost predicate RetryOk(l: Ledger, today: Date) {
    && (forall i :: 0 <= i < |l.invoices| ==> RowFits(l.invoices[i], today))
    && (forall c :: 0 <= c < |l.charges| ==> ChargeFits(l.charges[c], l.invoices, today))
    && DaysRise(l.charges)
  }

  lemma RowsStillFit(a: seq<Invoice>, b: seq<Invoice>, charge: Charge, then_: Date, now: Instant)
    requires RowsEvolve(a, b, now) && AtMost(then_, now.date) && Valid(now.date)
    requires ChargeFits(charge, a, then_)
    ensures ChargeFits(charge, b, now.date)
  {
    assert RowEvolves(a[charge.invoice], b[charge.invoice], now.date);
  }

  lemma RowFitsLater(a: seq<Invoice>, b: seq<Invoice>, i: nat, then_: Date, now: Instant)
    requires RowsEvolve(a, b, now) && AtMost(then_, now.date) && Valid(now.date) && i < |b|
    requires i < |a| ==> RowFits(a[i], then_)
    ensures RowFits(b[i], now.date)
  {
    if i < |a| {
      assert RowEvolves(a[i], b[i], now.date);
    }
  }

  // ----- when a retry raises

  /** Another row has the debt's key and the kind the retry is about to give the debt. */
  predicate DebtConflicts(l: Ledger, success: bool)
    requires LatestUnpaidDebt(l.invoices).Some?
  {
    var id := LatestUnpaidDebt(l.invoices).value;
    var kind := if success then MonthlySubscription
                else if l.invoices[id].status == Issued then MonthlySubscriptionFailed else l.invoices[id].kind;
    Conflicts(l.invoices, id, kind, l.invoices[id].key)
  }

  /** The retry raises exactly when it charges a debt whose row cannot take the kind it is given. */
  lemma RetryRaisesExactly(l: Ledger, env: Env, success: bool)
    ensures DailyRetry(l, env, success).Raised? <==> RetryApplies(l, env.now.date) && DebtConflicts(l, success)
  {
    if RetryApplies(l, env.now.date) {
      var id := LatestUnpaidDebt(l.invoices).value;
      var charged := l.(charges := l.charges + [Charge(id, env.now.date)]);
      if !success && l.invoices[id].status == Issued {
        var failed := UpdateInvoice(charged, id, PaymentFailed, Some(MonthlySubscriptionFailed), None);
        if failed.Done? {
          assert SyncStatus(failed.l, env.now, env.firstStamp).invoices == failed.l.invoices;
        }
      }
    }
  }

  /** A retry that raises has charged the debt and left no mark, whatever was charged before. */
  lemma RaisedRetryCharges(l: Ledger, env: Env, success: bool, charges: seq<Charge>)
    requires DailyRetry(l, env, success).Raised?
    ensures var debt := LatestUnpaidDebt(l.invoices);
      debt.Some? && DailyRetry(l.(charges := charges), env, success)
                      == Raised(l.(charges := charges + [Charge(debt.value, env.now.date)]), UniqueViolation)
  {
    RetryRaisesExactly(l, env, success);
    var id := LatestUnpaidDebt(l.invoices).value;
    var charged := l.(charges := charges + [Charge(id, env.now.date)]);
    RetryRaisesExactly(l.(charges := charges), env, success);
    if !success && l.invoices[id].status == Issued {
      assert UpdateInvoice(charged, id, PaymentFailed, Some(MonthlySubscriptionFailed), None).Raised?;
    }
  }

  function Repeat<T>(n: nat, x: T): seq<T> {
    if n == 0 then [] else Repeat(n - 1, x) + [x]
  }

  ghost predicate Leads(a: Ledger, s: Step, b: Ledger) {
    Apply(a, s).l == b
  }

  /** One step over and over. */
  lemma {:induction false} AfterRepeat(states: seq<Ledger>, s: Step, n: nat)
    requires n < |states| && forall k :: 0 <= k < n ==> Leads(states[k], s, states[k + 1])
    ensures After(states[0], Repeat(n, s)) == states[n]
  {
    if n > 0 {
      AfterRepeat(states, s, n - 1);
      StepByStep(states[0], Repeat(n - 1, s), s);
      assert Leads(states[n - 1], s, states[n - 1 + 1]);
    }
  }

  function WithCharges(l: Ledger, n: nat, charge: Charge): Ledger {
    l.(charges := l.charges + Repeat(n, charge))
  }

  lemma AfterCharges(l: Ledger, s: Step, charge: Charge, n: nat)
    requires forall k: nat :: Leads(WithCharges(l, k, charge), s, WithCharges(l, k + 1, charge))
    ensures After(l, Repeat(n, s)) == WithCharges(l, n, charge)
  {
    var states := seq(n + 1, k requires 0 <= k <= n => WithCharges(l, k, charge));
    assert l.charges + [] == l.charges;
    AfterRepeat(states, s, n);
  }

  /** So nothing keeps it from charging again: repeated on one day, it charges every time. */
  lemma RaisedRetryRepeats(l: Ledger, env: Env, success: bool, n: nat)
    requires l.present && DailyRetry(l, env, success).Raised?
    ensures var debt := LatestUnpaidDebt(l.invoices);
      debt.Some? && After(l, Repeat(n, Retry(env, success)))
                      == l.(charges := l.charges + Repeat(n, Charge(debt.value, env.now.date)))
  {
    RaisedRetryCharges(l, env, success, l.charges);
    var charge := Charge(LatestUnpaidDebt(l.invoices).value, env.now.date);
    forall k: nat ensures Leads(WithCharges(l, k, charge), Retry(env, success), WithCharges(l, k + 1, charge)) {
      NextCharge(l, env, success, k, charge);
    }
    AfterCharges(l, Retry(env, success), charge, n);
  }

  lemma NextCharge(l: Ledger, env: Env, success: bool, k: nat, charge: Charge)
    requires l.present && DailyRetry(l, env, success).Raised?
    requires LatestUnpaidDebt(l.invoices).Some? && charge == Charge(LatestUnpaidDebt(l.invoices).value, env.now.date)
    ensures Leads(WithCharges(l, k, charge), Retry(env, success), WithCharges(l, k + 1, charge))
  {
    RaisedRetryCharges(l, env, success, l.charges + Repeat(k, charge));
    assert l.charges + Repeat(k, charge) + [charge] == l.charges + Repeat(k + 1, charge);
  }

  // ----- one step

  lemma StepRetryOk(l: Ledger, s: Step, before: Date)
    requires RetryOk(l, before) && AtMost(before, NowOf(s).date) && Valid(NowOf(s).date)
    requires s.Retry? && RetryApplies(l, s.env.now.date) ==> !DebtConflicts(l, s.success)
    ensures RetryOk(Apply(l, s).l, NowOf(s).date)
  {
    var r, now := Apply(l, s).l, NowOf(s);
    StepEvolves(l, s);
    forall i | 0 <= i < |r.invoices| ensures RowFits(r.invoices[i], now.date) {
      RowFitsLater(l.invoices, r.invoices, i, before, now);
    }
    forall c | 0 <= c < |l.charges| ensures ChargeFits(l.charges[c], r.invoices, now.date) {
      RowsStillFit(l.invoices, r.invoices, l.charges[c], before, now);
    }
    if l.present && s.Retry? && RetryApplies(l, s.env.now.date) {
      NewCharge(l, s, before);
    }
  }

  lemma NewCharge(l: Ledger, s: Step, before: Date)
    requires RetryOk(l, before) && AtMost(before, NowOf(s).date) && Valid(NowOf(s).date)
    requires l.present && s.Retry? && RetryApplies(l, s.env.now.date) && !DebtConflicts(l, s.success)
    ensures var c := Charge(LatestUnpaidDebt(l.invoices).value, s.env.now.date);
      && ChargeFits(c, Apply(l, s).l.invoices, s.env.now.date)
      && forall a :: 0 <= a < |l.charges| && l.charges[a].invoice == c.invoice ==> Before(l.charges[a].day, c.day)
  {
    var id := LatestUnpaidDebt(l.invoices).value;
    NewChargeFits(l, s.env, s.success, before);
    forall a | 0 <= a < |l.charges| && l.charges[a].invoice == id ensures Before(l.charges[a].day, s.env.now.date) {
      NotTodayYet(l.charges[a], l.invoices, before, s.env.now.date);
    }
  }

  lemma NewChargeFits(l: Ledger, env: Env, success: bool, before: Date)
    requires RetryApplies(l, env.now.date) && !DebtConflicts(l, success) && AtMost(before, env.now.date) && Valid(env.now.date)
    requires RowFits(l.invoices[LatestUnpaidDebt(l.invoices).value], before)
    ensures ChargeFits(Charge(LatestUnpaidDebt(l.invoices).value, env.now.date),
                       DailyRetry(l, env, success).l.invoices, env.now.date)
  {
    var id, rows := LatestUnpaidDebt(l.invoices).value, DailyRetry(l, env, success).l.invoices;
    RetryRaisesExactly(l, env, success);
    RetryEvolves(l, env, success);
    assert RowEvolves(l.invoices[id], rows[id], env.now.date);
  }

  /** An unpaid row is marked with a day no earlier than its charges; if that is not today,
      none of them is today's. */
  lemma NotTodayYet(c: Charge, rows: seq<Invoice>, before: Date, today: Date)
    requires ChargeFits(c, rows, before) && RowFits(rows[c.invoice], before) && Unpaid(rows[c.invoice])
    requires AtMost(before, today) && rows[c.invoice].line.retryDate != Some(today)
    ensures Before(c.day, today)
  {
  }

  // ----- over whole runs

  /** No retry of the run raises. */
  predicate RetriesPass(l: Ledger, steps: seq<Step>) {
    steps == [] ||
    (var init, s := steps[..|steps| - 1], steps[|steps| - 1];
      RetriesPass(l, init)
      && (s.Retry? && RetryApplies(After(l, init), s.env.now.date) ==> !DebtConflicts(After(l, init), s.success)))
  }

  /** In a permitted run none does. */
  lemma {:induction false} PermittedRetriesPass(l: Ledger, steps: seq<Step>)
    requires SignedUp(l) && PermittedRun(l, steps)
    ensures RetriesPass(l, steps)
  {
    if steps != [] {
      var init, s := steps[..|steps| - 1], steps[|steps| - 1];
      PermittedRetriesPass(l, init);
      PermittedSound(l, init);
      if s.Retry? && RetryApplies(After(l, init), s.env.now.date) {
        StepSound(After(l, init), s);
        RetryRaisesExactly(After(l, init), s.env, s.success);
      }
    }
  }

  predicate DatesExist(steps: seq<Step>) {
    forall i :: 0 <= i < |steps| ==> Valid(NowOf(steps[i]).date)
  }

  lemma {:induction false} RunRetryOk(l: Ledger, steps: seq<Step>)
    requires SignedUp(l) && RetriesPass(l, steps) && DatesExist(steps) && ClockRises(steps) && steps != []
    ensures RetryOk(After(l, steps), NowOf(steps[|steps| - 1]).date)
  {
    var init, s := steps[..|steps| - 1], steps[|steps| - 1];
    if init == [] {
      StepRetryOk(l, s, NowOf(s).date);
    } else {
      RunRetryOk(l, init);
      assert NotAfter(NowOf(init[|init| - 1]), NowOf(s));
      StepRetryOk(After(l, init), s, NowOf(init[|init| - 1]).date);
    }
  }

  // ----- counting

  /** The days on which an invoice was charged. */
  function ChargeDays(charges: seq<Charge>, id: nat): seq<Date> {
    if charges == [] then []
    else
      var c := charges[|charges| - 1];
      ChargeDays(charges[..|charges| - 1], id) + (if c.invoice == id then [c.day] else [])
  }

  predicate ChargedOn(charges: seq<Charge>, id: nat, day: Date) {
    exists c :: 0 <= c < |charges| && charges[c].invoice == id && charges[c].day == day
  }

  lemma {:induction false} ChargeDaysRise(charges: seq<Charge>, id: nat)
    requires DaysRise(charges)
    ensures forall k :: 0 <= k < |ChargeDays(charges, id)| ==> ChargedOn(charges, id, ChargeDays(charges, id)[k])
    ensures forall j, k :: 0 <= j < k < |ChargeDays(charges, id)| ==> Before(ChargeDays(charges, id)[j], ChargeDays(charges, id)[k])
  {
    if charges != [] {
      var n := |charges| - 1;
      var init, c := charges[..n], charges[n];
      ChargeDaysRise(init, id);
      var before := ChargeDays(init, id);
      forall k | 0 <= k < |before|
        ensures ChargedOn(charges, id, before[k]) && (c.invoice == id ==> Before(before[k], c.day))
      {
        assert ChargedOn(init, id, before[k]);
        var a :| 0 <= a < n && init[a].invoice == id && init[a].day == before[k];
        assert charges[a] == init[a];
      }
      assert c.invoice == id ==> ChargedOn(charges, id, c.day);
    }
  }

  /** Rising days that all lie within `window` days from `start` are at most that many. */
  lemma {:induction false} RisingDaysFew(days: seq<Date>, start: Date, window: int)
    requires Valid(start) && 0 <= window
    requires forall k :: 0 <= k < |days| ==> InWindow(days[k], start, window)
    requires forall j, k :: 0 <= j < k < |days| ==> Before(days[j], days[k])
    ensures |days| <= window
  {
    if days != [] {
      var n := |days| - 1;
      var last := days[n];
      assert InWindow(last, start, window);
      DayNumberOrders(start, last);
      forall k | 0 <= k < n ensures InWindow(days[k], start, DaysBetween(start, last)) {
        assert InWindow(days[k], start, window) && Before(days[k], days[n]);
        DayNumberOrders(days[k], last);
      }
      RisingDaysFew(days[..n], start, DaysBetween(start, last));
    }
  }

  predicate InWindow(d: Date, start: Date, window: int) {
    Valid(d) && AtMost(start, d) && DaysBetween(start, d) < window
  }

  /** How long an invoice is charged: from its issue until thirty days after its due date. */
  function RetryDays(i: Invoice): int {
    30 + DaysBetween(i.issuedAt.date, i.dueAt.date)
  }

  /** In every run in which no retry raises and the clock never goes back, however often the
      due cycle and the retry are run: no invoice is charged twice on a day, and each is
      charged only from its issue on and until less than thirty days after its due date, at
      most once for each of those days; a payment request is therefore charged at most thirty
      times. */
  lemma RetryBound(l: Ledger, steps: seq<Step>, id: nat)
    requires SignedUp(l) && RetriesPass(l, steps) && DatesExist(steps) && ClockRises(steps)
    requires id < |After(l, steps).invoices|
    ensures var r := After(l, steps); var i := r.invoices[id]; var days := ChargeDays(r.charges, id);
      && (forall j, k :: 0 <= j < k < |days| ==> Before(days[j], days[k]))
      && (forall k :: 0 <= k < |days| ==> InWindow(days[k], i.issuedAt.date, RetryDays(i)))
      && |days| <= (if RetryDays(i) < 0 then 0 else RetryDays(i))
      && (i.line.paymentRequest ==> RetryDays(i) == 30)
  {
    var r := After(l, steps);
    if steps != [] {
      RunRetryOk(l, steps);
      ChargeDaysRise(r.charges, id);
      ChargesInWindow(r, id, NowOf(steps[|steps| - 1]).date);
    }
  }

  lemma ChargesInWindow(r: Ledger, id: nat, today: Date)
    requires RetryOk(r, today) && id < |r.invoices|
    ensures var i := r.invoices[id]; var days := ChargeDays(r.charges, id);
      && (forall k :: 0 <= k < |days| ==> InWindow(days[k], i.issuedAt.date, RetryDays(i)))
      && |days| <= (if RetryDays(i) < 0 then 0 else RetryDays(i))
      && (i.line.paymentRequest ==> RetryDays(i) == 30)
  {
    var i, days := r.invoices[id], ChargeDays(r.charges, id);
    ChargeDaysRise(r.charges, id);
    assert RowFits(i, today);
    forall k | 0 <= k < |days| ensures InWindow(days[k], i.issuedAt.date, RetryDays(i)) && 0 < RetryDays(i) {
      assert ChargedOn(r.charges, id, days[k]);
      var c :| 0 <= c < |r.charges| && r.charges[c].invoice == id && r.charges[c].day == days[k];
      assert ChargeFits(r.charges[c], r.invoices, today);
      DayNumberOrders(i.issuedAt.date, days[k]);
    }
    if days != [] {
      assert InWindow(days[0], i.issuedAt.date, RetryDays(i));
      RisingDaysFew(days, i.issuedAt.date, RetryDays(i));
    }
  }
}
