/** Repeated status synchronisation at one instant: it settles after two calls, and what the
    settled status means. */
module LedgerStatus {
  import opened Options
  import opened Calendar
  import opened Instants
  import opened Ledger
  import opened LedgerInvariant
  import opened Cancellations
  import opened LedgerRuns

  // ----- the latest row, described by comparison only

  lemma EarlierTotal(a: Instant, b: Instant, c: Instant)
    ensures !(Earlier(a, b) && Earlier(b, a))
    ensures Earlier(a, b) && Earlier(b, c) ==> Earlier(a, c)
    ensures !Earlier(a, b) && !Earlier(b, c) ==> !Earlier(a, c)
  {
  }

  /** No selected invoice was issued later than the one found. */
  lemma {:induction false} LatestIsLatest(invoices: seq<Invoice>, q: Query)
    ensures var r := Latest(invoices, q);
      r.Some? ==>
        && r.value < |invoices|
        && forall i :: 0 <= i < |invoices| && Selects(q, invoices[i]) ==> !Earlier(invoices[r.value].issuedAt, invoices[i].issuedAt)
  {
    LatestSelects(invoices, q);
    if invoices != [] {
      var n := |invoices| - 1;
      var init, best, r := invoices[..n], Latest(invoices[..n], q), Latest(invoices, q);
      LatestIsLatest(init, q);
      LatestSelects(init, q);
      if r.Some? {
        forall i | 0 <= i < |invoices| && Selects(q, invoices[i])
          ensures !Earlier(invoices[r.value].issuedAt, invoices[i].issuedAt)
        {
          if i < n {
            assert init[i] == invoices[i];
            EarlierTotal(invoices[n].issuedAt, init[best.value].issuedAt, init[i].issuedAt);
          }
        }
      }
    }
  }

  /** Request `k` is the latest: no other was made later, nor at the same moment and after it
      in the table. */
  predicate IsLatestRequest(cs: seq<Cancellation>, k: nat) {
    && k < |cs|
    && (forall j :: 0 <= j < |cs| ==> NotAfter(cs[j].requestedAt, cs[k].requestedAt))
    && (forall j :: k < j < |cs| ==> cs[j].requestedAt != cs[k].requestedAt)
  }

  lemma {:induction false} LatestCancellationIs(cs: seq<Cancellation>)
    ensures var r := LatestCancellation(cs); r.Some? ==> IsLatestRequest(cs, r.value)
  {
    if cs != [] {
      var n := |cs| - 1;
      var best := LatestCancellation(cs[..n]);
      LatestCancellationIs(cs[..n]);
      if best.Some? {
        forall j | 0 <= j < n
          ensures NotAfter(cs[j].requestedAt, cs[best.value].requestedAt)
          ensures best.value < j ==> cs[j].requestedAt != cs[best.value].requestedAt
        {
          assert cs[..n][j] == cs[j] && cs[..n][best.value] == cs[best.value];
        }
      }
    }
  }

  lemma LatestRequestUnique(cs: seq<Cancellation>, j: nat, k: nat)
    requires IsLatestRequest(cs, j) && IsLatestRequest(cs, k)
    ensures j == k
  {
    assert NotAfter(cs[j].requestedAt, cs[k].requestedAt) && NotAfter(cs[k].requestedAt, cs[j].requestedAt);
    assert cs[j].requestedAt == cs[k].requestedAt;
  }

  // ----- convergence

  /** After the stamp nothing is left to cut at the same instant. */
  lemma StampedOnce(cs: seq<Cancellation>, now: Instant)
    ensures var r := StampIfDue(cs, now);
      !CutsAccess(r, now) && (CancellationRestricts(r, now) <==> CancellationRestricts(cs, now) && !CutsAccess(cs, now))
  {
    if CutsAccess(cs, now) {
      var latest := LatestCancellation(cs).value;
      SameLatest(cs, latest, cs[latest].(deactivatedAt := Some(now)));
    }
  }

  /** The state one synchronisation leaves, at an instant with stamps that do not go back. */
  lemma SyncOnce(l: Ledger, now: Instant, stamp: Instant)
    requires NotAfter(l.sub.updatedAt, stamp)
    ensures var r := SyncStatus(l, now, stamp);
      && r.sub.status == TargetStatus(l, now) && r.sub.plan == l.sub.plan && r.sub.trialEndsAt == l.sub.trialEndsAt
      && r.cancellations == StampIfDue(l.cancellations, now)
      && r.invoices == l.invoices && NotAfter(l.sub.updatedAt, r.sub.updatedAt) && NotAfter(r.sub.updatedAt, stamp)
      && (Overdue(r, now) ==> Overdue(l, now))
      && (l.sub.status != TargetStatus(l, now) ==> r.sub.updatedAt == stamp)
      && (l.sub.status == TargetStatus(l, now) ==> r.sub == l.sub)
  {
  }

  /** What deactivates a tenant in a synchronisation. */
  predicate SwitchesOff(l: Ledger, now: Instant) {
    CutsAccess(l.cancellations, now)
    || (Overdue(l, now) && DaysBetween(l.invoices[OverdueCandidate(l.invoices, now).value].dueAt.date, now.date) >= 30)
  }

  lemma SyncSwitches(l: Ledger, now: Instant, stamp: Instant)
    ensures SyncStatus(l, now, stamp).active == (l.active && !SwitchesOff(l, now))
  {
  }

  /** At one instant, with stamps that do not go back, the second synchronisation reaches a
      fixed point: the third changes nothing, so that at most two calls write a status. */
  lemma SyncConverges(l: Ledger, now: Instant, first: Instant, second: Instant, third: Instant)
    requires NotAfter(l.sub.updatedAt, first) && NotAfter(first, second) && NotAfter(second, third)
    ensures var twice := SyncStatus(SyncStatus(l, now, first), now, second); SyncStatus(twice, now, third) == twice
  {
    var once := SyncStatus(l, now, first);
    SyncOnce(l, now, first);
    NotAfterTransitive(once.sub.updatedAt, first, second);
    var twice := SyncStatus(once, now, second);
    SyncOnce(once, now, second);
    NotAfterTransitive(twice.sub.updatedAt, second, third);
    SyncOnce(twice, now, third);
    StampedOnce(l.cancellations, now);
    StampedOnce(once.cancellations, now);
    SecondTarget(l, now, first, second);
    SyncSwitches(once, now, second);
    SyncSwitches(twice, now, third);
    SwitchedOffStays(once, twice, now);
    FixedPoint(twice, now, third);
  }

  lemma SwitchedOffStays(once: Ledger, twice: Ledger, now: Instant)
    requires twice.invoices == once.invoices && !CutsAccess(twice.cancellations, now) && (Overdue(twice, now) ==> Overdue(once, now))
    requires twice.active == (once.active && !SwitchesOff(once, now))
    ensures SwitchesOff(twice, now) ==> !twice.active
  {
  }

  lemma FixedPoint(l: Ledger, now: Instant, stamp: Instant)
    requires l.sub.status == TargetStatus(l, now) && !CutsAccess(l.cancellations, now)
    requires SwitchesOff(l, now) ==> !l.active
    ensures SyncStatus(l, now, stamp) == l
  {
  }

  lemma SecondTarget(l: Ledger, now: Instant, first: Instant, second: Instant)
    requires NotAfter(l.sub.updatedAt, first) && NotAfter(first, second)
    ensures var twice := SyncStatus(SyncStatus(l, now, first), now, second);
      twice.sub.status == TargetStatus(twice, now)
  {
    var once := SyncStatus(l, now, first);
    SyncOnce(l, now, first);
    NotAfterTransitive(once.sub.updatedAt, first, second);
    var twice := SyncStatus(once, now, second);
    SyncOnce(once, now, second);
    StampedOnce(l.cancellations, now);
    StampedOnce(once.cancellations, now);
    assert Overdue(twice, now) <==> Overdue(once, now) by {
      if Overdue(once, now) {
        assert TargetStatus(l, now) == Restricted && TargetStatus(once, now) == Restricted;
        assert twice.sub == once.sub;
      }
    }
  }

  /** A restriction for an overdue payment alone does not last: writing it stamps the
      subscription, and the next synchronisation lifts it unless the payment was issued at
      that very stamp or later. */
  lemma DebtRestrictionFades(l: Ledger, now: Instant, first: Instant, second: Instant)
    requires NotAfter(l.sub.updatedAt, first) && NotAfter(first, second)
    requires l.sub.status != Restricted && Overdue(l, now)
    requires !CancellationRestricts(l.cancellations, now) && !TrialEnded(l.sub, now)
    ensures var once := SyncStatus(l, now, first);
      && once.sub.status == Restricted
      && (SyncStatus(once, now, second).sub.status == Restricted <==>
            !Earlier(l.invoices[OverdueCandidate(l.invoices, now).value].issuedAt, first))
  {
    var once := SyncStatus(l, now, first);
    SyncOnce(l, now, first);
    SyncOnce(once, now, second);
    StampedOnce(l.cancellations, now);
  }

  // ----- what the settled status means

  /** A request to cancel that has taken effect, not restored and not yet cut off. */
  predicate LiveCancellation(cs: seq<Cancellation>, now: Instant) {
    exists k :: 0 <= k < |cs| && IsLatestRequest(cs, k) && LiveRequest(cs[k], now)
  }

  predicate LiveRequest(c: Cancellation, now: Instant) {
    c.status == DeactivationRequested && c.deactivatedAt.None? && NotAfter(c.effectiveAt, now)
  }

  /** A failed payment, due before today, issued no earlier than the subscription was last
      written, and with no paid invoice issued after it. */
  predicate OverdueFailure(l: Ledger, now: Instant) {
    exists i :: 0 <= i < |l.invoices| && l.invoices[i].status == PaymentFailed && CountsAgainst(l, l.invoices[i], now)
  }

  predicate CountsAgainst(l: Ledger, i: Invoice, now: Instant) {
    && Before(i.dueAt.date, now.date) && !Earlier(i.issuedAt, l.sub.updatedAt)
    && forall p :: 0 <= p < |l.invoices| && l.invoices[p].status == Paid ==> !Earlier(i.issuedAt, l.invoices[p].issuedAt)
  }

  lemma CancellationMeaning(cs: seq<Cancellation>, now: Instant)
    ensures CancellationRestricts(cs, now) <==> LiveCancellation(cs, now)
  {
    LatestCancellationIs(cs);
    if LiveCancellation(cs, now) {
      var k :| 0 <= k < |cs| && IsLatestRequest(cs, k) && LiveRequest(cs[k], now);
      LatestRequestUnique(cs, LatestCancellation(cs).value, k);
    }
  }

  /** In a sound ledger the one failed row is what the search finds. */
  lemma CandidateIsTheFailure(l: Ledger, i: nat, now: Instant)
    requires Sound(l) && i < |l.invoices| && l.invoices[i].status == PaymentFailed
    ensures var rows := l.invoices;
      && Latest(rows, OfKind(MonthlySubscriptionFailed)) == Some(i)
      && !FailedAt(rows, Latest(rows, OfKind(MonthlySubscription)))
  {
    var rows := l.invoices;
    LatestSelects(rows, OfKind(MonthlySubscriptionFailed));
    LatestSelects(rows, OfKind(MonthlySubscription));
    assert Placed(rows[i], PaidUntil(l.sub));
    var failed := Latest(rows, OfKind(MonthlySubscriptionFailed));
    assert Selects(OfKind(MonthlySubscriptionFailed), rows[i]);
    assert Placed(rows[failed.value], PaidUntil(l.sub));
    var monthly := Latest(rows, OfKind(MonthlySubscription));
    if monthly.Some? {
      assert Placed(rows[monthly.value], PaidUntil(l.sub));
    }
  }

  lemma PaidAfterMeaning(l: Ledger, i: nat)
    requires Sound(l) && i < |l.invoices| && l.invoices[i].status == PaymentFailed
    ensures var rows := l.invoices; var monthly := Latest(rows, OfKind(MonthlySubscription));
      (monthly.Some? && monthly.value < |rows| && rows[monthly.value].status == Paid
       && Earlier(rows[i].issuedAt, rows[monthly.value].issuedAt))
      <==> exists p :: 0 <= p < |rows| && rows[p].status == Paid && Earlier(rows[i].issuedAt, rows[p].issuedAt)
  {
    var rows := l.invoices;
    var monthly := Latest(rows, OfKind(MonthlySubscription));
    LatestSelects(rows, OfKind(MonthlySubscription));
    LatestIsLatest(rows, OfKind(MonthlySubscription));
    if p :| 0 <= p < |rows| && rows[p].status == Paid && Earlier(rows[i].issuedAt, rows[p].issuedAt) {
      assert Placed(rows[p], PaidUntil(l.sub));
      assert Selects(OfKind(MonthlySubscription), rows[p]);
      assert Placed(rows[monthly.value], PaidUntil(l.sub)) && Placed(rows[i], PaidUntil(l.sub));
      EarlierTotal(rows[i].issuedAt, rows[monthly.value].issuedAt, rows[p].issuedAt);
    }
  }

  lemma OverdueMeaning(l: Ledger, now: Instant)
    requires Sound(l)
    ensures Overdue(l, now) <==> OverdueFailure(l, now)
  {
    var rows := l.invoices;
    if i :| 0 <= i < |rows| && rows[i].status == PaymentFailed {
      CandidateIsTheFailure(l, i, now);
      PaidAfterMeaning(l, i);
      assert forall k :: 0 <= k < |rows| && rows[k].status == PaymentFailed ==> k == i by {
        assert Placed(rows[i], PaidUntil(l.sub));
        forall k | 0 <= k < |rows| && rows[k].status == PaymentFailed ensures k == i {
          assert Placed(rows[k], PaidUntil(l.sub));
        }
      }
    } else {
      assert OverdueCandidate(rows, now) == None;
    }
  }

  /** At the fixed point of any run's ledger the subscription is restricted exactly for a
      cancellation in force, an overdue failed payment not answered since, or an ended trial. */
  lemma RestrictedExactly(start: Ledger, steps: seq<Step>, now: Instant, first: Instant, second: Instant)
    requires SignedUp(start) && PermittedRun(start, steps)
    requires NotAfter(After(start, steps).sub.updatedAt, first) && NotAfter(first, second)
    ensures var l := SyncStatus(SyncStatus(After(start, steps), now, first), now, second);
      l.sub.status == Restricted <==>
        LiveCancellation(l.cancellations, now) || OverdueFailure(l, now)
        || (l.sub.plan == "free" && NotAfter(l.sub.trialEndsAt, now))
  {
    var l := After(start, steps);
    PermittedSound(start, steps);
    var once := SyncStatus(l, now, first);
    var twice := SyncStatus(once, now, second);
    SyncSameBilling(l, now, first);
    SameBillingSound(l, once);
    SyncSameBilling(once, now, second);
    SameBillingSound(once, twice);
    SecondTarget(l, now, first, second);
    CancellationMeaning(twice.cancellations, now);
    OverdueMeaning(twice, now);
  }
}
