/** What the worker's pass and each operation of the owner and the administrator leave of the
    requests, written out in days and rows. */
module CancellationOutcomes {
  import opened Options
  import opened Calendar
  import opened Instants
  import opened Ledger
  import opened Cancellations
  import opened LedgerStatus

  // ----- days

  /** Days are counted along the calendar, from zero. */
  lemma DaysAreCounted(a: Date, b: Date)
    requires Valid(a) && Valid(b)
    ensures DaysBetween(a, b) == 0 <==> b == a
    ensures DaysBetween(a, b) == 1 <==> b == NextDay(a)
    ensures DaysBetween(a, b) == 2 <==> b == NextDay(NextDay(a))
    ensures DaysBetween(a, NextDay(b)) == DaysBetween(a, b) + 1
  {
    NextDayNumber(a);
    NextDayNumber(NextDay(a));
    NextDayNumber(b);
    DayNumberOrders(a, b);
    DayNumberOrders(NextDay(a), b);
    DayNumberOrders(NextDay(NextDay(a)), b);
  }

  // ----- the pass

  /** A request neither taken back nor cleaned up. */
  predicate Open(c: Cancellation) {
    c.status == DeactivationRequested && c.cleanupAt == None
  }

  /** The pass ends the tenant at this request: it was stamped a week ago or more, and its
      schema can be dropped. */
  predicate EndsTenant(cs: seq<Cancellation>, k: nat, now: Instant, replies: seq<Reply>) {
    && k < |cs| && Open(cs[k]) && cs[k].deactivatedAt.Some? && DaysBetween(cs[k].deactivatedAt.value.date, now.date) >= 7
    && k < |replies| && replies[k].schemaDropped
  }

  lemma EndsIsDeletes(cs: seq<Cancellation>, k: nat, now: Instant, replies: seq<Reply>)
    ensures EndsTenant(cs, k, now, replies) <==> Deletes(cs, k, now, replies)
  {
  }

  /** Open, and no request before it has ended the tenant. */
  predicate LookedAt(cs: seq<Cancellation>, k: nat, now: Instant, replies: seq<Reply>) {
    k < |cs| && Open(cs[k]) && forall i :: 0 <= i < k ==> !EndsTenant(cs, i, now, replies)
  }

  lemma LookedMeaning(cs: seq<Cancellation>, k: nat, now: Instant, replies: seq<Reply>)
    requires k < |cs|
    ensures LookedAt(cs, k, now, replies) <==> Pending(cs[k]) && Reaches(cs, 0, k, now, replies)
  {
    forall i: nat ensures EndsTenant(cs, i, now, replies) <==> Deletes(cs, i, now, replies) {
      EndsIsDeletes(cs, i, now, replies);
    }
  }

  /** A pass records the two-day notice exactly when it is two days to the effective date, the
      one-day notice when it is one, the last when that moment has come, each if there is an
      owner and the mail is accepted and none was recorded before; and it stamps a request that
      has been in effect for a week. */
  lemma NoticesExactly(l: Ledger, now: Instant, replies: seq<Reply>, k: nat)
    requires l.present && k < |l.cancellations| && LookedAt(l.cancellations, k, now, replies)
    ensures var r, c := ProcessLifecycle(l, now, replies), l.cancellations[k];
            var owner := k < |replies| && replies[k].hasOwner;
            var ahead := DaysBetween(now.date, c.effectiveAt.date);
      && |r.cancellations| == |l.cancellations|
      && r.cancellations[k] == Cancellation(
           c.requestedAt, DeactivationRequested, c.effectiveAt,
           if c.noticeTwoDays.None? && owner && replies[k].twoDays && ahead == 2 then Some(now) else c.noticeTwoDays,
           if c.noticeOneDay.None? && owner && replies[k].oneDay && ahead == 1 then Some(now) else c.noticeOneDay,
           if c.noticeExpired.None? && owner && replies[k].expired && NotAfter(c.effectiveAt, now)
             then Some(now) else c.noticeExpired,
           if c.deactivatedAt.None? && DaysBetween(c.effectiveAt.date, now.date) >= 7 then Some(now) else c.deactivatedAt,
           None)
  {
    LookedMeaning(l.cancellations, k, now, replies);
    PassRequests(l, 0, now, replies, k);
  }

  /** No other request changes, and none is added or lost. */
  lemma OthersUntouched(l: Ledger, now: Instant, replies: seq<Reply>, k: nat)
    requires l.present && k < |l.cancellations| && !LookedAt(l.cancellations, k, now, replies)
    ensures var r := ProcessLifecycle(l, now, replies);
      |r.cancellations| == |l.cancellations| && r.cancellations[k] == l.cancellations[k]
  {
    LookedMeaning(l.cancellations, k, now, replies);
    PassRequests(l, 0, now, replies, k);
  }

  /** The tenant is gone after a pass exactly when some request ends it. */
  lemma EndedExactly(l: Ledger, now: Instant, replies: seq<Reply>)
    requires l.present
    ensures !ProcessLifecycle(l, now, replies).present <==>
              exists k :: 0 <= k < |l.cancellations| && EndsTenant(l.cancellations, k, now, replies)
  {
    DeletionExactly(l, now, replies);
    forall k: nat ensures EndsTenant(l.cancellations, k, now, replies) <==> Deletes(l.cancellations, k, now, replies) {
      EndsIsDeletes(l.cancellations, k, now, replies);
    }
  }

  /** The pass stamps this request. */
  predicate StampsRequest(cs: seq<Cancellation>, k: nat, now: Instant, replies: seq<Reply>) {
    && LookedAt(cs, k, now, replies) && cs[k].deactivatedAt == None && DaysBetween(cs[k].effectiveAt.date, now.date) >= 7
  }

  /** A pass that stamps nothing leaves access as it is. */
  lemma {:induction false} AccessKept(l: Ledger, id: nat, now: Instant, replies: seq<Reply>)
    requires forall k :: id <= k < |l.cancellations| && Pending(l.cancellations[k]) && Reaches(l.cancellations, id, k, now, replies)
               ==> !DueForDeactivation(l.cancellations[k], now)
    ensures ProcessFrom(l, id, now, replies).active == l.active
    decreases |l.cancellations| - id
  {
    if id < |l.cancellations| && l.present {
      var cs, next := l.cancellations, ProcessRequest(l, id, now, replies);
      assert Reaches(cs, id, id, now, replies);
      if next.present {
        forall k | id + 1 <= k < |cs| && Pending(next.cancellations[k]) && Reaches(next.cancellations, id + 1, k, now, replies)
          ensures !DueForDeactivation(next.cancellations[k], now)
        {
          SameReach(cs, next.cancellations, id + 1, k, now, replies);
          assert Reaches(cs, id, k, now, replies);
        }
        AccessKept(next, id + 1, now, replies);
      } else {
        PassFrame(next, id + 1, now, replies);
      }
    } else {
      PassFrame(l, id, now, replies);
    }
  }

  /** Access is cut by a pass exactly when it stamps a request. */
  lemma AccessAfterPass(l: Ledger, now: Instant, replies: seq<Reply>)
    requires l.present
    ensures ProcessLifecycle(l, now, replies).active <==>
              l.active && !exists k :: 0 <= k < |l.cancellations| && StampsRequest(l.cancellations, k, now, replies)
  {
    var cs := l.cancellations;
    if k :| 0 <= k < |cs| && StampsRequest(cs, k, now, replies) {
      LookedMeaning(cs, k, now, replies);
      PassSwitchesOff(l, 0, now, replies, k);
    } else {
      forall k | 0 <= k < |cs| && Pending(cs[k]) && Reaches(cs, 0, k, now, replies) ensures !DueForDeactivation(cs[k], now) {
        LookedMeaning(cs, k, now, replies);
        assert !StampsRequest(cs, k, now, replies);
      }
      AccessKept(l, 0, now, replies);
    }
  }

  // ----- the owner and the administrator

  lemma TheLatest(cs: seq<Cancellation>, k: nat)
    requires IsLatestRequest(cs, k)
    ensures LatestCancellation(cs) == Some(k)
  {
    LatestCancellationIs(cs);
    LatestRequestUnique(cs, LatestCancellation(cs).value, k);
  }

  /** Every operation looks at the latest request alone.  Taken back, it is restored at the
      moment of the call, unless it is stamped; cutting access stamps it and switches the
      tenant off, unless knowledge bases are left or it is stamped already. */
  lemma OwnerExactly(l: Ledger, now: Instant, k: nat, activeKbs: nat)
    requires IsLatestRequest(l.cancellations, k)
    ensures var cs := l.cancellations; var c := cs[k];
      && Restore(l, now) == (if c.status != DeactivationRequested then Done(l)
                             else if c.deactivatedAt != None then Raised(l, ValueError)
                             else Done(l.(cancellations := cs[k := c.(status := RenewalRestored, cleanupAt := Some(now))])))
      && DeleteAccess(l, now, activeKbs) ==
           (if activeKbs > 0 then Done(l)
            else if c.status != DeactivationRequested then Raised(l, ValueError)
            else if c.deactivatedAt != None then Done(l)
            else Done(l.(active := false, cancellations := cs[k := c.(deactivatedAt := Some(now))])))
  {
    TheLatest(l.cancellations, k);
  }

  /** The administrator restores an inactive tenant whose latest request is in force, switches
      tenants on and off whose latest request is not, and deletes inactive ones. */
  lemma AdminExactly(l: Ledger, k: nat)
    requires IsLatestRequest(l.cancellations, k)
    ensures var cs := l.cancellations; var requested := cs[k].status == DeactivationRequested;
      && AdminRestore(l) == (if l.active || !requested then Raised(l, ValueError)
                             else Done(l.(active := true, cancellations := cs[k := cs[k].(status := RestoredByAdmin)])))
      && AdminActivate(l) == (if l.active || requested then Raised(l, ValueError) else Done(l.(active := true)))
      && AdminDeactivate(l) == (if !l.active || requested then Raised(l, ValueError) else Done(l.(active := false)))
      && AdminDelete(l) == (if l.active then Raised(l, ValueError) else Done(l.(present := false)))
  {
    TheLatest(l.cancellations, k);
  }

  /** Without any request there is nothing to take back, to stamp or to restore. */
  lemma WithoutRequests(l: Ledger, now: Instant)
    requires l.cancellations == []
    ensures Restore(l, now) == Done(l) && DeleteAccess(l, now, 0) == Raised(l, ValueError)
    ensures AdminRestore(l) == Raised(l, ValueError)
    ensures AdminActivate(l) == (if l.active then Raised(l, ValueError) else Done(l.(active := true)))
    ensures AdminDeactivate(l) == (if l.active then Done(l.(active := false)) else Raised(l, ValueError))
  {
  }

  /** A request with a valid reason is added with the moment of the call, to take effect at the
      beginning of the day after the paid-until date. */
  lemma CancelledExactly(l: Ledger, at: Instant, reasonValid: bool)
    requires Valid(PaidUntil(l.sub))
    ensures var o := Cancel(l, at, reasonValid);
      && (o.Raised? <==> !reasonValid) && (o.Raised? ==> o == Raised(l, ValueError))
      && (o.Done? ==>
            && |o.l.cancellations| == |l.cancellations| + 1 && o.l == l.(cancellations := o.l.cancellations)
            && o.l.cancellations[..|l.cancellations|] == l.cancellations
            && var c := o.l.cancellations[|l.cancellations|];
               && c == Cancellation(at, DeactivationRequested, c.effectiveAt, None, None, None, None, None)
               && c.effectiveAt.micros == 0 && DaysBetween(l.sub.trialEndsAt.date, c.effectiveAt.date) == 1)
  {
    NextDayNumber(PaidUntil(l.sub));
  }
}
