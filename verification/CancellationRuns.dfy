/** Cancellation over whole runs: what must have happened before a tenant is deleted. */
module CancellationRuns {
  import opened Options
  import opened Calendar
  import opened Instants
  import opened Ledger
  import opened LedgerInvariant
  import opened Cancellations
  import opened LedgerRuns
  import opened LedgerRows

  /** Only a request in force is stamped; only the owner's own deletion cuts access earlier than
      a week after the effective date. */
  predicate StampedRightly(c: Cancellation, d: Cancellation, s: Step) {
    c.deactivatedAt.None? && d.deactivatedAt.Some? ==>
      && d.deactivatedAt == Some(NowOf(s)) && c.status == DeactivationRequested && d.status == DeactivationRequested
      && (s.CutOff? || DaysBetween(c.effectiveAt.date, NowOf(s).date) >= 7)
  }

  /** The owner takes back a request that is not stamped, the administrator any. */
  predicate RestoredRightly(c: Cancellation, d: Cancellation, s: Step) {
    d.status != c.status ==>
      (s.TakeBack? && d.status == RenewalRestored && c.deactivatedAt.None?) || (s.RestoreByAdmin? && d.status == RestoredByAdmin)
  }

  /** A notice is recorded by a pass of the worker, on its own day: two days before the effective
      date, one day before it, or from the effective moment on. */
  predicate NoticedRightly(c: Cancellation, d: Cancellation, s: Step) {
    && (d.noticeTwoDays != c.noticeTwoDays ==>
          s.Lifecycle? && d.noticeTwoDays == Some(s.at) && DaysBetween(s.at.date, c.effectiveAt.date) == 2)
    && (d.noticeOneDay != c.noticeOneDay ==>
          s.Lifecycle? && d.noticeOneDay == Some(s.at) && DaysBetween(s.at.date, c.effectiveAt.date) == 1)
    && (d.noticeExpired != c.noticeExpired ==>
          s.Lifecycle? && d.noticeExpired == Some(s.at) && NotAfter(c.effectiveAt, s.at))
  }

  predicate RequestEvolves(c: Cancellation, d: Cancellation, s: Step) {
    Advances(c, d) && StampedRightly(c, d, s) && RestoredRightly(c, d, s) && NoticedRightly(c, d, s)
  }

  predicate NewRequest(c: Cancellation, l: Ledger, s: Step) {
    && s.RequestCancel? && c.requestedAt == s.at && c.status == DeactivationRequested
    && c.cleanupAt.None? && c.deactivatedAt.None?
    && c.noticeTwoDays.None? && c.noticeOneDay.None? && c.noticeExpired.None?
    && c.effectiveAt == Midnight(NextDay(PaidUntil(l.sub)))
  }

  ghost predicate RequestsEvolve(l: Ledger, r: Ledger, s: Step) {
    && |l.cancellations| <= |r.cancellations|
    && (forall k :: 0 <= k < |l.cancellations| ==> RequestEvolves(l.cancellations[k], r.cancellations[k], s))
    && (forall k :: |l.cancellations| <= k < |r.cancellations| ==> NewRequest(r.cancellations[k], l, s))
  }

  lemma StampEvolves(cs: seq<Cancellation>, s: Step, k: nat)
    requires k < |cs|
    ensures |StampIfDue(cs, NowOf(s))| == |cs| && RequestEvolves(cs[k], StampIfDue(cs, NowOf(s))[k], s)
  {
  }

  lemma BillingFramed(l: Ledger, s: Step)
    requires IsBilling(s)
    ensures Framed(l, Apply(l, s).l.(charges := l.charges), NowOf(s))
  {
    StepEvolves(l, s);
  }

  lemma BillingEvolves(l: Ledger, s: Step)
    requires IsBilling(s)
    ensures RequestsEvolve(l, Apply(l, s).l, s) && Apply(l, s).l.present == l.present
  {
    var r := Apply(l, s).l;
    BillingFramed(l, s);
    FramedEvolves(l, r, s);
  }

  lemma FramedEvolves(l: Ledger, r: Ledger, s: Step)
    requires Framed(l, r.(charges := l.charges), NowOf(s))
    ensures RequestsEvolve(l, r, s)
  {
    forall k | 0 <= k < |l.cancellations|
      ensures k < |r.cancellations| && RequestEvolves(l.cancellations[k], r.cancellations[k], s)
    {
      StampEvolves(l.cancellations, s, k);
    }
    if CutsAccess(l.cancellations, NowOf(s)) {
      StampEvolves(l.cancellations, s, LatestCancellation(l.cancellations).value);
    }
  }

  lemma FramedClean(l: Ledger, r: Ledger, now: Instant)
    requires Framed(l, r.(charges := l.charges), now) && CleanOnlyIfRestored(l.cancellations)
    ensures CleanOnlyIfRestored(r.cancellations)
  {
  }

  lemma PassEvolves(l: Ledger, s: Step)
    requires s.Lifecycle? && l.present
    ensures RequestsEvolve(l, Apply(l, s).l, s)
  {
    var r := ProcessLifecycle(l, s.at, s.replies);
    PassFrame(l, 0, s.at, s.replies);
    forall k | 0 <= k < |l.cancellations| ensures RequestEvolves(l.cancellations[k], r.cancellations[k], s) {
      PassRequests(l, 0, s.at, s.replies, k);
    }
  }

  lemma StepRequests(l: Ledger, s: Step)
    requires CleanOnlyIfRestored(l.cancellations)
    ensures RequestsEvolve(l, Apply(l, s).l, s) && CleanOnlyIfRestored(Apply(l, s).l.cancellations)
  {
    if IsBilling(s) {
      BillingFramed(l, s);
      FramedEvolves(l, Apply(l, s).l, s);
      FramedClean(l, Apply(l, s).l, NowOf(s));
    } else if l.present && s.Lifecycle? {
      PassEvolves(l, s);
      PassClean(l, s);
    } else if s.RequestCancel? {
      CancelRequests(l, s);
    } else if s.TakeBack? {
      TakeBackRequests(l, s);
    } else if s.CutOff? {
      CutOffRequests(l, s);
    } else {
      AdminRequests(l, s);
    }
  }

  lemma CancelRequests(l: Ledger, s: Step)
    requires CleanOnlyIfRestored(l.cancellations) && s.RequestCancel?
    ensures RequestsEvolve(l, Apply(l, s).l, s) && CleanOnlyIfRestored(Apply(l, s).l.cancellations)
  {
  }

  lemma TakeBackRequests(l: Ledger, s: Step)
    requires CleanOnlyIfRestored(l.cancellations) && s.TakeBack?
    ensures RequestsEvolve(l, Apply(l, s).l, s) && CleanOnlyIfRestored(Apply(l, s).l.cancellations)
  {
  }

  lemma CutOffRequests(l: Ledger, s: Step)
    requires CleanOnlyIfRestored(l.cancellations) && s.CutOff?
    ensures RequestsEvolve(l, Apply(l, s).l, s) && CleanOnlyIfRestored(Apply(l, s).l.cancellations)
  {
  }

  lemma SameRequests(l: Ledger, r: Ledger, s: Step)
    requires r.cancellations == l.cancellations
    ensures RequestsEvolve(l, r, s)
  {
  }

  lemma AdminRequests(l: Ledger, s: Step)
    requires CleanOnlyIfRestored(l.cancellations) && (l.present ==> !s.Lifecycle?)
    requires TenantStep(s) && !s.RequestCancel? && !s.TakeBack? && !s.CutOff?
    ensures RequestsEvolve(l, Apply(l, s).l, s) && CleanOnlyIfRestored(Apply(l, s).l.cancellations)
  {
    if l.present && s.RestoreByAdmin? {
      AdminRestoreRequests(l, s);
    } else {
      SameRequests(l, Apply(l, s).l, s);
    }
  }

  lemma AdminRestoreRequests(l: Ledger, s: Step)
    requires CleanOnlyIfRestored(l.cancellations) && s.RestoreByAdmin?
    ensures RequestsEvolve(l, AdminRestore(l).l, s) && CleanOnlyIfRestored(AdminRestore(l).l.cancellations)
  {
  }

  lemma PassClean(l: Ledger, s: Step)
    requires CleanOnlyIfRestored(l.cancellations) && s.Lifecycle? && l.present
    ensures CleanOnlyIfRestored(Apply(l, s).l.cancellations)
  {
    var r := ProcessLifecycle(l, s.at, s.replies);
    PassFrame(l, 0, s.at, s.replies);
    forall k | 0 <= k < |l.cancellations|
      ensures r.cancellations[k].cleanupAt.Some? <==> r.cancellations[k].status == RenewalRestored
    {
      PassRequests(l, 0, s.at, s.replies, k);
    }
  }

  lemma {:induction false} RunClean(l: Ledger, steps: seq<Step>)
    requires l.cancellations == []
    ensures CleanOnlyIfRestored(After(l, steps).cancellations)
  {
    if steps != [] {
      RunClean(l, steps[..|steps| - 1]);
      StepRequests(After(l, steps[..|steps| - 1]), steps[|steps| - 1]);
    }
  }

  lemma {:induction false} RequestsKept(l: Ledger, steps: seq<Step>, more: seq<Step>, k: nat)
    requires l.cancellations == [] && k < |After(l, steps).cancellations|
    ensures k < |After(l, steps + more).cancellations|
    ensures Advances(After(l, steps).cancellations[k], After(l, steps + more).cancellations[k])
  {
    if more == [] {
      assert steps + more == steps;
    } else {
      var n := |more| - 1;
      assert (steps + more)[..|steps + more| - 1] == steps + more[..n];
      RequestsKept(l, steps, more[..n], k);
      var before := After(l, steps + more[..n]);
      RunClean(l, steps + more[..n]);
      StepRequests(before, more[n]);
      assert RequestEvolves(before.cancellations[k], After(l, steps + more).cancellations[k], more[n]);
    }
  }

  /** As long as the tenant is not deleted, no request is dropped or rewritten, each notice and
      each stamp is recorded at most once, a restored request stays as it was restored, and one
      that is cut off is restored by the administrator only; with the tenant all requests go. */
  lemma WrittenOnce(l: Ledger, steps: seq<Step>, more: seq<Step>, k: nat)
    requires l.cancellations == [] && k < |StoredRequests(After(l, steps))|
    ensures var before, after := StoredRequests(After(l, steps)), StoredRequests(After(l, steps + more));
      if After(l, steps + more).present then k < |after| && Advances(before[k], after[k]) else after == []
  {
    RequestsKept(l, steps, more, k);
  }

  // ----- where a stamp comes from

  /** Step `j` of the run stamped request `k`. */
  ghost predicate StampedBy(l: Ledger, steps: seq<Step>, j: nat, k: nat) {
    && j < |steps|
    && var before, after := After(l, steps[..j]), After(l, steps[..j + 1]);
       && k < |before.cancellations| && k < |after.cancellations|
       && before.cancellations[k].deactivatedAt.None?
       && after.cancellations[k].deactivatedAt == Some(NowOf(steps[j]))
       && (steps[j].CutOff? || DaysBetween(before.cancellations[k].effectiveAt.date, NowOf(steps[j]).date) >= 7)
  }

  lemma StampedByLonger(l: Ledger, steps: seq<Step>, j: nat, k: nat)
    requires steps != [] && StampedBy(l, steps[..|steps| - 1], j, k)
    ensures StampedBy(l, steps, j, k)
  {
    var init := steps[..|steps| - 1];
    assert init[..j] == steps[..j] && init[..j + 1] == steps[..j + 1];
  }

  lemma {:induction false} StampOrigin(l: Ledger, steps: seq<Step>, k: nat) returns (j: nat)
    requires l.cancellations == [] && k < |After(l, steps).cancellations|
    requires After(l, steps).cancellations[k].deactivatedAt.Some?
    ensures StampedBy(l, steps, j, k) && After(l, steps).cancellations[k].deactivatedAt == Some(NowOf(steps[j]))
  {
    var n := |steps| - 1;
    var init, s := steps[..n], steps[n];
    var before, after := After(l, init), After(l, steps);
    RunClean(l, init);
    StepRequests(before, s);
    if k < |before.cancellations| && before.cancellations[k].deactivatedAt.Some? {
      assert RequestEvolves(before.cancellations[k], after.cancellations[k], s);
      j := StampOrigin(l, init, k);
      StampedByLonger(l, steps, j, k);
    } else {
      j := n;
      assert k < |before.cancellations| ==> RequestEvolves(before.cancellations[k], after.cancellations[k], s);
      assert steps[..n + 1] == steps;
    }
  }

  // ----- where a notice comes from

  /** Step `j` of the run is the pass of that moment. */
  predicate PassAt(steps: seq<Step>, j: nat, at: Instant) {
    j < |steps| && steps[j].Lifecycle? && steps[j].at == at
  }

  ghost predicate PassOf(steps: seq<Step>, at: Instant) {
    exists j: nat :: PassAt(steps, j, at)
  }

  /** Every notice on the request was recorded by a pass of the run on the day for it. */
  ghost predicate InTime(c: Cancellation, steps: seq<Step>) {
    && (c.noticeTwoDays.Some? ==>
          DaysBetween(c.noticeTwoDays.value.date, c.effectiveAt.date) == 2 && PassOf(steps, c.noticeTwoDays.value))
    && (c.noticeOneDay.Some? ==>
          DaysBetween(c.noticeOneDay.value.date, c.effectiveAt.date) == 1 && PassOf(steps, c.noticeOneDay.value))
    && (c.noticeExpired.Some? ==>
          NotAfter(c.effectiveAt, c.noticeExpired.value) && PassOf(steps, c.noticeExpired.value))
  }

  lemma PassOfLonger(steps: seq<Step>, s: Step, at: Instant)
    ensures PassOf(steps, at) ==> PassOf(steps + [s], at)
    ensures s.Lifecycle? ==> PassOf(steps + [s], s.at)
  {
    if PassOf(steps, at) {
      var j: nat :| PassAt(steps, j, at);
      assert PassAt(steps + [s], j, at);
    }
    assert s.Lifecycle? ==> PassAt(steps + [s], |steps|, s.at);
  }

  lemma InTimeLonger(c: Cancellation, d: Cancellation, steps: seq<Step>, s: Step)
    requires InTime(c, steps) && RequestEvolves(c, d, s)
    ensures InTime(d, steps + [s])
  {
    forall at: Instant ensures PassOf(steps, at) ==> PassOf(steps + [s], at) {
      PassOfLonger(steps, s, at);
    }
    PassOfLonger(steps, s, NowOf(s));
  }

  /** In every run each recorded notice carries the moment of a pass that ran exactly two days
      or one day before the effective date, or after the effective moment. */
  lemma {:induction false} NoticesInTime(l: Ledger, steps: seq<Step>, k: nat)
    requires l.cancellations == [] && k < |After(l, steps).cancellations|
    ensures InTime(After(l, steps).cancellations[k], steps)
  {
    var n := |steps| - 1;
    var before, after := After(l, steps[..n]), After(l, steps);
    RunClean(l, steps[..n]);
    StepRequests(before, steps[n]);
    assert steps[..n] + [steps[n]] == steps;
    if k < |before.cancellations| {
      NoticesInTime(l, steps[..n], k);
      assert RequestEvolves(before.cancellations[k], after.cancellations[k], steps[n]);
      InTimeLonger(before.cancellations[k], after.cancellations[k], steps[..n], steps[n]);
    } else {
      assert NewRequest(after.cancellations[k], before, steps[n]);
    }
  }

  /** Step `j` of the run is the administrator's, and it restored request `k`. */
  ghost predicate RestoredBy(l: Ledger, steps: seq<Step>, j: nat, k: nat) {
    && j < |steps| && steps[j].RestoreByAdmin?
    && var before, after := After(l, steps[..j]), After(l, steps[..j + 1]);
       && k < |before.cancellations| && k < |after.cancellations| && !before.active && after.active
       && before.cancellations[k].status == DeactivationRequested && after.cancellations[k].status == RestoredByAdmin
  }

  /** A stamped request that was restored, in whatever run, was restored by the administrator,
      while the tenant was inactive. */
  lemma {:induction false} RestoreOrigin(l: Ledger, steps: seq<Step>, k: nat) returns (j: nat)
    requires l.cancellations == [] && k < |After(l, steps).cancellations|
    requires var c := After(l, steps).cancellations[k];
      c.status == RestoredByAdmin || (c.deactivatedAt.Some? && c.status != DeactivationRequested)
    ensures RestoredBy(l, steps, j, k)
  {
    var n := |steps| - 1;
    var init, s := steps[..n], steps[n];
    var before, after := After(l, init), After(l, steps);
    RunClean(l, init);
    StepRequests(before, s);
    RunStamped(l, steps, k);
    if k < |before.cancellations| && before.cancellations[k].status == RestoredByAdmin {
      j := RestoreOrigin(l, init, k);
      assert init[..j] == steps[..j] && init[..j + 1] == steps[..j + 1];
    } else {
      j := n;
      assert k < |before.cancellations| ==> RequestEvolves(before.cancellations[k], after.cancellations[k], s);
      assert steps[..n + 1] == steps;
    }
  }

  /** A stamped request is in force or restored by the administrator. */
  lemma {:induction false} RunStamped(l: Ledger, steps: seq<Step>, k: nat)
    requires l.cancellations == [] && k < |After(l, steps).cancellations|
    ensures After(l, steps).cancellations[k].deactivatedAt.Some? ==> After(l, steps).cancellations[k].status != RenewalRestored
  {
    var n := |steps| - 1;
    var before, after := After(l, steps[..n]), After(l, steps);
    RunClean(l, steps[..n]);
    StepRequests(before, steps[n]);
    if k < |before.cancellations| {
      RunStamped(l, steps[..n], k);
      assert RequestEvolves(before.cancellations[k], after.cancellations[k], steps[n]);
    } else {
      assert NewRequest(after.cancellations[k], before, steps[n]);
    }
  }

  /** Step `i` of the run made request `k`, to take effect on the day after the paid period. */
  ghost predicate RequestedBy(l: Ledger, steps: seq<Step>, i: nat, k: nat) {
    && i < |steps| && steps[i].RequestCancel?
    && var before, after := After(l, steps[..i]), After(l, steps[..i + 1]);
       && |before.cancellations| <= k < |after.cancellations|
       && after.cancellations[k].effectiveAt == Midnight(NextDay(PaidUntil(before.sub)))
  }

  lemma {:induction false} RequestOrigin(l: Ledger, steps: seq<Step>, k: nat) returns (i: nat)
    requires l.cancellations == [] && k < |After(l, steps).cancellations|
    ensures RequestedBy(l, steps, i, k)
    ensures After(l, steps).cancellations[k].effectiveAt == After(l, steps[..i + 1]).cancellations[k].effectiveAt
  {
    var n := |steps| - 1;
    var init, s := steps[..n], steps[n];
    var before, after := After(l, init), After(l, steps);
    RunClean(l, init);
    StepRequests(before, s);
    if k < |before.cancellations| {
      assert RequestEvolves(before.cancellations[k], after.cancellations[k], s);
      i := RequestOrigin(l, init, k);
      assert init[..i] == steps[..i] && init[..i + 1] == steps[..i + 1];
    } else {
      i := n;
      assert NewRequest(after.cancellations[k], before, s);
      assert steps[..n + 1] == steps;
    }
  }

  // ----- deletion

  ghost predicate NeverRestored(l: Ledger, steps: seq<Step>, k: nat) {
    forall m :: 0 <= m <= |steps| ==> StillRequested(After(l, steps[..m]).cancellations, k)
  }

  predicate StillRequested(cs: seq<Cancellation>, k: nat) {
    k < |cs| ==> cs[k].status == DeactivationRequested
  }

  lemma RequestedThroughout(l: Ledger, steps: seq<Step>, k: nat)
    requires l.cancellations == [] && k < |After(l, steps).cancellations|
    requires After(l, steps).cancellations[k].status == DeactivationRequested
    ensures NeverRestored(l, steps, k)
  {
    forall m | 0 <= m <= |steps| ensures StillRequested(After(l, steps[..m]).cancellations, k) {
      RequestedBefore(l, steps, k, m);
    }
  }

  lemma StillInForce(c: Cancellation, d: Cancellation)
    requires Advances(c, d) && d.status == DeactivationRequested
    ensures c.status == DeactivationRequested
  {
  }

  lemma RequestedBefore(l: Ledger, steps: seq<Step>, k: nat, m: nat)
    requires l.cancellations == [] && k < |After(l, steps).cancellations| && m <= |steps|
    requires After(l, steps).cancellations[k].status == DeactivationRequested
    ensures StillRequested(After(l, steps[..m]).cancellations, k)
  {
    var first, rest := steps[..m], steps[m..];
    assert first + rest == steps;
    if k < |After(l, first).cancellations| {
      RequestsKept(l, first, rest, k);
      StillInForce(After(l, first).cancellations[k], After(l, first + rest).cancellations[k]);
    }
  }

  /** Why a tenant was deleted by the step after the run: request `k`, made by step `i` and
      never restored, was stamped by an earlier step `j`, at least seven days ago; and unless
      the owner cut off access himself, the request had then been in effect for seven days. */
  ghost predicate DeletedFor(l: Ledger, steps: seq<Step>, at: Instant, i: nat, j: nat, k: nat) {
    && RequestedBy(l, steps, i, k) && StampedBy(l, steps, j, k) && NeverRestored(l, steps, k)
    && i < j
    && DaysBetween(NowOf(steps[j]).date, at.date) >= 7
    && (!steps[j].CutOff? ==> DaysBetween(NextDay(PaidUntil(After(l, steps[..i]).sub)), at.date) >= 14)
  }

  /** In every run a tenant is deleted by the lifecycle worker, for a request that meets all of
      this, or by the administrator, while it is inactive. */
  lemma DeletionStory(l: Ledger, steps: seq<Step>, s: Step)
    requires l.cancellations == [] && After(l, steps).present && !Apply(After(l, steps), s).l.present
    ensures if s.DeleteByAdmin? then !After(l, steps).active
            else s.Lifecycle? && exists i: nat, j: nat, k: nat :: DeletedFor(l, steps, s.at, i, j, k)
  {
    if !s.DeleteByAdmin? {
      OnlyWorkerDeletes(After(l, steps), s);
      DeletionExactly(After(l, steps), s.at, s.replies);
      var k :| 0 <= k < |After(l, steps).cancellations| && Deletes(After(l, steps).cancellations, k, s.at, s.replies);
      WorkerDeletion(l, steps, s.at, s.replies, k);
    }
  }

  lemma WorkerDeletion(l: Ledger, steps: seq<Step>, at: Instant, replies: seq<Reply>, k: nat)
    requires l.cancellations == [] && Deletes(After(l, steps).cancellations, k, at, replies)
    ensures exists i: nat, j: nat :: DeletedFor(l, steps, at, i, j, k)
  {
    var j := StampOrigin(l, steps, k);
    var i := RequestOrigin(l, steps, k);
    RequestedThroughout(l, steps, k);
    StampAfterRequest(l, steps, i, j, k);
    assert DeletedFor(l, steps, at, i, j, k);
  }

  lemma OnlyWorkerDeletes(l: Ledger, s: Step)
    requires l.present && !Apply(l, s).l.present
    ensures s.Lifecycle? || s.DeleteByAdmin?
  {
    if IsBilling(s) {
      BillingEvolves(l, s);
    }
  }

  lemma StampAfterRequest(l: Ledger, steps: seq<Step>, i: nat, j: nat, k: nat)
    requires l.cancellations == [] && RequestedBy(l, steps, i, k) && StampedBy(l, steps, j, k)
    ensures i < j && After(l, steps[..j]).cancellations[k].effectiveAt == After(l, steps[..i + 1]).cancellations[k].effectiveAt
  {
    if j <= i {
      StillThere(l, steps, j, i, k);
      assert false;
    }
    StillThere(l, steps, i + 1, j, k);
  }

  /** A request that is there after `i` steps is there after `j`, with the same effective date. */
  lemma StillThere(l: Ledger, steps: seq<Step>, i: nat, j: nat, k: nat)
    requires l.cancellations == [] && i <= j <= |steps| && k < |After(l, steps[..i]).cancellations|
    ensures k < |After(l, steps[..j]).cancellations|
    ensures After(l, steps[..j]).cancellations[k].effectiveAt == After(l, steps[..i]).cancellations[k].effectiveAt
  {
    assert steps[..i] + steps[i..j] == steps[..j];
    RequestsKept(l, steps[..i], steps[i..j], k);
  }

  // ----- the order of requests

  ghost predicate InOrder(cs: seq<Cancellation>) {
    forall i, j :: 0 <= i < j < |cs| ==> NotAfter(cs[i].requestedAt, cs[j].requestedAt)
  }

  ghost predicate MadeBy(cs: seq<Cancellation>, at: Instant) {
    forall i :: 0 <= i < |cs| ==> NotAfter(cs[i].requestedAt, at)
  }

  /** With a clock that never goes back the table lists the requests in the order they were
      made, which is the order the worker's query asks for. */
  lemma {:induction false} RequestsInOrder(l: Ledger, steps: seq<Step>)
    requires l.cancellations == [] && ClockRises(steps)
    ensures InOrder(After(l, steps).cancellations)
    ensures steps != [] ==> MadeBy(After(l, steps).cancellations, NowOf(steps[|steps| - 1]))
  {
    if steps != [] {
      var n := |steps| - 1;
      var init, s := steps[..n], steps[n];
      RequestsInOrder(l, init);
      RunClean(l, init);
      StepRequests(After(l, init), s);
      OrderKept(After(l, init), After(l, steps), s, NowOf(if n > 0 then steps[n - 1] else s));
    }
  }

  lemma OrderKept(l: Ledger, r: Ledger, s: Step, before: Instant)
    requires RequestsEvolve(l, r, s) && NotAfter(before, NowOf(s))
    requires InOrder(l.cancellations) && MadeBy(l.cancellations, before)
    ensures InOrder(r.cancellations) && MadeBy(r.cancellations, NowOf(s))
  {
    var cs, ds := l.cancellations, r.cancellations;
    forall i | 0 <= i < |ds| ensures NotAfter(ds[i].requestedAt, NowOf(s)) {
      if i < |cs| {
        assert RequestEvolves(cs[i], ds[i], s);
        NotAfterTransitive(cs[i].requestedAt, before, NowOf(s));
      } else {
        assert NewRequest(ds[i], l, s);
      }
    }
    forall i, j | 0 <= i < j < |ds| ensures NotAfter(ds[i].requestedAt, ds[j].requestedAt) {
      if j < |cs| {
        assert RequestEvolves(cs[i], ds[i], s) && RequestEvolves(cs[j], ds[j], s);
      } else {
        assert NewRequest(ds[j], l, s);
      }
    }
  }

  // ----- one pass that cuts access and deletes

  /** A tenant cancels twice and cuts off access, which stamps the later request.  The first
      pass a week after the cancellation took effect and after that stamp stamps the earlier
      request and deletes the tenant for the later. */
  lemma StampsOneDeletesForAnother(l: Ledger, first: Instant, second: Instant, cut: Instant, before: Ledger,
                                   pass: Instant, replies: seq<Reply>)
    requires SignedUp(l) && NotAfter(first, second) && ReplyAt(replies, 1).schemaDropped
    requires before == After(l, [RequestCancel(first, true), RequestCancel(second, true), CutOff(cut, 0)])
    requires DaysBetween(NextDay(PaidUntil(l.sub)), pass.date) >= 7 && DaysBetween(cut.date, pass.date) >= 7
    ensures before.present
    ensures StampsSome(before, ProcessLifecycle(before, pass, replies)) && !ProcessLifecycle(before, pass, replies).present
  {
    CancelledTwice(l, first, second, cut);
    TwoRequests(l, first, second, cut);
    PassOverTwo(before, pass, replies);
  }

  lemma PassOverTwo(l: Ledger, pass: Instant, replies: seq<Reply>)
    requires l.present && |l.cancellations| == 2 && Pending(l.cancellations[0]) && DueForDeactivation(l.cancellations[0], pass)
    requires Deletes(l.cancellations, 1, pass, replies)
    ensures StampsSome(l, ProcessLifecycle(l, pass, replies)) && !ProcessLifecycle(l, pass, replies).present
  {
    assert StampThenDelete(l.cancellations, 0, 1, pass, replies);
    StampsAndDeletesExactly(l, pass, replies);
  }

  lemma CancelledTwice(l: Ledger, first: Instant, second: Instant, cut: Instant)
    requires l.present
    ensures After(l, [RequestCancel(first, true), RequestCancel(second, true), CutOff(cut, 0)]) ==
            DeleteAccess(Cancel(Cancel(l, first, true).l, second, true).l, cut, 0).l
  {
    var a, b, c := RequestCancel(first, true), RequestCancel(second, true), CutOff(cut, 0);
    OwnerStep(l, [], a, l);
    OwnerStep(l, [a], b, Cancel(l, first, true).l);
    OwnerStep(l, [a, b], c, Cancel(Cancel(l, first, true).l, second, true).l);
    assert [] + [a] == [a] && [a] + [b] == [a, b] && [a, b] + [c] == [a, b, c];
  }

  /** One more step of the owner's, from a state already worked out. */
  lemma OwnerStep(l: Ledger, steps: seq<Step>, s: Step, before: Ledger)
    requires After(l, steps) == before && before.present && (s.RequestCancel? || s.CutOff?)
    ensures After(l, steps + [s]) == (if s.RequestCancel? then Cancel(before, s.at, s.reasonValid)
                                      else DeleteAccess(before, s.at, s.activeKbs)).l
  {
    StepByStep(l, steps, s);
  }

  lemma TwoRequests(l: Ledger, first: Instant, second: Instant, cut: Instant)
    requires l.present && l.cancellations == [] && NotAfter(first, second)
    ensures var twice := Cancel(Cancel(l, first, true).l, second, true).l; var effective := Midnight(NextDay(PaidUntil(l.sub)));
      DeleteAccess(twice, cut, 0).l == l.(active := false, cancellations :=
        [Cancellation(first, DeactivationRequested, effective, None, None, None, None, None),
         Cancellation(second, DeactivationRequested, effective, None, None, None, Some(cut), None)])
  {
    var cs := Cancel(Cancel(l, first, true).l, second, true).l.cancellations;
    assert |cs| == 2 && cs[..1][..0] == [];
    assert LatestCancellation(cs[..1]) == Some(0);
    assert LatestCancellation(cs) == Some(1);
  }

  /** For example a tenant paid until 1 June 2026 that cancels twice in May and cuts off access
      on 2 June: the pass of 9 June. */
  lemma PassOfTheNinth(l: Ledger, first: Instant, second: Instant, cut: Instant, before: Ledger, pass: Instant)
    requires SignedUp(l) && PaidUntil(l.sub) == Date(2026, 6, 1) && NotAfter(first, second) && second.date == Date(2026, 5, 1)
    requires cut.date == Date(2026, 6, 2) && pass.date == Date(2026, 6, 9)
    requires before == After(l, [RequestCancel(first, true), RequestCancel(second, true), CutOff(cut, 0)])
    ensures var dropped := SILENT.(schemaDropped := true); var after := ProcessLifecycle(before, pass, [dropped, dropped]);
      before.present && StampsSome(before, after) && !after.present
  {
    assert DaysBetween(Date(2026, 6, 2), Date(2026, 6, 9)) == 7;
    var dropped := SILENT.(schemaDropped := true);
    StampsOneDeletesForAnother(l, first, second, cut, before, pass, [dropped, dropped]);
  }

  // ----- restoring, in runs

  lemma {:induction false} RunDates(l: Ledger, steps: seq<Step>)
    requires SignedUp(l) && PermittedRun(l, steps)
    ensures DatesValid(After(l, steps).cancellations)
  {
    if steps != [] {
      var init, s := steps[..|steps| - 1], steps[|steps| - 1];
      RunDates(l, init);
      assert Valid(PaidUntil(After(l, init).sub)) by {
        PermittedSound(l, init);
      }
      RunClean(l, init);
      StepRequests(After(l, init), s);
      DatesStayValid(After(l, init), After(l, steps), s);
    }
  }

  lemma DatesStayValid(l: Ledger, r: Ledger, s: Step)
    requires DatesValid(l.cancellations) && RequestsEvolve(l, r, s)
    requires Valid(PaidUntil(l.sub)) && Valid(NowOf(s).date)
    ensures DatesValid(r.cancellations)
  {
    NextDayNumber(PaidUntil(l.sub));
    forall k | 0 <= k < |r.cancellations|
      ensures Valid(r.cancellations[k].effectiveAt.date)
      ensures r.cancellations[k].deactivatedAt.Some? ==> Valid(r.cancellations[k].deactivatedAt.value.date)
    {
      if k < |l.cancellations| {
        assert RequestEvolves(l.cancellations[k], r.cancellations[k], s);
      } else {
        assert NewRequest(r.cancellations[k], l, s);
      }
    }
  }

  /** After any run: taking the latest request back shields the tenant from the worker for
      ever exactly when no other request is pending; otherwise the tenant can still be deleted. */
  lemma RestoreShieldsInRuns(l: Ledger, steps: seq<Step>, now: Instant)
    requires SignedUp(l) && PermittedRun(l, steps) && After(l, steps).present
    requires CancellationRequested(After(l, steps).cancellations) && Restore(After(l, steps), now).Done?
    ensures Shielded(Restore(After(l, steps), now).l) <==> PendingCount(After(l, steps).cancellations) == 1
    ensures Doomed(Restore(After(l, steps), now).l) <==> PendingCount(After(l, steps).cancellations) > 1
  {
    RunClean(l, steps);
    RunDates(l, steps);
    RestoreShields(After(l, steps), now);
  }

  // ----- the administrator

  /** After any run: the administrator's restoring makes the tenant active and, for billing, not
      cancelled; it shields it from the worker exactly when no other request is pending, and
      otherwise the tenant can still be deleted. */
  lemma AdminRestoreShieldsInRuns(l: Ledger, steps: seq<Step>)
    requires SignedUp(l) && PermittedRun(l, steps) && After(l, steps).present && AdminRestore(After(l, steps)).Done?
    ensures var before, r := After(l, steps), AdminRestore(After(l, steps)).l;
      && r.active && !CancellationRequested(r.cancellations)
      && (Shielded(r) <==> PendingCount(before.cancellations) == 1)
      && (Doomed(r) <==> PendingCount(before.cancellations) > 1)
  {
    RunClean(l, steps);
    RunDates(l, steps);
    AdminRestoreShields(After(l, steps));
  }

  /** A tenant cancels twice and a pass a week after the cancellation took effect cuts access.
      The administrator restores it; a pass a week later deletes it for the first request. */
  lemma RestoredThenDeleted(l: Ledger, first: Instant, second: Instant, pass: Instant, heard: seq<Reply>,
                            restore: Instant, later: Instant, replies: seq<Reply>, steps: seq<Step>)
    requires SignedUp(l) && NotAfter(first, second)
    requires DaysBetween(NextDay(PaidUntil(l.sub)), pass.date) >= 7
    requires DaysBetween(pass.date, later.date) >= 7
    requires ReplyAt(replies, 0).schemaDropped
    requires steps == [RequestCancel(first, true), RequestCancel(second, true), Lifecycle(pass, heard), RestoreByAdmin(restore)]
    ensures After(l, steps).present && After(l, steps).active && !CancellationRequested(After(l, steps).cancellations)
    ensures !After(l, steps + [Lifecycle(later, replies)]).present
  {
    var twice := Cancel(Cancel(l, first, true).l, second, true).l;
    var cut := ProcessLifecycle(twice, pass, heard);
    CancelledOnceMore(l, first, second, twice);
    PassStampsBoth(twice, pass, heard, cut);
    FourSteps(l, first, second, pass, heard, restore, steps, twice, cut);
    AdminAfterPass(cut, AdminRestore(cut).l);
    DeletedForFirst(AdminRestore(cut).l, pass, later, replies);
    WorkerStep(l, steps, Lifecycle(later, replies), AdminRestore(cut).l);
  }

  lemma DeletedForFirst(l: Ledger, pass: Instant, later: Instant, replies: seq<Reply>)
    requires l.present && l.cancellations != [] && Pending(l.cancellations[0])
    requires l.cancellations[0].deactivatedAt == Some(pass) && DaysBetween(pass.date, later.date) >= 7
    requires ReplyAt(replies, 0).schemaDropped
    ensures !ProcessLifecycle(l, later, replies).present
  {
    assert Deletes(l.cancellations, 0, later, replies);
    DeletionExactly(l, later, replies);
  }

  lemma FourSteps(l: Ledger, first: Instant, second: Instant, pass: Instant, heard: seq<Reply>, restore: Instant,
                  steps: seq<Step>, twice: Ledger, cut: Ledger)
    requires l.present && twice == Cancel(Cancel(l, first, true).l, second, true).l
    requires cut == ProcessLifecycle(twice, pass, heard) && cut.present
    requires steps == [RequestCancel(first, true), RequestCancel(second, true), Lifecycle(pass, heard), RestoreByAdmin(restore)]
    ensures After(l, steps) == AdminRestore(cut).l
  {
    var a, b, c, d := steps[0], steps[1], steps[2], steps[3];
    assert [] + [a] == [a] && [a] + [b] == [a, b] && [a, b] + [c] == [a, b, c] && [a, b, c] + [d] == steps;
    OwnerStep(l, [], a, l);
    OwnerStep(l, [a], b, Cancel(l, first, true).l);
    WorkerStep(l, [a, b], c, twice);
    WorkerStep(l, [a, b, c], d, cut);
  }

  lemma WorkerStep(l: Ledger, steps: seq<Step>, s: Step, before: Ledger)
    requires After(l, steps) == before && before.present && (s.Lifecycle? || s.RestoreByAdmin?)
    ensures After(l, steps + [s]) == if s.Lifecycle? then ProcessLifecycle(before, s.at, s.replies) else AdminRestore(before).l
  {
    StepByStep(l, steps, s);
  }

  lemma CancelledOnceMore(l: Ledger, first: Instant, second: Instant, twice: Ledger)
    requires l.present && l.cancellations == [] && NotAfter(first, second)
    requires twice == Cancel(Cancel(l, first, true).l, second, true).l
    ensures var effective := Midnight(NextDay(PaidUntil(l.sub)));
      twice == l.(cancellations := [Cancellation(first, DeactivationRequested, effective, None, None, None, None, None),
                                    Cancellation(second, DeactivationRequested, effective, None, None, None, None, None)])
  {
  }

  lemma PassStampsBoth(l: Ledger, pass: Instant, heard: seq<Reply>, r: Ledger)
    requires l.present && |l.cancellations| == 2 && NotAfter(l.cancellations[0].requestedAt, l.cancellations[1].requestedAt)
    requires forall k :: 0 <= k < 2 ==> Pending(l.cancellations[k]) && DueForDeactivation(l.cancellations[k], pass)
    requires r == ProcessLifecycle(l, pass, heard)
    ensures r.present && !r.active && |r.cancellations| == 2
    ensures NotAfter(r.cancellations[0].requestedAt, r.cancellations[1].requestedAt)
    ensures forall k :: 0 <= k < 2 ==> Pending(r.cancellations[k]) && r.cancellations[k].deactivatedAt == Some(pass)
  {
    DeletionExactly(l, pass, heard);
    PassRequests(l, 0, pass, heard, 0);
    PassRequests(l, 0, pass, heard, 1);
    PassSwitchesOff(l, 0, pass, heard, 0);
  }

  lemma AdminAfterPass(l: Ledger, r: Ledger)
    requires !l.active && l.present && |l.cancellations| == 2
    requires NotAfter(l.cancellations[0].requestedAt, l.cancellations[1].requestedAt)
    requires l.cancellations[1].status == DeactivationRequested && r == AdminRestore(l).l
    ensures r.active && r.present && !CancellationRequested(r.cancellations)
    ensures |r.cancellations| == 2 && r.cancellations[0] == l.cancellations[0]
  {
    LatestOfTwo(l.cancellations);
    LatestOfTwo(r.cancellations);
  }

  lemma LatestOfTwo(cs: seq<Cancellation>)
    requires |cs| == 2 && NotAfter(cs[0].requestedAt, cs[1].requestedAt)
    ensures LatestCancellation(cs) == Some(1)
  {
    assert |cs[..1]| == 1 && cs[..1][..0] == [] && LatestCancellation(cs[..1]) == Some(0);
  }

  /** Deleting by hand asks for no cancellation: any inactive tenant can be deleted, and the
      administrator can make any tenant inactive that has not cancelled. */
  lemma DeletedWithoutRequest(l: Ledger, off: Instant, at: Instant)
    requires SignedUp(l) && l.active
    ensures var before := After(l, [DeactivateByAdmin(off)]);
      before.present && before.cancellations == [] && !After(l, [DeactivateByAdmin(off), DeleteByAdmin(at)]).present
  {
    StepByStep(l, [], DeactivateByAdmin(off));
    StepByStep(l, [DeactivateByAdmin(off)], DeleteByAdmin(at));
    assert [] + [DeactivateByAdmin(off)] == [DeactivateByAdmin(off)];
    assert [DeactivateByAdmin(off)] + [DeleteByAdmin(at)] == [DeactivateByAdmin(off), DeleteByAdmin(at)];
  }
}
