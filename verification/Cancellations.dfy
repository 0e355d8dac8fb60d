/** Cancelling, restoring and deleting a tenant: the requests' lifecycle. */
module Cancellations {
  import opened Options
  import opened Calendar
  import opened Instants
  import opened Ledger

  /** What the pass would hear from outside while it works on one request: whether there is an
      owner to write to, whether each notice is accepted, whether the schema can be dropped. */
  datatype Reply = Reply(hasOwner: bool, twoDays: bool, oneDay: bool, expired: bool, schemaDropped: bool)

  const SILENT := Reply(false, false, false, false, false)

  /** By request; where nothing is listed, nothing succeeds. */
  function ReplyAt(replies: seq<Reply>, id: nat): Reply {
    if id < |replies| then replies[id] else SILENT
  }

  const NOTICE_DAYS := 7

  function Cancel(l: Ledger, requestedAt: Instant, reasonValid: bool): Outcome {
    if !reasonValid then Raised(l, ValueError)
    else
      var request := Cancellation(requestedAt, DeactivationRequested, Midnight(NextDay(PaidUntil(l.sub))),
                                  None, None, None, None, None);
      Done(l.(cancellations := l.cancellations + [request]))
  }

  /** Takes the latest request back, unless access has been cut already. */
  function Restore(l: Ledger, now: Instant): Outcome {
    if !CancellationRequested(l.cancellations) then Done(l)
    else
      var id := LatestCancellation(l.cancellations).value;
      var c := l.cancellations[id];
      if c.deactivatedAt.Some? then Raised(l, ValueError)
      else Done(l.(cancellations := l.cancellations[id := c.(status := RenewalRestored, cleanupAt := Some(now))]))
  }

  /** Cuts access at once; refused while knowledge bases are left. */
  function DeleteAccess(l: Ledger, now: Instant, activeKbs: nat): Outcome {
    if activeKbs > 0 then Done(l)
    else if !CancellationRequested(l.cancellations) then Raised(l, ValueError)
    else
      var id := LatestCancellation(l.cancellations).value;
      var c := l.cancellations[id];
      if c.deactivatedAt.Some? then Done(l)
      else Done(l.(active := false, cancellations := l.cancellations[id := c.(deactivatedAt := Some(now))]))
  }

  // ----- the platform administrator

  /** Restores an inactive tenant whose latest request is in force, stamped or not. */
  function AdminRestore(l: Ledger): Outcome {
    if l.active || !CancellationRequested(l.cancellations) then Raised(l, ValueError)
    else
      var id := LatestCancellation(l.cancellations).value;
      Done(l.(active := true, cancellations := l.cancellations[id := l.cancellations[id].(status := RestoredByAdmin)]))
  }

  function AdminActivate(l: Ledger): Outcome {
    if l.active || CancellationRequested(l.cancellations) then Raised(l, ValueError) else Done(l.(active := true))
  }

  function AdminDeactivate(l: Ledger): Outcome {
    if !l.active || CancellationRequested(l.cancellations) then Raised(l, ValueError) else Done(l.(active := false))
  }

  /** Deletes an inactive tenant, whatever its requests say. */
  function AdminDelete(l: Ledger): Outcome {
    if l.active then Raised(l, ValueError) else Done(l.(present := false))
  }

  // ----- the lifecycle worker

  /** A request the worker looks at. */
  predicate Pending(c: Cancellation) {
    c.status == DeactivationRequested && c.cleanupAt.None?
  }

  predicate DueForDeactivation(c: Cancellation, now: Instant) {
    c.deactivatedAt.None? && DaysBetween(c.effectiveAt.date, now.date) >= NOTICE_DAYS
  }

  predicate DueForDeletion(c: Cancellation, now: Instant) {
    c.deactivatedAt.Some? && DaysBetween(c.deactivatedAt.value.date, now.date) >= NOTICE_DAYS
  }

  /** The notices before the effective date that a pass leaves on a request. */
  function Noticed(c: Cancellation, now: Instant, reply: Reply): Cancellation {
    var daysUntil := DaysBetween(now.date, c.effectiveAt.date);
    var c1 := if reply.hasOwner && daysUntil == 2 && c.noticeTwoDays.None? && reply.twoDays
              then c.(noticeTwoDays := Some(now)) else c;
    if reply.hasOwner && daysUntil == 1 && c.noticeOneDay.None? && reply.oneDay
    then c1.(noticeOneDay := Some(now)) else c1
  }

  /** All notices and the stamp a pass leaves on a request. */
  function Processed(c: Cancellation, now: Instant, reply: Reply): Cancellation {
    var noticed := Noticed(c, now, reply);
    var stamped := if DueForDeactivation(c, now) then noticed.(deactivatedAt := Some(now)) else noticed;
    if NotAfter(c.effectiveAt, now) && c.noticeExpired.None? && reply.hasOwner && reply.expired
    then stamped.(noticeExpired := Some(now)) else stamped
  }

  /** The pass deletes the tenant at this request; the test still sees it as it was listed. */
  predicate Deletes(cs: seq<Cancellation>, id: nat, now: Instant, replies: seq<Reply>) {
    id < |cs| && Pending(cs[id]) && DueForDeletion(cs[id], now) && ReplyAt(replies, id).schemaDropped
  }

  function ProcessRequest(l: Ledger, id: nat, now: Instant, replies: seq<Reply>): Ledger {
    if !l.present || id >= |l.cancellations| || !Pending(l.cancellations[id]) then l
    else
      var c := l.cancellations[id];
      l.(cancellations := l.cancellations[id := Processed(c, now, ReplyAt(replies, id))],
         active := l.active && !DueForDeactivation(c, now),
         present := !Deletes(l.cancellations, id, now, replies))
  }

  function ProcessFrom(l: Ledger, id: nat, now: Instant, replies: seq<Reply>): Ledger
    decreases |l.cancellations| - id
  {
    if id >= |l.cancellations| then l
    else ProcessFrom(ProcessRequest(l, id, now, replies), id + 1, now, replies)
  }

  /** The worker's pass over all pending requests of the tenant. */
  function ProcessLifecycle(l: Ledger, now: Instant, replies: seq<Reply>): Ledger {
    ProcessFrom(l, 0, now, replies)
  }

  // ----- one pass

  /** Some pending request was stamped on a day at least seven days ago, and its schema drop succeeds. */
  predicate DeletionDue(cs: seq<Cancellation>, from: nat, now: Instant, replies: seq<Reply>) {
    exists k :: from <= k < |cs| && Deletes(cs, k, now, replies)
  }

  /** A pass touches the requests and the two flags of the tenant only. */
  lemma {:induction false} PassFrame(l: Ledger, id: nat, now: Instant, replies: seq<Reply>)
    ensures var r := ProcessFrom(l, id, now, replies);
      && |r.cancellations| == |l.cancellations|
      && r == l.(present := r.present, active := r.active, cancellations := r.cancellations)
      && (forall k :: 0 <= k < id && k < |l.cancellations| ==> r.cancellations[k] == l.cancellations[k])
      && (!l.present ==> r == l)
    decreases |l.cancellations| - id
  {
    if id < |l.cancellations| {
      PassFrame(ProcessRequest(l, id, now, replies), id + 1, now, replies);
    }
  }

  /** The pass has reached request `k`: none before it ended the tenant. */
  predicate Reaches(cs: seq<Cancellation>, from: nat, k: nat, now: Instant, replies: seq<Reply>) {
    forall i :: from <= i < k ==> !Deletes(cs, i, now, replies)
  }

  /** Every pending request that is reached is processed as it stood before the pass; no
      other is touched. */
  lemma {:induction false} PassRequests(l: Ledger, id: nat, now: Instant, replies: seq<Reply>, k: nat)
    requires l.present && id <= k < |l.cancellations|
    ensures var r := ProcessFrom(l, id, now, replies); var c := l.cancellations[k];
      && |r.cancellations| == |l.cancellations|
      && r.cancellations[k] == if Pending(c) && Reaches(l.cancellations, id, k, now, replies)
                               then Processed(c, now, ReplyAt(replies, k)) else c
    decreases k - id
  {
    var next := ProcessRequest(l, id, now, replies);
    PassFrame(next, id + 1, now, replies);
    if id < k && next.present {
      PassRequests(next, id + 1, now, replies, k);
      SameReach(l.cancellations, next.cancellations, id + 1, k, now, replies);
      assert Reaches(l.cancellations, id, k, now, replies) <==> Reaches(l.cancellations, id + 1, k, now, replies);
    }
  }

  /** A pass that stamps a request leaves the tenant inactive. */
  lemma {:induction false} PassSwitchesOff(l: Ledger, id: nat, now: Instant, replies: seq<Reply>, k: nat)
    requires l.present && k < |l.cancellations|
    ensures var r := ProcessFrom(l, id, now, replies); var c := l.cancellations[k];
      && (r.active ==> l.active)
      && (id <= k && Pending(c) && DueForDeactivation(c, now) && Reaches(l.cancellations, id, k, now, replies) ==> !r.active)
    decreases |l.cancellations| - id
  {
    if id < |l.cancellations| {
      var next := ProcessRequest(l, id, now, replies);
      if next.present {
        PassSwitchesOff(next, id + 1, now, replies, k);
        SameReach(l.cancellations, next.cancellations, id + 1, k, now, replies);
        assert id < k ==> (Reaches(l.cancellations, id, k, now, replies) ==> Reaches(l.cancellations, id + 1, k, now, replies));
      } else {
        PassFrame(next, id + 1, now, replies);
      }
    }
  }

  lemma SameReach(cs: seq<Cancellation>, ds: seq<Cancellation>, from: nat, k: nat, now: Instant, replies: seq<Reply>)
    requires |ds| == |cs| && forall i :: from <= i < |cs| ==> ds[i] == cs[i]
    ensures Reaches(ds, from, k, now, replies) <==> Reaches(cs, from, k, now, replies)
    ensures DeletionDue(ds, from, now, replies) <==> DeletionDue(cs, from, now, replies)
  {
    assert forall i :: from <= i ==> (Deletes(ds, i, now, replies) <==> Deletes(cs, i, now, replies));
  }

  lemma {:induction false} PassDeletes(l: Ledger, id: nat, now: Instant, replies: seq<Reply>)
    requires l.present && id <= |l.cancellations|
    ensures !ProcessFrom(l, id, now, replies).present <==> DeletionDue(l.cancellations, id, now, replies)
    decreases |l.cancellations| - id
  {
    if id < |l.cancellations| {
      var next := ProcessRequest(l, id, now, replies);
      PassFrame(next, id + 1, now, replies);
      if next.present {
        PassDeletes(next, id + 1, now, replies);
        SameReach(l.cancellations, next.cancellations, id + 1, id + 1, now, replies);
      }
    }
  }

  /** The worker deletes the tenant exactly when a pending request was stamped, before this
      pass, at least seven days ago and its schema can be dropped. */
  lemma DeletionExactly(l: Ledger, now: Instant, replies: seq<Reply>)
    requires l.present
    ensures !ProcessLifecycle(l, now, replies).present <==> DeletionDue(l.cancellations, 0, now, replies)
  {
    PassDeletes(l, 0, now, replies);
  }

  predicate StampsSome(before: Ledger, after: Ledger) {
    exists j :: 0 <= j < |before.cancellations| && j < |after.cancellations|
      && before.cancellations[j].deactivatedAt.None? && after.cancellations[j].deactivatedAt.Some?
  }

  /** The pass stamps request `j` before it deletes the tenant at request `k`. */
  predicate StampThenDelete(cs: seq<Cancellation>, j: nat, k: nat, now: Instant, replies: seq<Reply>) {
    && j < k && Deletes(cs, k, now, replies) && Reaches(cs, 0, k, now, replies)
    && j < |cs| && Pending(cs[j]) && DueForDeactivation(cs[j], now)
  }

  /** A pass both cuts access and deletes the tenant exactly when, before the first request
      it deletes the tenant for, there is a pending one that is due to be stamped; never, that
      is, because of one and the same request. */
  lemma StampsAndDeletesExactly(l: Ledger, now: Instant, replies: seq<Reply>)
    requires l.present
    ensures var r := ProcessLifecycle(l, now, replies);
      StampsSome(l, r) && !r.present <==> exists j: nat, k: nat :: StampThenDelete(l.cancellations, j, k, now, replies)
  {
    var r := ProcessLifecycle(l, now, replies);
    DeletionExactly(l, now, replies);
    if StampsSome(l, r) && !r.present {
      var j :| 0 <= j < |l.cancellations| && j < |r.cancellations|
        && l.cancellations[j].deactivatedAt.None? && r.cancellations[j].deactivatedAt.Some?;
      PassRequests(l, 0, now, replies, j);
      var k := FirstDeletion(l.cancellations, now, replies);
      assert StampThenDelete(l.cancellations, j, k, now, replies);
    }
    if j: nat, k: nat :| StampThenDelete(l.cancellations, j, k, now, replies) {
      PassRequests(l, 0, now, replies, j);
      assert r.cancellations[j].deactivatedAt == Some(now);
    }
  }

  lemma FirstDeletion(cs: seq<Cancellation>, now: Instant, replies: seq<Reply>) returns (k: nat)
    requires DeletionDue(cs, 0, now, replies)
    ensures Deletes(cs, k, now, replies) && Reaches(cs, 0, k, now, replies)
  {
    k := 0;
    while !Deletes(cs, k, now, replies)
      invariant k <= |cs| && Reaches(cs, 0, k, now, replies)
      decreases |cs| - k
    {
      var d :| 0 <= d < |cs| && Deletes(cs, d, now, replies);
      assert k <= d;
      k := k + 1;
    }
  }

  /** Nothing is written twice: a notice or a stamp, once there, stays as it is. */
  predicate Kept(before: Option<Instant>, after: Option<Instant>) {
    before.Some? ==> after == before
  }

  /** A restored request stays as it was restored; a stamped one is restored by the
      administrator only. */
  predicate Advances(c: Cancellation, d: Cancellation) {
    && d.requestedAt == c.requestedAt && d.effectiveAt == c.effectiveAt
    && Kept(c.noticeTwoDays, d.noticeTwoDays) && Kept(c.noticeOneDay, d.noticeOneDay)
    && Kept(c.noticeExpired, d.noticeExpired) && Kept(c.deactivatedAt, d.deactivatedAt)
    && Kept(c.cleanupAt, d.cleanupAt)
    && (c.status != DeactivationRequested ==> d.status == c.status)
    && (c.deactivatedAt.Some? && d.status != c.status ==> d.status == RestoredByAdmin)
  }

  // ----- restoring

  function PendingCount(cs: seq<Cancellation>): nat {
    if cs == [] then 0 else PendingCount(cs[..|cs| - 1]) + (if Pending(cs[|cs| - 1]) then 1 else 0)
  }

  lemma {:induction false} PendingCountUpdate(cs: seq<Cancellation>, id: nat, c: Cancellation)
    requires id < |cs|
    ensures PendingCount(cs[id := c]) == PendingCount(cs)
      - (if Pending(cs[id]) then 1 else 0) + (if Pending(c) then 1 else 0)
  {
    var n := |cs| - 1;
    if id == n {
      assert cs[id := c][..n] == cs[..n];
    } else {
      assert cs[id := c][..n] == cs[..n][id := c];
      PendingCountUpdate(cs[..n], id, c);
    }
  }

  lemma {:induction false} NonePending(cs: seq<Cancellation>)
    ensures PendingCount(cs) == 0 <==> forall k :: 0 <= k < |cs| ==> !Pending(cs[k])
  {
    if cs != [] {
      NonePending(cs[..|cs| - 1]);
    }
  }

  /** With nothing pending the worker leaves the tenant untouched. */
  lemma {:induction false} NothingPendingNothingDone(l: Ledger, id: nat, now: Instant, replies: seq<Reply>)
    requires PendingCount(l.cancellations) == 0
    ensures ProcessFrom(l, id, now, replies) == l
    decreases |l.cancellations| - id
  {
    if id < |l.cancellations| {
      NonePending(l.cancellations);
      NothingPendingNothingDone(l, id + 1, now, replies);
    }
  }

  /** A request that is requested but never cleaned up otherwise: what all operations keep. */
  ghost predicate CleanOnlyIfRestored(cs: seq<Cancellation>) {
    forall k :: 0 <= k < |cs| ==> (cs[k].cleanupAt.Some? <==> cs[k].status == RenewalRestored)
  }

  ghost predicate DatesValid(cs: seq<Cancellation>) {
    forall k :: 0 <= k < |cs| ==>
      Valid(cs[k].effectiveAt.date) && (cs[k].deactivatedAt.Some? ==> Valid(cs[k].deactivatedAt.value.date))
  }

  /** The worker never changes anything, whenever it runs. */
  ghost predicate Shielded(l: Ledger) {
    forall later: Instant, replies: seq<Reply> :: Valid(later.date) ==> ProcessLifecycle(l, later, replies) == l
  }

  /** Some two passes, the second no earlier than the first, leave the tenant deleted. */
  ghost predicate DeletedByPasses(l: Ledger, first: Instant, second: Instant, replies: seq<Reply>) {
    && Valid(first.date) && Valid(second.date) && NotAfter(first, second)
    && !ProcessLifecycle(ProcessLifecycle(l, first, replies), second, replies).present
  }

  ghost predicate Doomed(l: Ledger) {
    exists first: Instant, second: Instant, replies: seq<Reply> :: DeletedByPasses(l, first, second, replies)
  }

  /** Taking the latest request back shields the tenant from the worker exactly when it was
      the only pending one; otherwise two passes of the worker can still delete the tenant. */
  lemma RestoreShields(l: Ledger, now: Instant)
    requires l.present && CleanOnlyIfRestored(l.cancellations) && DatesValid(l.cancellations)
    requires CancellationRequested(l.cancellations) && Restore(l, now).Done?
    ensures Shielded(Restore(l, now).l) <==> PendingCount(l.cancellations) == 1
    ensures Doomed(Restore(l, now).l) <==> PendingCount(l.cancellations) > 1
  {
    SettledShields(l, Restore(l, now).l, LatestCancellation(l.cancellations).value);
  }

  /** The same for the administrator's restoring of an inactive tenant: it is active again and
      for billing no longer cancelled, but shielded only if no other request is pending. */
  lemma AdminRestoreShields(l: Ledger)
    requires l.present && CleanOnlyIfRestored(l.cancellations) && DatesValid(l.cancellations)
    requires AdminRestore(l).Done?
    ensures var r := AdminRestore(l).l;
      && r.active && !CancellationRequested(r.cancellations)
      && (Shielded(r) <==> PendingCount(l.cancellations) == 1)
      && (Doomed(r) <==> PendingCount(l.cancellations) > 1)
  {
    var id := LatestCancellation(l.cancellations).value;
    SettledShields(l, AdminRestore(l).l, id);
    SameLatest(l.cancellations, id, AdminRestore(l).l.cancellations[id]);
  }

  lemma {:induction false} SameLatest(cs: seq<Cancellation>, id: nat, c: Cancellation)
    requires id < |cs| && c.requestedAt == cs[id].requestedAt
    ensures LatestCancellation(cs[id := c]) == LatestCancellation(cs)
  {
    var n := |cs| - 1;
    if id == n {
      assert cs[id := c][..n] == cs[..n];
    } else {
      assert cs[id := c][..n] == cs[..n][id := c];
      SameLatest(cs[..n], id, c);
    }
  }

  /** Whoever settles one pending request leaves the tenant shielded or doomed by the others. */
  lemma SettledShields(l: Ledger, r: Ledger, id: nat)
    requires l.present && r.present && DatesValid(r.cancellations)
    requires id < |l.cancellations| && Pending(l.cancellations[id])
    requires |r.cancellations| == |l.cancellations| && !Pending(r.cancellations[id])
    requires r.cancellations == l.cancellations[id := r.cancellations[id]]
    ensures Shielded(r) <==> PendingCount(l.cancellations) == 1
    ensures Doomed(r) <==> PendingCount(l.cancellations) > 1
  {
    PendingCountUpdate(l.cancellations, id, r.cancellations[id]);
    if PendingCount(l.cancellations) == 1 {
      forall later: Instant, replies: seq<Reply> ensures ProcessLifecycle(r, later, replies) == r {
        NothingPendingNothingDone(r, 0, later, replies);
      }
    } else {
      NonePending(r.cancellations);
      var k :| 0 <= k < |r.cancellations| && Pending(r.cancellations[k]);
      PendingIsDoomed(r, k);
      DoomedNotShielded(r);
    }
  }

  lemma DoomedNotShielded(l: Ledger)
    requires l.present && Doomed(l)
    ensures !Shielded(l)
  {
    var first, second, replies :| DeletedByPasses(l, first, second, replies);
    if ProcessLifecycle(l, first, replies) == l {
      assert ProcessLifecycle(l, second, replies) != l;
    }
  }

  /** A pending request is stamped by a pass late enough, and the tenant deleted by a later one. */
  lemma PendingIsDoomed(l: Ledger, k: nat)
    requires l.present && DatesValid(l.cancellations) && k < |l.cancellations| && Pending(l.cancellations[k])
    ensures Doomed(l)
  {
    var c := l.cancellations[k];
    var replies := seq(k + 1, _ => SILENT.(schemaDropped := true));
    var first := Midnight(LateDate(if c.deactivatedAt.Some? then c.deactivatedAt.value.date else c.effectiveAt.date));
    var second := Midnight(LateDate(first.date));
    FarEnough(if c.deactivatedAt.Some? then c.deactivatedAt.value.date else c.effectiveAt.date);
    FarEnough(first.date);
    var r := ProcessLifecycle(l, first, replies);
    PassFrame(l, 0, first, replies);
    DeletionExactly(l, first, replies);
    if r.present {
      PassRequests(l, 0, first, replies, k);
      assert !Deletes(l.cancellations, k, first, replies);
      assert r.cancellations[k].deactivatedAt == Some(first);
      DeletionExactly(r, second, replies);
      assert Deletes(r.cancellations, k, second, replies);
    } else {
      PassFrame(r, 0, second, replies);
    }
    assert DeletedByPasses(l, first, second, replies);
  }

  function LateDate(d: Date): Date {
    Date(d.year + 2, 1, 1)
  }

  lemma FarEnough(d: Date)
    requires Valid(d)
    ensures Valid(LateDate(d)) && DaysBetween(d, LateDate(d)) >= NOTICE_DAYS
  {
    DayNumberWithinYear(d);
    YearsGrow(d.year + 1, d.year + 2);
  }

  /** Cancelling twice and taking the later request back: for billing the tenant is no longer
      cancelled, yet the worker can still delete it. */
  lemma CancelTwiceRestoreOnce(l: Ledger, first: Instant, second: Instant, now: Instant)
    requires l.present && l.cancellations == [] && Valid(PaidUntil(l.sub)) && NotAfter(first, second)
    ensures var twice := Cancel(Cancel(l, first, true).l, second, true).l;
      && Restore(twice, now).Done? && !CancellationRequested(Restore(twice, now).l.cancellations)
      && Doomed(Restore(twice, now).l)
  {
    var once := Cancel(l, first, true).l;
    var twice := Cancel(once, second, true).l;
    NextDayNumber(PaidUntil(l.sub));
    assert once.cancellations[..0] == [] && twice.cancellations[..1] == once.cancellations;
    assert LatestCancellation(once.cancellations) == Some(0);
    assert LatestCancellation(twice.cancellations) == Some(1);
    var r := Restore(twice, now).l;
    assert r.cancellations[..1] == once.cancellations;
    assert LatestCancellation(r.cancellations) == Some(1);
    PendingIsDoomed(r, 0);
  }
}
