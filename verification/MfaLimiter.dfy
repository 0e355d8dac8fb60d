/** One scope of the second-factor failure limiter: a failure counter over a time window,
    with a lock once the limit is reached.  Times are integer ticks. */
module MfaLimiter {
  import opened Options

  /** Limits after the program's `max(1, ...)`. */
  datatype Policy = Policy(limit: int, window: int, lock: int)

  predicate Sane(p: Policy) {
    1 <= p.limit && 1 <= p.window && 1 <= p.lock
  }

  function AtLeastOne(n: int): int {
    if n < 1 then 1 else n
  }

  function SanePolicy(limit: int, window: int, lock: int): (p: Policy)
    ensures Sane(p)
  {
    Policy(AtLeastOne(limit), AtLeastOne(window), AtLeastOne(lock))
  }

  datatype Row = Row(attempts: int, windowStart: int, blockedUntil: Option<int>)

  predicate Blocked(row: Option<Row>, now: int) {
    row.Some? && row.value.blockedUntil.Some? && row.value.blockedUntil.value > now
  }

  /** What recording a failure leaves in the row, and whether the scope is now locked. */
  function Record(row: Option<Row>, p: Policy, now: int): (Row, bool) {
    var found := if row.Some? then row.value else Row(0, now, None);
    if Blocked(Some(found), now) then (found, true)
    else
      var restart := now >= found.windowStart + p.window;
      var attempts := if restart then 1 else found.attempts + 1;
      var start := if restart then now else found.windowStart;
      var locked := attempts >= p.limit;
      (Row(attempts, start, if locked then Some(now + p.lock) else None), locked)
  }

  // ----- counting the history

  /** How many of the recorded times are `from` or later. */
  function Since(times: seq<int>, from: int): nat {
    if times == [] then 0
    else Since(times[..|times| - 1], from) + (if times[|times| - 1] >= from then 1 else 0)
  }

  /** How many lie in the half-open stretch of the given length from `from` on. */
  function Within(times: seq<int>, from: int, length: int): nat {
    if times == [] then 0
    else Within(times[..|times| - 1], from, length)
         + (if from <= times[|times| - 1] < from + length then 1 else 0)
  }

  lemma SinceAppend(times: seq<int>, t: int, from: int)
    ensures Since(times + [t], from) == Since(times, from) + (if t >= from then 1 else 0)
  {
    assert (times + [t])[..|times|] == times;
  }

  lemma WithinAppend(times: seq<int>, t: int, from: int, length: int)
    ensures Within(times + [t], from, length)
         == Within(times, from, length) + (if from <= t < from + length then 1 else 0)
  {
    assert (times + [t])[..|times|] == times;
  }

  lemma {:induction false} SinceAntitone(times: seq<int>, from: int, later: int)
    requires from <= later
    ensures Since(times, later) <= Since(times, from)
  {
    if times != [] {
      SinceAntitone(times[..|times| - 1], from, later);
    }
  }

  lemma {:induction false} SinceNone(times: seq<int>, from: int)
    requires forall i :: 0 <= i < |times| ==> times[i] < from
    ensures Since(times, from) == 0
  {
    if times != [] {
      SinceNone(times[..|times| - 1], from);
    }
  }

  lemma {:induction false} WithinAtMostSince(times: seq<int>, from: int, length: int)
    ensures Within(times, from, length) <= Since(times, from)
  {
    if times != [] {
      WithinAtMostSince(times[..|times| - 1], from, length);
    }
  }

  // ----- the row refines the history of counted failures

  /** `counted` lists the failures counted since the last reset. */
  ghost predicate Refines(p: Policy, row: Option<Row>, counted: seq<int>, clock: int) {
    match row
    case None => counted == []
    case Some(r) =>
      && r.attempts == Since(counted, r.windowStart)
      && (r.blockedUntil.Some? <==> r.attempts >= p.limit)
      && r.windowStart <= clock
      && (forall i :: 0 <= i < |counted| ==> counted[i] <= clock && counted[i] < r.windowStart + p.window)
      && (r.attempts > 0 ==>
            && counted != [] && r.windowStart <= counted[|counted| - 1]
            && (r.blockedUntil.Some? ==> r.blockedUntil.value == counted[|counted| - 1] + p.lock))
      && (r.attempts == 0 ==> counted == [])
      && (forall i, j :: 0 <= i <= j < |counted| ==> counted[i] <= counted[j])
  }

  /** The window opened with its first failure, as it always does unless a reset opened it. */
  ghost predicate Anchored(row: Option<Row>, counted: seq<int>) {
    row.Some? ==> Since(counted, row.value.windowStart + 1) < row.value.attempts
  }

  /** How many failures of the previous window can be within reach of a new one. */
  function Survivors(limit: int, untouched: bool): int {
    if !untouched then limit - 1 else if limit >= 2 then limit - 2 else 0
  }

  /** The most failures that can be counted in any stretch as long as the window. */
  function Bound(limit: int, untouched: bool): int {
    limit + Survivors(limit, untouched)
  }

  /** With a lock at least as long as the window the counter never passes the limit.  A
      untouched scope is one that has not been reset. */
  ghost predicate Limited(p: Policy, row: Option<Row>, counted: seq<int>, untouched: bool) {
    && (row.Some? ==>
          && row.value.attempts <= p.limit
          && Since(counted, row.value.windowStart - p.window + 1)
             <= row.value.attempts + Survivors(p.limit, untouched))
    && (untouched ==> Anchored(row, counted))
    && forall a :: Within(counted, a, p.window) <= Bound(p.limit, untouched)
  }

  function CountedAfter(row: Option<Row>, counted: seq<int>, now: int): seq<int> {
    if Blocked(row, now) then counted else counted + [now]
  }

  lemma RecordRefines(p: Policy, row: Option<Row>, counted: seq<int>, clock: int, now: int)
    requires Sane(p) && clock <= now && Refines(p, row, counted, clock)
    ensures var (next, locked) := Record(row, p, now);
      && Refines(p, Some(next), CountedAfter(row, counted, now), now)
      && locked == Blocked(Some(next), now)
      && (Blocked(row, now) ==> row == Some(next) && locked)
      && (!Blocked(row, now) ==> (locked <==> next.attempts >= p.limit))
  {
    var (next, locked) := Record(row, p, now);
    if !Blocked(row, now) {
      var after := counted + [now];
      SinceAppend(counted, now, next.windowStart);
      if row.None? || now >= row.value.windowStart + p.window {
        SinceNone(counted, now);
      }
    }
  }

  lemma RecordLimited(p: Policy, row: Option<Row>, counted: seq<int>, untouched: bool, clock: int, now: int)
    requires Sane(p) && p.window <= p.lock
    requires clock <= now && Refines(p, row, counted, clock) && Limited(p, row, counted, untouched)
    ensures Limited(p, Some(Record(row, p, now).0), CountedAfter(row, counted, now), untouched)
  {
    var next := Record(row, p, now).0;
    if !Blocked(row, now) {
      var after := counted + [now];
      var horizon := next.windowStart - p.window + 1;
      SinceAppend(counted, now, horizon);
      SinceAppend(counted, now, next.windowStart + 1);
      if row.Some? && now >= row.value.windowStart + p.window {
        SurvivorsFew(p, row.value, counted, untouched, clock, now);
        SinceNone(counted, now + 1);
      }
      assert Since(after, horizon) <= Bound(p.limit, untouched);
      forall a ensures Within(after, a, p.window) <= Bound(p.limit, untouched) {
        WithinAppend(counted, now, a, p.window);
        if a <= now < a + p.window {
          WithinAtMostSince(after, a, p.window);
          SinceAntitone(after, horizon, a);
        }
      }
    }
  }

  /** When a new window opens few counted failures are within reach of it: a full
      predecessor was locked too long, and the first failure of an anchored one is too old. */
  lemma SurvivorsFew(p: Policy, r: Row, counted: seq<int>, untouched: bool, clock: int, now: int)
    requires Sane(p) && p.window <= p.lock
    requires Refines(p, Some(r), counted, clock) && Limited(p, Some(r), counted, untouched)
    requires clock <= now && !Blocked(Some(r), now) && now >= r.windowStart + p.window
    ensures Since(counted, now - p.window + 1) <= Survivors(p.limit, untouched)
  {
    var horizon := now - p.window + 1;
    if r.attempts == 0 || r.attempts >= p.limit {
      SinceNone(counted, horizon);
    } else {
      SinceAntitone(counted, r.windowStart, horizon);
      SinceAntitone(counted, r.windowStart + 1, horizon);
    }
  }

  function Reset(now: int): Row {
    Row(0, now, None)
  }

  /** A reset opens a window of its own and forgets the failures counted so far. */
  lemma ResetRefines(p: Policy, now: int)
    requires Sane(p)
    ensures Refines(p, Some(Reset(now)), [], now) && Limited(p, Some(Reset(now)), [], false)
  {
  }

  // ----- every sequence of failures

  /** The row and the counted failures after a sequence of failures with no reset. */
  function Run(p: Policy, start: Option<Row>, times: seq<int>): (Option<Row>, seq<int>) {
    if times == [] then (start, [])
    else
      var before := Run(p, start, times[..|times| - 1]);
      var now := times[|times| - 1];
      (Some(Record(before.0, p, now).0), CountedAfter(before.0, before.1, now))
  }

  ghost predicate NonDecreasing(times: seq<int>) {
    forall i, j :: 0 <= i <= j < |times| ==> times[i] <= times[j]
  }

  /** Where a run may start: no row yet, or the row a reset leaves. */
  ghost predicate Start(start: Option<Row>, times: seq<int>) {
    && (start.Some? ==> start.value == Reset(start.value.windowStart))
    && (start.Some? && times != [] ==> start.value.windowStart <= times[0])
  }

  lemma RefinesLater(p: Policy, row: Option<Row>, counted: seq<int>, clock: int, later: int)
    requires clock <= later && Refines(p, row, counted, clock)
    ensures Refines(p, row, counted, later)
  {
  }

  lemma {:induction false} RunRefines(p: Policy, start: Option<Row>, times: seq<int>, clock: int)
    requires Sane(p) && Start(start, times) && NonDecreasing(times)
    requires if times != [] then times[|times| - 1] <= clock else start.Some? ==> start.value.windowStart <= clock
    ensures Refines(p, Run(p, start, times).0, Run(p, start, times).1, clock)
    ensures p.window <= p.lock ==> Limited(p, Run(p, start, times).0, Run(p, start, times).1, start.None?)
  {
    if times != [] {
      var before, now := times[..|times| - 1], times[|times| - 1];
      assert before != [] ==> before[0] == times[0];
      RunRefines(p, start, before, now);
      var run := Run(p, start, before);
      RecordRefines(p, run.0, run.1, now, now);
      if p.window <= p.lock {
        RecordLimited(p, run.0, run.1, start.None?, now, now);
      }
      RefinesLater(p, Run(p, start, times).0, Run(p, start, times).1, now, clock);
    }
  }

  /** In any half-open stretch as long as the window at most 2 * limit - 1 failures are
      counted, whenever they come; one fewer if the scope was never reset and the limit
      is above one. */
  lemma RateBound(p: Policy, start: Option<Row>, times: seq<int>, a: int)
    requires Sane(p) && p.window <= p.lock && Start(start, times) && NonDecreasing(times)
    ensures Within(Run(p, start, times).1, a, p.window) <= Bound(p.limit, start.None?)
    ensures Bound(p.limit, start.None?) == if start.None? && p.limit > 1 then 2 * p.limit - 2 else 2 * p.limit - 1
  {
    var clock := if times != [] then times[|times| - 1] else if start.Some? then start.value.windowStart else 0;
    RunRefines(p, start, times, clock);
  }

  // ----- the bounds are attained

  lemma RunAppend(p: Policy, start: Option<Row>, times: seq<int>, t: int)
    ensures var run := Run(p, start, times);
      && Run(p, start, times + [t]).0 == Some(Record(run.0, p, t).0)
      && Run(p, start, times + [t]).1 == CountedAfter(run.0, run.1, t)
  {
    assert (times + [t])[..|times|] == times;
  }

  ghost predicate AllUpTo(times: seq<int>, last: int) {
    NonDecreasing(times) && forall i :: 0 <= i < |times| ==> 0 <= times[i] <= last
  }

  /** One more failure, whatever came before. */
  lemma OneMore(p: Policy, start: Option<Row>, times: seq<int>, t: int) returns (all: seq<int>)
    requires Run(p, start, times).1 == times && AllUpTo(times, t) && 0 <= t && !Blocked(Run(p, start, times).0, t)
    ensures Run(p, start, all).0 == Some(Record(Run(p, start, times).0, p, t).0)
    ensures Run(p, start, all).1 == all && AllUpTo(all, t) && |all| == |times| + 1
    ensures Within(all, p.window - 1, p.window)
         == Within(times, p.window - 1, p.window) + (if p.window - 1 <= t < 2 * p.window - 1 then 1 else 0)
  {
    RunAppend(p, start, times, t);
    WithinAppend(times, t, p.window - 1, p.window);
    all := times + [t];
  }

  /** Runs `n` more failures at `t`, inside the open window and without passing the limit. */
  lemma {:induction false} More(p: Policy, start: Option<Row>, times: seq<int>, r: Row, t: int, n: nat)
      returns (all: seq<int>)
    requires Run(p, start, times).0 == Some(r) && Run(p, start, times).1 == times && AllUpTo(times, t)
    requires r.blockedUntil == None && 0 <= t < r.windowStart + p.window
    requires r.attempts < p.limit && r.attempts + n <= p.limit
    ensures Run(p, start, all).0 == Some(
              Row(r.attempts + n, r.windowStart, if r.attempts + n >= p.limit then Some(t + p.lock) else None))
    ensures Run(p, start, all).1 == all && AllUpTo(all, t)
    ensures Within(all, p.window - 1, p.window)
         == Within(times, p.window - 1, p.window) + (if p.window - 1 <= t < 2 * p.window - 1 then n else 0)
  {
    all := times;
    if n > 0 {
      var before := More(p, start, times, r, t, n - 1);
      InsideWindow(p, Row(r.attempts + n - 1, r.windowStart, None), t);
      all := OneMore(p, start, before, t);
    }
  }

  lemma InsideWindow(p: Policy, r: Row, t: int)
    requires r.blockedUntil == None && t < r.windowStart + p.window && r.attempts < p.limit
    ensures !Blocked(Some(r), t)
    ensures Record(Some(r), p, t).0 == Row(r.attempts + 1, r.windowStart, if r.attempts + 1 >= p.limit then Some(t + p.lock) else None)
  {
  }

  /** As many failures as the limit when the next window opens. */
  lemma NextWindow(p: Policy, start: Option<Row>, times: seq<int>, r: Row) returns (all: seq<int>)
    requires Sane(p) && 2 <= p.window
    requires Run(p, start, times).0 == Some(r) && r.windowStart == 0 && r.blockedUntil == None
    requires Run(p, start, times).1 == times && AllUpTo(times, p.window)
    ensures Run(p, start, all).1 == all && AllUpTo(all, p.window)
    ensures Within(all, p.window - 1, p.window) == Within(times, p.window - 1, p.window) + p.limit
  {
    all := OneMore(p, start, times, p.window);
    if p.limit > 1 {
      all := More(p, start, all, Row(1, p.window, None), p.window, p.limit - 1);
    }
  }

  /** From a scope whose window opened at 0 with `first`: as many failures as leave room for
      one more, just before the window closes; then as many as the limit when the next opens. */
  lemma Burst(p: Policy, start: Option<Row>, first: seq<int>) returns (all: seq<int>)
    requires Sane(p) && |first| < p.limit && 2 <= p.window
    requires Run(p, start, first).0 == Some(Row(|first|, 0, None)) && Run(p, start, first).1 == first
    requires AllUpTo(first, 0) && Within(first, p.window - 1, p.window) == 0
    ensures AllUpTo(all, p.window)
    ensures Within(Run(p, start, all).1, p.window - 1, p.window) == 2 * p.limit - 1 - |first|
  {
    var head := More(p, start, first, Row(|first|, 0, None), p.window - 1, p.limit - 1 - |first|);
    all := NextWindow(p, start, head, Row(p.limit - 1, 0, None));
  }

  /** Neither bound can be improved: here for a scope reset at 0. */
  lemma BoundAttainedAfterReset(p: Policy) returns (times: seq<int>)
    requires Sane(p) && 2 <= p.window
    ensures NonDecreasing(times) && Start(Some(Reset(0)), times)
    ensures Within(Run(p, Some(Reset(0)), times).1, p.window - 1, p.window) == Bound(p.limit, false)
  {
    times := Burst(p, Some(Reset(0)), []);
  }

  /** And here for one that was never reset. */
  lemma BoundAttainedUntouched(p: Policy) returns (times: seq<int>)
    requires Sane(p) && 2 <= p.window
    ensures NonDecreasing(times)
    ensures Within(Run(p, None, times).1, p.window - 1, p.window) == Bound(p.limit, true)
  {
    times := OneMore(p, None, [], if p.limit > 1 then 0 else p.window);
    if p.limit > 1 {
      times := Burst(p, None, times);
    }
  }
}
