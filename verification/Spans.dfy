/** Overlapping text matches: the longest-first greedy selection. */
module Spans {
  import opened Sorting

  datatype Span = Span(start: int, end: int, dataType: string, value: string)

  function Length(s: Span): int {
    s.end - s.start
  }

  predicate Overlap(a: Span, b: Span) {
    a.start < b.end && a.end > b.start
  }

  function LongestFirst(): (Span, Span) -> bool {
    (a: Span, b: Span) => Length(a) > Length(b) || (Length(a) == Length(b) && a.start <= b.start)
  }

  function ByStart(): (Span, Span) -> bool {
    (a: Span, b: Span) => a.start <= b.start
  }

  predicate Clashes(kept: seq<Span>, s: Span) {
    exists k :: k in kept && Overlap(k, s)
  }

  /** The selection as a fold over the spans still to be considered. */
  function Select(todo: seq<Span>, kept: seq<Span>): seq<Span> {
    if todo == [] then kept
    else Select(todo[1..], if Clashes(kept, todo[0]) then kept else kept + [todo[0]])
  }

  function Deduplicate(matches: seq<Span>): seq<Span> {
    Sort(ByStart(), Select(Sort(LongestFirst(), matches), []))
  }

  method DeduplicateMatchesLongerWins(matches: seq<Span>) returns (r: seq<Span>)
    ensures r == Deduplicate(matches)
  {
    if matches == [] {
      return [];
    }
    var byLen := Sort(LongestFirst(), matches);
    var kept: seq<Span> := [];
    for i := 0 to |byLen|
      invariant Select(byLen[i..], kept) == Select(byLen, [])
    {
      assert byLen[i..][1..] == byLen[i + 1..];
      if Clashes(kept, byLen[i]) {
        continue;
      }
      kept := kept + [byLen[i]];
    }
    r := Sort(ByStart(), kept);
  }

  // ----- what is kept

  ghost predicate Disjoint(ss: seq<Span>) {
    forall i, j :: 0 <= i < j < |ss| ==> !Overlap(ss[i], ss[j])
  }

  ghost predicate ProperSpans(ss: seq<Span>) {
    forall s :: s in ss ==> s.start < s.end
  }

  /** `k` outranks `s`: it is longer, or as long and begins no later, and it is the same span or
      has a stretch in common with it. */
  predicate Beats(k: Span, s: Span) {
    && (k.end - k.start > s.end - s.start || (k.end - k.start == s.end - s.start && k.start <= s.start))
    && (k == s || (k.start < s.end && s.start < k.end))
  }

  ghost predicate Beaten(kept: seq<Span>, s: Span) {
    exists k :: k in kept && Beats(k, s)
  }

  lemma {:induction false} SelectSound(todo: seq<Span>, kept: seq<Span>)
    requires Disjoint(kept) && SortedBy(LongestFirst(), kept + todo)
    ensures var r := Select(todo, kept);
      && Disjoint(r)
      && kept <= r
      && multiset(r) <= multiset(kept) + multiset(todo)
      && (forall s :: s in todo ==> Beaten(r, s))
  {
    if todo != [] {
      var first := todo[0];
      var next := if Clashes(kept, first) then kept else kept + [first];
      assert todo == [first] + todo[1..];
      StaysSorted(todo, kept);
      NextDisjoint(kept, first);
      SelectSound(todo[1..], next);
      var r := Select(todo[1..], next);
      assert forall i :: 0 <= i < |next| ==> next[i] == r[i];
      if Clashes(kept, first) {
        var k :| k in kept && Overlap(k, first);
        var i :| 0 <= i < |kept| && kept[i] == k;
        assert (kept + todo)[i] == k && (kept + todo)[|kept|] == first;
        assert k in r && Beats(k, first);
      } else {
        assert next[|kept|] == first;
        assert first in r && Beats(first, first);
      }
    }
  }

  lemma StaysSorted(todo: seq<Span>, kept: seq<Span>)
    requires todo != [] && SortedBy(LongestFirst(), kept + todo)
    ensures SortedBy(LongestFirst(), kept + todo[1..])
    ensures SortedBy(LongestFirst(), kept + [todo[0]] + todo[1..])
  {
    var all := kept + todo;
    assert kept + [todo[0]] + todo[1..] == all;
    var less := kept + todo[1..];
    forall i, j | 0 <= i < j < |less| ensures LongestFirst()(less[i], less[j]) {
      var i', j' := if i < |kept| then i else i + 1, if j < |kept| then j else j + 1;
      assert less[i] == all[i'] && less[j] == all[j'];
    }
  }

  lemma NextDisjoint(kept: seq<Span>, s: Span)
    requires Disjoint(kept)
    ensures !Clashes(kept, s) ==> Disjoint(kept + [s])
  {
  }

  lemma SortsAreOrders()
    ensures TotalPreorder(LongestFirst()) && TotalPreorder(ByStart())
  {
  }

  /** The kept spans are input spans, listed by start, of which any two lie apart; and each span
      of the input is kept or gives way to a kept one that outranks it. */
  lemma KeptSpans(matches: seq<Span>)
    ensures var r := Deduplicate(matches);
      && multiset(r) <= multiset(matches)
      && Disjoint(r)
      && (forall i, j :: 0 <= i < j < |r| ==> r[i].start <= r[j].start && (r[i].end <= r[j].start || r[j].end <= r[i].start))
      && (forall s :: s in matches ==> Beaten(r, s))
  {
    SortsAreOrders();
    var byLen := Sort(LongestFirst(), matches);
    SortPermutes(LongestFirst(), matches);
    SortSorts(LongestFirst(), matches);
    assert [] + byLen == byLen;
    SelectSound(byLen, []);
    var kept := Select(byLen, []);
    var r := Deduplicate(matches);
    SortPermutes(ByStart(), kept);
    SortSorts(ByStart(), kept);
    PermutedDisjoint(kept, r);
    forall i, j | 0 <= i < j < |r| ensures r[i].start <= r[j].start && (r[i].end <= r[j].start || r[j].end <= r[i].start) {
      assert ByStart()(r[i], r[j]) && !Overlap(r[i], r[j]);
    }
    SameElements(byLen, matches);
    SameElements(kept, r);
    forall s | s in matches ensures Beaten(r, s) {
      assert Beaten(kept, s);
      var k :| k in kept && Beats(k, s);
      assert k in r;
    }
  }

  /** Disjointness does not depend on the arrangement. */
  lemma {:induction false} PermutedDisjoint(a: seq<Span>, b: seq<Span>)
    requires Disjoint(a) && multiset(a) == multiset(b)
    ensures Disjoint(b)
  {
    forall i, j | 0 <= i < j < |b| ensures !Overlap(b[i], b[j]) {
      var x, y := b[i], b[j];
      assert x in multiset(b) && y in multiset(b);
      SameElements(a, b);
      if x != y {
        var p :| 0 <= p < |a| && a[p] == x;
        var q :| 0 <= q < |a| && a[q] == y;
        assert p != q;
      } else {
        TwiceInPermutation(b, i, j);
        TwoPlaces(a, x);
      }
    }
  }

  lemma TwiceInPermutation(b: seq<Span>, i: nat, j: nat)
    requires i < j < |b| && b[i] == b[j]
    ensures multiset(b)[b[i]] >= 2
  {
    assert b == b[..i] + [b[i]] + b[i + 1..j] + [b[j]] + b[j + 1..];
  }

  lemma TwoPlaces(a: seq<Span>, x: Span)
    requires multiset(a)[x] >= 2
    ensures exists p, q :: 0 <= p < q < |a| && a[p] == x && a[q] == x
  {
    assert x in multiset(a);
    var p :| 0 <= p < |a| && a[p] == x;
    assert a == a[..p] + [x] + a[p + 1..];
    assert x in multiset(a[..p] + a[p + 1..]);
    var q :| 0 <= q < |a[..p] + a[p + 1..]| && (a[..p] + a[p + 1..])[q] == x;
    if q < p {
      assert a[q] == x;
    } else {
      assert a[q + 1] == x;
    }
  }

  // ----- how much is kept: a third of the best possible

  function TotalLength(ss: seq<Span>): int {
    if ss == [] then 0 else Length(ss[0]) + TotalLength(ss[1..])
  }

  ghost function Interval(lo: int, hi: int): set<int>
    decreases hi - lo
  {
    if lo >= hi then {} else Interval(lo, hi - 1) + {hi - 1}
  }

  lemma {:induction false} IntervalMembers(lo: int, hi: int)
    ensures forall x :: x in Interval(lo, hi) <==> lo <= x < hi
    decreases hi - lo
  {
    if lo < hi {
      IntervalMembers(lo, hi - 1);
    }
  }

  lemma {:induction false} IntervalSize(lo: int, hi: int)
    requires lo <= hi
    ensures |Interval(lo, hi)| == hi - lo
    decreases hi - lo
  {
    if lo < hi {
      IntervalSize(lo, hi - 1);
      IntervalMembers(lo, hi - 1);
    }
  }

  /** The positions covered by a list of spans. */
  ghost function Covered(ss: seq<Span>): set<int> {
    if ss == [] then {} else Interval(ss[0].start, ss[0].end) + Covered(ss[1..])
  }

  /** The positions within a span's own length of it. */
  ghost function Reach(s: Span): set<int> {
    Interval(s.start - Length(s), s.end + Length(s))
  }

  ghost function Reached(ss: seq<Span>): set<int> {
    if ss == [] then {} else Reach(ss[0]) + Reached(ss[1..])
  }

  lemma {:induction false} CoveredBy(ss: seq<Span>, x: int)
    ensures x in Covered(ss) <==> exists s :: s in ss && s.start <= x < s.end
  {
    if ss != [] {
      IntervalMembers(ss[0].start, ss[0].end);
      CoveredBy(ss[1..], x);
    }
  }

  lemma {:induction false} ReachedBy(ss: seq<Span>, s: Span)
    requires s in ss
    ensures Reach(s) <= Reached(ss)
  {
    if s != ss[0] {
      ReachedBy(ss[1..], s);
    }
  }

  /** Disjoint spans cover exactly their total length. */
  lemma {:induction false} CoveredSize(ss: seq<Span>)
    requires ProperSpans(ss) && Disjoint(ss)
    ensures |Covered(ss)| == TotalLength(ss)
  {
    if ss != [] {
      CoveredSize(ss[1..]);
      IntervalSize(ss[0].start, ss[0].end);
      IntervalMembers(ss[0].start, ss[0].end);
      forall x | x in Covered(ss[1..]) ensures x !in Interval(ss[0].start, ss[0].end) {
        CoveredBy(ss[1..], x);
        var s :| s in ss[1..] && s.start <= x < s.end;
        var j :| 0 <= j < |ss[1..]| && ss[1..][j] == s;
        assert !Overlap(ss[0], ss[j + 1]);
      }
    }
  }

  lemma {:induction false} ReachedSize(ss: seq<Span>)
    requires ProperSpans(ss)
    ensures |Reached(ss)| <= 3 * TotalLength(ss)
  {
    if ss != [] {
      ReachedSize(ss[1..]);
      IntervalSize(ss[0].start - Length(ss[0]), ss[0].end + Length(ss[0]));
    }
  }

  lemma SubsetSize(a: set<int>, b: set<int>)
    requires a <= b
    ensures |a| <= |b|
  {
    assert b == a + (b - a);
  }

  lemma BeatenIsReached(kept: seq<Span>, s: Span)
    requires Beaten(kept, s) && s.start < s.end
    ensures Interval(s.start, s.end) <= Reached(kept)
  {
    var k :| k in kept && Beats(k, s);
    ReachedBy(kept, k);
    var lo, hi := k.start - Length(k), k.end + Length(k);
    IntervalMembers(s.start, s.end);
    IntervalMembers(lo, hi);
    forall x | x in Interval(s.start, s.end) ensures x in Reached(kept) {
      assert s.start <= x < s.end;
      assert x in Interval(lo, hi);
    }
  }

  lemma {:induction false} CoveredWithinReach(choice: seq<Span>, kept: seq<Span>)
    requires ProperSpans(choice) && forall s :: s in choice ==> Beaten(kept, s)
    ensures Covered(choice) <= Reached(kept)
  {
    if choice != [] {
      BeatenIsReached(kept, choice[0]);
      CoveredWithinReach(choice[1..], kept);
    }
  }

  /** The greedy total is at least a third of that of any disjoint choice from the input. */
  lemma ThirdOfAnyChoice(matches: seq<Span>, choice: seq<Span>)
    requires ProperSpans(matches)
    requires (forall s :: s in choice ==> s in matches) && Disjoint(choice)
    ensures TotalLength(choice) <= 3 * TotalLength(Deduplicate(matches))
  {
    var kept := Deduplicate(matches);
    KeptSpans(matches);
    forall s | s in kept ensures s in matches {
      assert s in multiset(kept);
    }
    CoveredWithinReach(choice, kept);
    SubsetSize(Covered(choice), Reached(kept));
    CoveredSize(choice);
    ReachedSize(kept);
  }

  // ----- the order of the input does not matter

  datatype Extent = Extent(start: int, end: int)

  function ExtentOf(s: Span): Extent {
    Extent(s.start, s.end)
  }

  function Extents(ss: seq<Span>): seq<Extent> {
    if ss == [] then [] else [ExtentOf(ss[0])] + Extents(ss[1..])
  }

  function ExtentLongestFirst(): (Extent, Extent) -> bool {
    (a: Extent, b: Extent) =>
      a.end - a.start > b.end - b.start || (a.end - a.start == b.end - b.start && a.start <= b.start)
  }

  function SelectExtents(todo: seq<Extent>, kept: seq<Extent>): seq<Extent> {
    if todo == [] then kept
    else SelectExtents(todo[1..],
           if exists k :: k in kept && k.start < todo[0].end && k.end > todo[0].start then kept else kept + [todo[0]])
  }

  lemma {:induction false} ExtentsAt(ss: seq<Span>)
    ensures |Extents(ss)| == |ss|
    ensures forall i :: 0 <= i < |ss| ==> Extents(ss)[i] == ExtentOf(ss[i])
  {
    if ss != [] {
      ExtentsAt(ss[1..]);
    }
  }

  lemma ExtentsAppend(a: seq<Span>, b: seq<Span>)
    ensures Extents(a + b) == Extents(a) + Extents(b)
  {
    ExtentsAt(a);
    ExtentsAt(b);
    ExtentsAt(a + b);
  }

  lemma ExtentsRemove(ss: seq<Span>, i: nat)
    requires i < |ss|
    ensures multiset(Extents(ss)) == multiset(Extents(ss[..i] + ss[i + 1..])) + multiset{ExtentOf(ss[i])}
  {
    var before, after := ss[..i], ss[i + 1..];
    Around(ss, i);
    ExtentsAppend(before + [ss[i]], after);
    ExtentsAppend(before, [ss[i]]);
    ExtentsAppend(before, after);
    ExtentsOne(ss[i]);
    AroundOne(Extents(before), ExtentOf(ss[i]), Extents(after));
  }

  lemma ExtentsOne(s: Span)
    ensures Extents([s]) == [ExtentOf(s)]
  {
    ExtentsAt([s]);
  }

  lemma Around<T>(s: seq<T>, i: nat)
    requires i < |s|
    ensures s == s[..i] + [s[i]] + s[i + 1..]
  {
  }

  lemma AroundOne<T>(a: seq<T>, x: T, b: seq<T>)
    ensures multiset(a + [x] + b) == multiset(a + b) + multiset{x}
  {
  }

  lemma {:induction false} ExtentsPermute(a: seq<Span>, b: seq<Span>)
    requires multiset(a) == multiset(b)
    ensures multiset(Extents(a)) == multiset(Extents(b))
  {
    if a == [] {
      assert |multiset(b)| == |b|;
    } else {
      SameElements(a, b);
      assert a[0] in b;
      var i :| 0 <= i < |b| && b[i] == a[0];
      RemovePermutes(a, b, i);
      ExtentsPermute(a[1..], b[..i] + b[i + 1..]);
      ExtentsRemove(b, i);
    }
  }

  lemma RemovePermutes(a: seq<Span>, b: seq<Span>, i: nat)
    requires a != [] && i < |b| && b[i] == a[0] && multiset(a) == multiset(b)
    ensures multiset(a[1..]) == multiset(b[..i] + b[i + 1..])
  {
    assert a == [a[0]] + a[1..];
    assert b == b[..i] + [a[0]] + b[i + 1..];
    assert multiset(a[1..]) == multiset(a) - multiset{a[0]};
    assert multiset(b[..i] + b[i + 1..]) == multiset(b) - multiset{a[0]};
  }

  lemma ClashesOnExtents(kept: seq<Span>, s: Span)
    ensures Clashes(kept, s) <==> exists k :: k in Extents(kept) && k.start < s.end && k.end > s.start
  {
    ExtentsAt(kept);
    if Clashes(kept, s) {
      var i :| 0 <= i < |kept| && Overlap(kept[i], s);
      assert Extents(kept)[i] in Extents(kept);
    }
    if k :| k in Extents(kept) && k.start < s.end && k.end > s.start {
      var i :| 0 <= i < |kept| && Extents(kept)[i] == k;
      assert Overlap(kept[i], s);
    }
  }

  lemma {:induction false} SelectOnExtents(todo: seq<Span>, kept: seq<Span>)
    ensures Extents(Select(todo, kept)) == SelectExtents(Extents(todo), Extents(kept))
  {
    if todo != [] {
      var s := todo[0];
      ClashesOnExtents(kept, s);
      ExtentsAppend(kept, [s]);
      ExtentsOne(s);
      SelectOnExtents(todo[1..], if Clashes(kept, s) then kept else kept + [s]);
    }
  }

  lemma ExtentOrderIsStrict()
    ensures Antisymmetric(ExtentLongestFirst())
  {
    forall a: Extent, b: Extent | ExtentLongestFirst()(a, b) && ExtentLongestFirst()(b, a) ensures a == b {
      assert a.start == b.start && a.end == b.end;
    }
  }

  lemma SortedExtentsAgree(a: seq<Span>, b: seq<Span>)
    requires multiset(a) == multiset(b)
    ensures Extents(Sort(LongestFirst(), a)) == Extents(Sort(LongestFirst(), b))
  {
    var sa, sb := Sort(LongestFirst(), a), Sort(LongestFirst(), b);
    SortPermutes(LongestFirst(), a);
    SortPermutes(LongestFirst(), b);
    ExtentsPermute(sa, sb);
    ExtentsSorted(a);
    ExtentsSorted(b);
    ExtentOrderIsStrict();
    SortedUnique(ExtentLongestFirst(), Extents(sa), Extents(sb));
  }

  lemma ExtentsSorted(a: seq<Span>)
    ensures SortedBy(ExtentLongestFirst(), Extents(Sort(LongestFirst(), a)))
  {
    SortsAreOrders();
    SortSorts(LongestFirst(), a);
    ExtentsAt(Sort(LongestFirst(), a));
  }

  /** Listing the same matches in another order keeps the same extents. */
  lemma OrderDoesNotMatter(a: seq<Span>, b: seq<Span>)
    requires multiset(a) == multiset(b)
    ensures multiset(Extents(Deduplicate(a))) == multiset(Extents(Deduplicate(b)))
  {
    var sa, sb := Sort(LongestFirst(), a), Sort(LongestFirst(), b);
    SortedExtentsAgree(a, b);
    SelectOnExtents(sa, []);
    SelectOnExtents(sb, []);
    SortPermutes(ByStart(), Select(sa, []));
    SortPermutes(ByStart(), Select(sb, []));
    ExtentsPermute(Deduplicate(a), Select(sa, []));
    ExtentsPermute(Deduplicate(b), Select(sb, []));
  }

  // ----- which of several matches of one extent is kept

  function SameExtent(e: Extent): Span -> bool {
    (s: Span) => ExtentOf(s) == e
  }

  lemma {:induction false} SelectDisjoint(todo: seq<Span>, kept: seq<Span>)
    requires Disjoint(kept)
    ensures Disjoint(Select(todo, kept)) && kept <= Select(todo, kept)
  {
    if todo != [] {
      NextDisjoint(kept, todo[0]);
      SelectDisjoint(todo[1..], if Clashes(kept, todo[0]) then kept else kept + [todo[0]]);
    }
  }

  /** Two different spans of a disjoint selection do not overlap. */
  lemma NoOverlap(r: seq<Span>, a: Span, b: Span)
    requires Disjoint(r) && a in r && b in r && a != b
    ensures !Overlap(a, b)
  {
    var i :| 0 <= i < |r| && r[i] == a;
    var j :| 0 <= j < |r| && r[j] == b;
    assert i < j || j < i;
  }

  lemma {:induction false} SelectFirst(todo: seq<Span>, kept: seq<Span>, s: Span)
    requires Disjoint(kept) && ProperSpans(todo) && s in Select(todo, kept) && s !in kept
    ensures Filter(SameExtent(ExtentOf(s)), todo) != [] && Filter(SameExtent(ExtentOf(s)), todo)[0] == s
  {
    if todo != [] {
      var f, rest := todo[0], todo[1..];
      var next := if Clashes(kept, f) then kept else kept + [f];
      assert f in todo && forall t :: t in rest ==> t in todo;
      NextDisjoint(kept, f);
      if s !in next {
        SelectFirst(rest, next, s);
        SelectDisjoint(rest, next);
        OtherExtent(next, Select(rest, next), f, s);
      }
    }
  }

  /** A span selected later has another extent than one that was selected or given up. */
  lemma OtherExtent(kept: seq<Span>, r: seq<Span>, f: Span, s: Span)
    requires Disjoint(r) && kept <= r && s in r && s !in kept && f.start < f.end && (f in kept || Clashes(kept, f))
    ensures ExtentOf(f) != ExtentOf(s)
  {
    if ExtentOf(f) == ExtentOf(s) {
      var k :| k in kept && Overlap(k, s);
      NoOverlap(r, k, s);
    }
  }

  /** Of the matches with one extent the first in the input is kept, if any is: both sorts
      are stable, so dropping the others never depends on type or value. */
  lemma FirstOfEqualsKept(matches: seq<Span>, s: Span)
    requires ProperSpans(matches) && s in Deduplicate(matches)
    ensures exists i :: 0 <= i < |matches| && matches[i] == s && FirstWithExtent(matches, i)
  {
    var tied, byLen := SameExtent(ExtentOf(s)), Sort(LongestFirst(), matches);
    var kept := Select(byLen, []);
    SortPermutes(LongestFirst(), matches);
    SortPermutes(ByStart(), kept);
    SameElements(Deduplicate(matches), kept);
    SameElements(byLen, matches);
    SelectFirst(byLen, [], s);
    SortStable(LongestFirst(), tied, matches);
    FilterHead(tied, matches);
  }

  predicate FirstWithExtent(matches: seq<Span>, i: nat)
    requires i < |matches|
  {
    forall j :: 0 <= j < i ==> ExtentOf(matches[j]) != ExtentOf(matches[i])
  }

  lemma {:induction false} FilterHead(keep: Span -> bool, s: seq<Span>)
    requires Filter(keep, s) != []
    ensures exists i :: 0 <= i < |s| && s[i] == Filter(keep, s)[0] && keep(s[i]) && forall j :: 0 <= j < i ==> !keep(s[j])
  {
    if !keep(s[0]) {
      FilterHead(keep, s[1..]);
      var i :| 0 <= i < |s| - 1 && s[1..][i] == Filter(keep, s)[0] && keep(s[1..][i]) && forall j :: 0 <= j < i ==> !keep(s[1..][j]);
      assert forall j :: 0 < j < i + 1 ==> s[j] == s[1..][j - 1];
      assert s[i + 1] == s[1..][i];
    }
  }
}
