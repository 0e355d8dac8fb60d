/** Mapping the items of a list while dropping some, and putting results end to end. */
module Collecting {
  import opened Grouping
  import opened Options

  /** The results of the items that have one. */
  function Collected<S, T>(f: S -> Option<T>, xs: seq<S>): seq<T> {
    if xs == [] then []
    else
      var before, result := Collected(f, xs[..|xs| - 1]), f(xs[|xs| - 1]);
      if result.None? then before else before + [result.value]
  }

  /** What the items give, end to end. */
  function Concat<T, C>(of: T -> seq<C>, xs: seq<T>): seq<C> {
    if xs == [] then [] else Concat(of, xs[..|xs| - 1]) + of(xs[|xs| - 1])
  }

  lemma ConcatLast<T, C>(of: T -> seq<C>, xs: seq<T>, x: T)
    ensures Concat(of, xs + [x]) == Concat(of, xs) + of(x)
  {
    assert (xs + [x])[..|xs|] == xs;
  }

  lemma {:induction false} ConcatPlus<T, C>(of: T -> seq<C>, a: seq<T>, b: seq<T>)
    ensures Concat(of, a + b) == Concat(of, a) + Concat(of, b)
  {
    if b == [] {
      assert a + b == a;
    } else {
      var before, last := b[..|b| - 1], b[|b| - 1];
      ConcatPlus(of, a, before);
      assert a + b == (a + before) + [last];
      ConcatLast(of, a + before, last);
      assert Concat(of, a) + (Concat(of, before) + of(last)) == Concat(of, a) + Concat(of, before) + of(last);
    }
  }

  lemma ConcatFirst<T, C>(of: T -> seq<C>, x: T, xs: seq<T>)
    ensures Concat(of, [x] + xs) == of(x) + Concat(of, xs)
  {
    assert [] + [x] == [x];
    ConcatLast(of, [], x);
    ConcatPlus(of, [x], xs);
  }

  lemma {:induction false} ConcatFlatten<T, C>(of: T -> seq<C>, ofGroup: seq<T> -> seq<C>,
                                               groups: seq<seq<T>>, n: nat)
    requires n <= |groups| && forall i :: 0 <= i < |groups| ==> ofGroup(groups[i]) == Concat(of, groups[i])
    ensures Concat(ofGroup, groups[..n]) == Concat(of, Flatten(groups[..n]))
  {
    if n > 0 {
      var before, last := groups[..n - 1], groups[n - 1];
      ConcatFlatten(of, ofGroup, groups, n - 1);
      assert groups[..n] == before + [last];
      FlattenLast(before, last);
      ConcatPlus(of, Flatten(before), last);
      ConcatLast(ofGroup, before, last);
    }
  }

  lemma {:induction false} ConcatEmpty<T, C>(of: T -> seq<C>, xs: seq<T>)
    ensures Concat(of, xs) == [] <==> forall i :: 0 <= i < |xs| ==> of(xs[i]) == []
  {
    if xs != [] {
      var last := |xs| - 1;
      ConcatEmpty(of, xs[..last]);
      assert forall i :: 0 <= i < last ==> xs[..last][i] == xs[i];
    }
  }

  /** Where each item has its result, the results are all there. */
  lemma {:induction false} AllCollected<S, T>(f: S -> Option<T>, xs: seq<S>, ys: seq<T>, n: nat)
    requires n <= |xs| == |ys| && forall i :: 0 <= i < |xs| ==> f(xs[i]) == Some(ys[i])
    ensures Collected(f, xs[..n]) == ys[..n]
  {
    if n > 0 {
      AllCollected(f, xs, ys, n - 1);
      assert xs[..n][..n - 1] == xs[..n - 1];
      assert f(xs[n - 1]) == Some(ys[n - 1]);
    }
  }

  /** If a result gives what its item gives, and an item without a result gives nothing,
      then the results give what the items give. */
  lemma {:induction false} CollectedGives<S, T, C>(f: S -> Option<T>, xs: seq<S>, n: nat,
                                                   before: S -> seq<C>, after: T -> seq<C>)
    requires n <= |xs|
    requires forall i :: 0 <= i < |xs| ==> before(xs[i]) == if f(xs[i]).None? then [] else after(f(xs[i]).value)
    ensures Concat(after, Collected(f, xs[..n])) == Concat(before, xs[..n])
  {
    if n > 0 {
      CollectedGives(f, xs, n - 1, before, after);
      assert xs[..n] == xs[..n - 1] + [xs[n - 1]];
      ConcatLast(before, xs[..n - 1], xs[n - 1]);
      if f(xs[n - 1]).Some? {
        ConcatLast(after, Collected(f, xs[..n - 1]), f(xs[n - 1]).value);
      }
    }
  }

  lemma {:induction false} CollectedHave<S, T>(f: S -> Option<T>, xs: seq<S>, good: T -> bool)
    requires forall i :: 0 <= i < |xs| && f(xs[i]).Some? ==> good(f(xs[i]).value)
    ensures forall y :: y in Collected(f, xs) ==> good(y)
  {
    if xs != [] {
      var last := |xs| - 1;
      assert forall i :: 0 <= i < last ==> xs[..last][i] == xs[i];
      CollectedHave(f, xs[..last], good);
    }
  }
}
