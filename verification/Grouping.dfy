/** Cutting a list into consecutive groups: a new group starts where the next item does
    not go with the group being built. */
module Grouping {

  function Group<T>(breaks: (seq<T>, T) -> bool, current: seq<T>, items: seq<T>): seq<seq<T>>
    decreases |items|
  {
    if items == [] then (if current == [] then [] else [current])
    else if current == [] || !breaks(current, items[0]) then Group(breaks, current + [items[0]], items[1..])
    else [current] + Group(breaks, [items[0]], items[1..])
  }

  function Flatten<T>(groups: seq<seq<T>>): seq<T> {
    if groups == [] then [] else groups[0] + Flatten(groups[1..])
  }

  /** No break inside the group: each item went with those before it. */
  ghost predicate Coherent<T>(breaks: (seq<T>, T) -> bool, group: seq<T>) {
    group != [] && forall k :: 0 < k < |group| ==> !breaks(group[..k], group[k])
  }

  /** Nothing is lost or reordered, and the cuts are exactly where the test says. */
  ghost predicate IsGrouping<T>(breaks: (seq<T>, T) -> bool, groups: seq<seq<T>>, items: seq<T>) {
    && Flatten(groups) == items
    && (forall i :: 0 <= i < |groups| ==> Coherent(breaks, groups[i]))
    && (forall i :: 0 <= i < |groups| - 1 ==> breaks(groups[i], groups[i + 1][0]))
  }

  lemma {:induction false} GroupIsGrouping<T>(breaks: (seq<T>, T) -> bool, current: seq<T>, items: seq<T>)
    requires current == [] || Coherent(breaks, current)
    ensures var groups := Group(breaks, current, items);
      && IsGrouping(breaks, groups, current + items)
      && (current != [] ==> groups != [] && current <= groups[0])
      && (items != [] ==> groups != [])
    decreases |items|
  {
    if items == [] {
      assert current + items == current;
      assert Flatten([current]) == current + Flatten([]) == current;
    } else {
      var x, rest := items[0], items[1..];
      assert items == [x] + rest;
      if current == [] || !breaks(current, x) {
        var grown := current + [x];
        forall k | 0 < k < |grown| ensures !breaks(grown[..k], grown[k]) {
          assert grown[..k] == if k < |current| then current[..k] else current;
        }
        GroupIsGrouping(breaks, grown, rest);
        assert current + items == grown + rest;
      } else {
        GroupIsGrouping(breaks, [x], rest);
        PrependGroup(breaks, current, Group(breaks, [x], rest), [x] + rest);
      }
    }
  }

  lemma PrependGroup<T>(breaks: (seq<T>, T) -> bool, group: seq<T>, groups: seq<seq<T>>, items: seq<T>)
    requires Coherent(breaks, group) && IsGrouping(breaks, groups, items)
    requires groups != [] && breaks(group, groups[0][0])
    ensures IsGrouping(breaks, [group] + groups, group + items)
  {
    var all := [group] + groups;
    assert all[1..] == groups;
    forall i | 0 <= i < |all| - 1 ensures breaks(all[i], all[i + 1][0]) {
      if i > 0 {
        assert all[i] == groups[i - 1] && all[i + 1] == groups[i];
      }
    }
  }

  lemma FlattenLength<T>(groups: seq<seq<T>>)
    ensures groups != [] ==> |Flatten(groups)| >= |groups[0]|
  {
  }

  lemma {:induction false} FlattenLast<T>(groups: seq<seq<T>>, group: seq<T>)
    ensures Flatten(groups + [group]) == Flatten(groups) + group
  {
    if groups == [] {
      assert Flatten([group]) == group + Flatten([]) == group;
      assert [] + [group] == [group];
    } else {
      assert (groups + [group])[1..] == groups[1..] + [group];
      FlattenLast(groups[1..], group);
    }
  }

  lemma {:induction false} InFlatten<T>(groups: seq<seq<T>>, i: nat, x: T)
    requires i < |groups| && x in groups[i]
    ensures x in Flatten(groups)
  {
    if i > 0 {
      InFlatten(groups[1..], i - 1, x);
    }
  }

  /** One step of the cutting, with the groups closed so far in front. */
  lemma GroupStep<T>(breaks: (seq<T>, T) -> bool, closed: seq<seq<T>>, current: seq<T>, x: T, rest: seq<T>)
    ensures closed + Group(breaks, current, [x] + rest)
         == if current == [] || !breaks(current, x) then closed + Group(breaks, current + [x], rest)
            else closed + [current] + Group(breaks, [x], rest)
  {
    assert ([x] + rest)[1..] == rest;
    var next := Group(breaks, [x], rest);
    assert closed + ([current] + next) == closed + [current] + next;
  }

  /** The conditions leave no choice: there is one such grouping. */
  lemma {:induction false} GroupingUnique<T>(breaks: (seq<T>, T) -> bool, a: seq<seq<T>>, b: seq<seq<T>>, items: seq<T>)
    requires IsGrouping(breaks, a, items) && IsGrouping(breaks, b, items)
    ensures a == b
    decreases |a|
  {
    if a == [] {
      FlattenLength(b);
    } else {
      FlattenLength(a);
      FirstGroupAgrees(breaks, a, b, items);
      FirstGroupAgrees(breaks, b, a, items);
      assert a[0] == items[..|a[0]|] && b[0] == items[..|b[0]|];
      var rest := items[|a[0]|..];
      TailGrouping(breaks, a, items);
      TailGrouping(breaks, b, items);
      GroupingUnique(breaks, a[1..], b[1..], rest);
      assert a == [a[0]] + a[1..] && b == [b[0]] + b[1..];
    }
  }

  lemma TailGrouping<T>(breaks: (seq<T>, T) -> bool, groups: seq<seq<T>>, items: seq<T>)
    requires IsGrouping(breaks, groups, items) && groups != []
    ensures |groups[0]| <= |items| && groups[0] == items[..|groups[0]|]
    ensures IsGrouping(breaks, groups[1..], items[|groups[0]|..])
  {
    var rest := groups[1..];
    assert items == groups[0] + Flatten(rest);
    forall i | 0 <= i < |rest| - 1 ensures breaks(rest[i], rest[i + 1][0]) {
      assert rest[i] == groups[i + 1] && rest[i + 1] == groups[i + 2];
    }
  }

  /** The first group cannot end later than another grouping's: the test cut there. */
  lemma FirstGroupAgrees<T>(breaks: (seq<T>, T) -> bool, a: seq<seq<T>>, b: seq<seq<T>>, items: seq<T>)
    requires IsGrouping(breaks, a, items) && IsGrouping(breaks, b, items) && a != [] && b != []
    ensures |a[0]| <= |b[0]|
  {
    CutAfterFirst(breaks, b, items);
    NoCutInFirst(breaks, a, items, |b[0]|);
  }

  lemma CutAfterFirst<T>(breaks: (seq<T>, T) -> bool, groups: seq<seq<T>>, items: seq<T>)
    requires IsGrouping(breaks, groups, items) && groups != []
    ensures var n := |groups[0]|; 0 < n <= |items| && (n < |items| ==> breaks(items[..n], items[n]))
  {
    TailGrouping(breaks, groups, items);
    var n, rest := |groups[0]|, groups[1..];
    if n < |items| {
      assert rest != [];
      assert items[n..] == rest[0] + Flatten(rest[1..]);
      assert items[n] == rest[0][0] == groups[1][0];
    }
  }

  lemma NoCutInFirst<T>(breaks: (seq<T>, T) -> bool, groups: seq<seq<T>>, items: seq<T>, k: nat)
    requires IsGrouping(breaks, groups, items) && groups != []
    ensures |groups[0]| <= |items| && (0 < k < |groups[0]| ==> !breaks(items[..k], items[k]))
  {
    TailGrouping(breaks, groups, items);
    if 0 < k < |groups[0]| {
      assert items[..k] == groups[0][..k] && items[k] == groups[0][k];
    }
  }

  // ----- counting the groups when only the last item of a group matters

  function Cuts<T>(breaksAfter: (T, T) -> bool, items: seq<T>): nat {
    if |items| < 2 then 0
    else (if breaksAfter(items[0], items[1]) then 1 else 0) + Cuts(breaksAfter, items[1..])
  }

  lemma {:induction false} CutsAppend<T>(breaksAfter: (T, T) -> bool, items: seq<T>, x: T)
    ensures Cuts(breaksAfter, items + [x])
         == Cuts(breaksAfter, items) + (if items != [] && breaksAfter(items[|items| - 1], x) then 1 else 0)
  {
    if |items| >= 2 {
      assert (items + [x])[1..] == items[1..] + [x];
      CutsAppend(breaksAfter, items[1..], x);
    } else if |items| == 1 {
      assert (items + [x])[1..] == [x];
    }
  }

  function AfterLast<T>(breaksAfter: (T, T) -> bool): (seq<T>, T) -> bool {
    (group: seq<T>, x: T) => group != [] && breaksAfter(group[|group| - 1], x)
  }

  lemma {:induction false} GroupCount<T>(breaksAfter: (T, T) -> bool, current: seq<T>, items: seq<T>)
    requires current != []
    ensures |Group(AfterLast(breaksAfter), current, items)|
         == 1 + Cuts(breaksAfter, [current[|current| - 1]] + items)
    decreases |items|
  {
    var last := current[|current| - 1];
    var all := [last] + items;
    if items == [] {
      assert Cuts(breaksAfter, all) == 0;
    } else {
      var x, rest := items[0], items[1..];
      assert all[1..] == [x] + rest;
      if breaksAfter(last, x) {
        GroupCount(breaksAfter, [x], rest);
      } else {
        GroupCount(breaksAfter, current + [x], rest);
      }
    }
  }
}
