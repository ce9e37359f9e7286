/** Stable sorting, which the library sort promises. */
module Sorting {
  import opened Sequences

  ghost predicate TotalPreorder<T(!new)>(le: (T, T) -> bool) {
    && (forall x, y :: le(x, y) || le(y, x))
    && (forall x, y, z :: le(x, y) && le(y, z) ==> le(x, z))
  }

  ghost predicate IsSorted<T>(le: (T, T) -> bool, s: seq<T>) {
    forall i, j :: 0 <= i < j < |s| ==> le(s[i], s[j])
  }

  /** `x` behind every element that may precede it. */
  function Placed<T>(le: (T, T) -> bool, s: seq<T>, x: T): (r: seq<T>)
    ensures multiset(r) == multiset(s) + multiset{x}
  {
    if s == [] then [x]
    else if le(s[0], x) then
      assert s == [s[0]] + s[1..];
      [s[0]] + Placed(le, s[1..], x)
    else [x] + s
  }

  function Sort<T>(le: (T, T) -> bool, s: seq<T>): (r: seq<T>)
    ensures multiset(r) == multiset(s)
  {
    if s == [] then []
    else
      assert s == s[..|s| - 1] + [s[|s| - 1]];
      Placed(le, Sort(le, s[..|s| - 1]), s[|s| - 1])
  }

  lemma SameMembers<T>(a: seq<T>, b: seq<T>)
    requires multiset(a) == multiset(b)
    ensures |a| == |b| && forall x :: x in a <==> x in b
  {
    assert |multiset(a)| == |a| && |multiset(b)| == |b|;
    forall x
      ensures x in a <==> x in b
    {
      assert x in a <==> x in multiset(a);
      assert x in b <==> x in multiset(b);
    }
  }

  lemma {:induction false} PlacedSorted<T(!new)>(le: (T, T) -> bool, s: seq<T>, x: T)
    requires TotalPreorder(le) && IsSorted(le, s)
    ensures IsSorted(le, Placed(le, s, x))
  {
    if s != [] {
      if le(s[0], x) {
        PlacedSorted(le, s[1..], x);
        var rest := Placed(le, s[1..], x);
        forall y | y in rest
          ensures le(s[0], y)
        {
          assert y in multiset(rest);
          assert y in s[1..] || y == x;
        }
      } else {
        forall y | y in s
          ensures le(x, y)
        {
          var i :| 0 <= i < |s| && s[i] == y;
          assert le(x, s[0]) && (i == 0 || le(s[0], s[i]));
        }
      }
    }
  }

  lemma {:induction false} SortSorts<T(!new)>(le: (T, T) -> bool, s: seq<T>)
    requires TotalPreorder(le)
    ensures IsSorted(le, Sort(le, s)) && |Sort(le, s)| == |s| && forall x :: x in Sort(le, s) <==> x in s
  {
    SameMembers(Sort(le, s), s);
    if s != [] {
      SortSorts(le, s[..|s| - 1]);
      PlacedSorted(le, Sort(le, s[..|s| - 1]), s[|s| - 1]);
    }
  }

  /** A class of elements that may stand either way round. */
  ghost predicate Tied<T(!new)>(le: (T, T) -> bool, keep: T -> bool) {
    forall x, y :: keep(x) && keep(y) ==> le(x, y)
  }

  lemma {:induction false} PlacedStable<T(!new)>(le: (T, T) -> bool, keep: T -> bool, s: seq<T>, x: T)
    requires TotalPreorder(le) && Tied(le, keep) && IsSorted(le, s)
    ensures Filter(keep, Placed(le, s, x)) == Filter(keep, s) + Filter(keep, [x])
  {
    hide TotalPreorder, Tied;
    if s != [] {
      if le(s[0], x) {
        PlacedStable(le, keep, s[1..], x);
      } else {
        FilterConcat(keep, [x], s);
        if keep(x) {
          NoneTied(le, keep, s, x);
          FilterNone(keep, s);
        }
      }
    }
  }

  lemma NoneTied<T(!new)>(le: (T, T) -> bool, keep: T -> bool, s: seq<T>, x: T)
    requires TotalPreorder(le) && Tied(le, keep) && IsSorted(le, s) && s != [] && !le(s[0], x) && keep(x)
    ensures forall y :: y in s ==> !keep(y)
  {
    forall i | 0 <= i < |s|
      ensures !keep(s[i])
    {
      var y := s[i];
      assert i == 0 || le(s[0], y);
      assert keep(y) ==> le(y, x);
    }
  }

  /** Elements that may stand either way round keep the order they came in. */
  lemma {:induction false} SortStable<T(!new)>(le: (T, T) -> bool, keep: T -> bool, s: seq<T>)
    requires TotalPreorder(le) && Tied(le, keep)
    ensures Filter(keep, Sort(le, s)) == Filter(keep, s)
  {
    if s != [] {
      var front := s[..|s| - 1];
      SortStable(le, keep, front);
      SortSorts(le, front);
      PlacedStable(le, keep, Sort(le, front), s[|s| - 1]);
      FilterConcat(keep, front, [s[|s| - 1]]);
      assert s == front + [s[|s| - 1]];
    }
  }

  /** First by `major`, then by `minor`. */
  ghost predicate InOrder<T>(major: (T, T) -> bool, minor: (T, T) -> bool, x: T, y: T) {
    major(x, y) && (major(y, x) ==> minor(x, y))
  }

  ghost predicate SortedByBoth<T>(major: (T, T) -> bool, minor: (T, T) -> bool, s: seq<T>) {
    forall i, j :: 0 <= i < j < |s| ==> InOrder(major, minor, s[i], s[j])
  }

  lemma {:induction false} PlacedByBoth<T(!new)>(major: (T, T) -> bool, minor: (T, T) -> bool, s: seq<T>, x: T)
    requires TotalPreorder(major) && SortedByBoth(major, minor, s) && forall y :: y in s ==> minor(y, x)
    ensures SortedByBoth(major, minor, Placed(major, s, x))
  {
    if s != [] {
      if major(s[0], x) {
        PlacedByBoth(major, minor, s[1..], x);
        var rest := Placed(major, s[1..], x);
        forall y | y in rest
          ensures InOrder(major, minor, s[0], y)
        {
          assert y in multiset(rest);
          assert y in s[1..] || y == x;
        }
        hide InOrder;
      } else {
        forall i | 0 <= i < |s|
          ensures InOrder(major, minor, x, s[i])
        {
          FrontOfBoth(major, minor, s, x, i);
        }
        hide InOrder;
      }
    }
  }

  lemma FrontOfBoth<T(!new)>(major: (T, T) -> bool, minor: (T, T) -> bool, s: seq<T>, x: T, i: nat)
    requires TotalPreorder(major) && SortedByBoth(major, minor, s) && i < |s| && !major(s[0], x)
    ensures InOrder(major, minor, x, s[i])
  {
    assert i == 0 || InOrder(major, minor, s[0], s[i]);
    assert major(x, s[0]);
  }

  /** Sorting a second time by another key orders by that key first and, within it, by the first key. */
  lemma {:induction false} TwoPasses<T(!new)>(major: (T, T) -> bool, minor: (T, T) -> bool, s: seq<T>)
    requires TotalPreorder(major) && IsSorted(minor, s)
    ensures SortedByBoth(major, minor, Sort(major, s))
  {
    if s != [] {
      var front := s[..|s| - 1];
      TwoPasses(major, minor, front);
      SortSorts(major, front);
      PlacedByBoth(major, minor, Sort(major, front), s[|s| - 1]);
    }
  }

  /** A relation that does not care which element stands first. */
  ghost predicate Pairwise<T(!new)>(rel: (T, T) -> bool, s: seq<T>) {
    forall i, j :: 0 <= i < |s| && 0 <= j < |s| && i != j ==> rel(s[i], s[j])
  }

  lemma {:induction false} PlacedPairwise<T(!new)>(le: (T, T) -> bool, rel: (T, T) -> bool, s: seq<T>, x: T)
    requires Pairwise(rel, s) && forall y :: y in s ==> rel(x, y) && rel(y, x)
    ensures Pairwise(rel, Placed(le, s, x))
  {
    if s != [] && le(s[0], x) {
      PlacedPairwise(le, rel, s[1..], x);
      var rest := Placed(le, s[1..], x);
      forall y | y in rest
        ensures rel(s[0], y) && rel(y, s[0])
      {
        assert y in multiset(rest);
        assert y in s[1..] || y == x;
      }
    }
  }

  /** What holds between any two elements still does after sorting. */
  lemma {:induction false} SortPairwise<T(!new)>(le: (T, T) -> bool, rel: (T, T) -> bool, s: seq<T>)
    requires Pairwise(rel, s)
    ensures Pairwise(rel, Sort(le, s))
  {
    if s != [] {
      var front := s[..|s| - 1];
      SortPairwise(le, rel, front);
      SameMembers(Sort(le, front), front);
      forall y | y in front
        ensures rel(s[|s| - 1], y) && rel(y, s[|s| - 1])
      {
        var i :| 0 <= i < |front| && front[i] == y;
        assert s[i] == y;
      }
      PlacedPairwise(le, rel, Sort(le, front), s[|s| - 1]);
    }
  }
}
