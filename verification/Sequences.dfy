/** Facts about filtering, mapping and editing sequences that several models share. */
module Sequences {

  function Filter<T(!new)>(keep: T -> bool, s: seq<T>): (r: seq<T>)
    ensures forall x :: x in r <==> x in s && keep(x)
  {
    if s == [] then []
    else if keep(s[0]) then [s[0]] + Filter(keep, s[1..])
    else Filter(keep, s[1..])
  }

  function Map<S, T>(f: S -> T, s: seq<S>): (r: seq<T>)
    ensures |r| == |s| && forall i :: 0 <= i < |s| ==> r[i] == f(s[i])
  {
    if s == [] then [] else [f(s[0])] + Map(f, s[1..])
  }

  /** `s` with its first occurrence of `x` taken out. */
  function Without<T(==,!new)>(s: seq<T>, x: T): (r: seq<T>)
    ensures x !in s ==> r == s
    ensures x in s ==> |r| == |s| - 1
    ensures forall y :: y in r ==> y in s
  {
    if s == [] then []
    else if s[0] == x then s[1..]
    else [s[0]] + Without(s[1..], x)
  }

  ghost function Elements<T>(s: seq<T>): set<T> {
    set x | x in s
  }

  ghost predicate Distinct<T>(s: seq<T>) {
    forall i, j :: 0 <= i < j < |s| ==> s[i] != s[j]
  }

  lemma SubsetSize<T>(a: set<T>, b: set<T>)
    requires a <= b
    ensures |a| <= |b|
  {
    assert b == a + (b - a);
  }

  lemma {:induction false} FilterDistinct<T(!new)>(keep: T -> bool, s: seq<T>)
    requires Distinct(s)
    ensures Distinct(Filter(keep, s))
  {
    if s != [] {
      assert forall x :: x in s[1..] ==> x != s[0];
      FilterDistinct(keep, s[1..]);
    }
  }

  lemma {:induction false} FilterConcat<T(!new)>(keep: T -> bool, a: seq<T>, b: seq<T>)
    ensures Filter(keep, a + b) == Filter(keep, a) + Filter(keep, b)
  {
    if a == [] {
      assert a + b == b;
    } else {
      assert (a + b)[0] == a[0] && (a + b)[1..] == a[1..] + b;
      FilterConcat(keep, a[1..], b);
    }
  }

  lemma {:induction false} FilterAll<T(!new)>(keep: T -> bool, s: seq<T>)
    requires forall x :: x in s ==> keep(x)
    ensures Filter(keep, s) == s
  {
    if s != [] {
      FilterAll(keep, s[1..]);
    }
  }

  lemma {:induction false} FilterNone<T(!new)>(keep: T -> bool, s: seq<T>)
    requires forall x :: x in s ==> !keep(x)
    ensures Filter(keep, s) == []
  {
    if s != [] {
      FilterNone(keep, s[1..]);
    }
  }

  /** Two tests that agree on every element keep the same elements. */
  lemma {:induction false} FilterAgree<T(!new)>(p: T -> bool, q: T -> bool, s: seq<T>)
    requires forall x :: x in s ==> p(x) == q(x)
    ensures Filter(p, s) == Filter(q, s)
  {
    if s != [] {
      FilterAgree(p, q, s[1..]);
    }
  }

  /** Filtering twice is filtering by the conjunction. */
  lemma {:induction false} FilterTwice<T(!new)>(p: T -> bool, q: T -> bool, both: T -> bool, s: seq<T>)
    requires forall x :: x in s ==> both(x) == (p(x) && q(x))
    ensures Filter(p, Filter(q, s)) == Filter(both, s)
  {
    if s != [] {
      FilterTwice(p, q, both, s[1..]);
    }
  }

  /** Two complementary filters take a sequence apart where it changes sides. */
  lemma FilterSides<T(!new)>(p: T -> bool, q: T -> bool, a: seq<T>, b: seq<T>)
    requires forall x :: x in a ==> p(x) && !q(x)
    requires forall x :: x in b ==> q(x) && !p(x)
    ensures Filter(p, a + b) == a && Filter(q, a + b) == b
  {
    FilterConcat(p, a, b);
    FilterConcat(q, a, b);
    FilterAll(p, a);
    FilterNone(p, b);
    FilterNone(q, a);
    FilterAll(q, b);
  }

  lemma {:induction false} MapConcat<S, T>(f: S -> T, a: seq<S>, b: seq<S>)
    ensures Map(f, a + b) == Map(f, a) + Map(f, b)
  {
    if a == [] {
      assert a + b == b;
    } else {
      assert (a + b)[0] == a[0] && (a + b)[1..] == a[1..] + b;
      MapConcat(f, a[1..], b);
    }
  }

  /** Kept elements stay in order. */
  lemma FilterOrder<T(!new)>(keep: T -> bool, s: seq<T>, i: nat, j: nat) returns (a: nat, b: nat)
    requires i < j < |s| && keep(s[i]) && keep(s[j])
    ensures a < b < |Filter(keep, s)| && Filter(keep, s)[a] == s[i] && Filter(keep, s)[b] == s[j]
  {
    var front, back := Filter(keep, s[..j]), Filter(keep, s[j..]);
    assert s[..j] + s[j..] == s;
    FilterConcat(keep, s[..j], s[j..]);
    assert s[..j][i] == s[i] && s[i] in front;
    a :| a < |front| && front[a] == s[i];
    b := |front|;
    assert back[0] == s[j];
  }

  /** Taking out an element that the filter drops does not change what the filter keeps. */
  lemma {:induction false} FilterWithoutDropped<T(!new)>(keep: T -> bool, s: seq<T>, x: T)
    requires !keep(x)
    ensures Filter(keep, Without(s, x)) == Filter(keep, s)
  {
    if s != [] && s[0] != x {
      FilterWithoutDropped(keep, s[1..], x);
    }
  }

  /** Taking out an element that the filter keeps takes it out of the filtered sequence. */
  lemma {:induction false} FilterWithoutKept<T(!new)>(keep: T -> bool, s: seq<T>, x: T)
    requires keep(x)
    ensures Filter(keep, Without(s, x)) == Without(Filter(keep, s), x)
  {
    if s != [] && s[0] != x {
      FilterWithoutKept(keep, s[1..], x);
    }
  }

  /** The first occurrence lies behind any prefix that lacks the element. */
  lemma {:induction false} WithoutBehind<T(!new)>(a: seq<T>, x: T, b: seq<T>)
    requires x !in a
    ensures Without(a + [x] + b, x) == a + b
  {
    if a == [] {
      assert a + [x] + b == [x] + b;
      assert a + b == b;
    } else {
      assert (a + [x] + b)[1..] == a[1..] + [x] + b;
      assert a + b == [a[0]] + (a[1..] + b);
      WithoutBehind(a[1..], x, b);
    }
  }
}
