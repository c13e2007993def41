/** Filtering and reordering sequences, for the rows a query selects. */
module Sequences {
  function Filter<T>(p: T -> bool, s: seq<T>): seq<T> {
    if s == [] then []
    else if p(s[0]) then [s[0]] + Filter(p, s[1..])
    else Filter(p, s[1..])
  }

  ghost predicate Distinct<T>(s: seq<T>) {
    forall i, j | 0 <= i < j < |s| :: s[i] != s[j]
  }

  lemma {:induction false} FilterKeeps<T(!new)>(p: T -> bool, s: seq<T>)
    ensures forall x :: x in Filter(p, s) <==> x in s && p(x)
    ensures |Filter(p, s)| <= |s|
  {
    if s != [] {
      FilterKeeps(p, s[1..]);
    }
  }

  lemma {:induction false} FilterAppend<T(!new)>(p: T -> bool, a: seq<T>, b: seq<T>)
    ensures Filter(p, a + b) == Filter(p, a) + Filter(p, b)
  {
    if a == [] {
      assert a + b == b;
    } else {
      assert (a + b)[1..] == a[1..] + b;
      FilterAppend(p, a[1..], b);
    }
  }

  lemma {:induction false} FilterDistinct<T(!new)>(p: T -> bool, s: seq<T>)
    requires Distinct(s)
    ensures Distinct(Filter(p, s))
  {
    if s != [] {
      assert Distinct(s[1..]);
      FilterDistinct(p, s[1..]);
      FilterKeeps(p, s[1..]);
    }
  }

  lemma {:induction false} DistinctSize<T(!new)>(s: seq<T>)
    requires Distinct(s)
    ensures |(set x | x in s)| == |s|
  {
    if s != [] {
      var last := |s| - 1;
      assert Distinct(s[..last]);
      DistinctSize(s[..last]);
      assert s == s[..last] + [s[last]];
      assert (set x | x in s) == (set x | x in s[..last]) + {s[last]};
    }
  }

  /** Two duplicate-free sequences with the same members, in whatever order. */
  ghost predicate SameMembers<T(!new)>(a: seq<T>, b: seq<T>) {
    Distinct(a) && Distinct(b) && forall x :: x in a <==> x in b
  }

  /** What a filter keeps depends on the members, not on their order. */
  lemma FilterReordered<T(!new)>(p: T -> bool, a: seq<T>, b: seq<T>)
    requires SameMembers(a, b)
    ensures SameMembers(Filter(p, a), Filter(p, b)) && |Filter(p, a)| == |Filter(p, b)|
  {
    var fa, fb := Filter(p, a), Filter(p, b);
    FilterKeeps(p, a);
    FilterKeeps(p, b);
    FilterDistinct(p, a);
    FilterDistinct(p, b);
    DistinctSize(fa);
    DistinctSize(fb);
    assert (set x | x in fa) == (set x | x in fb);
  }
}
