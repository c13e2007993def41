/**
 Match candidates and the subsets of them a selection may take. A subset of the
 candidates is a mask: one boolean for each candidate position, so distinct
 positions are built in and a prefix of a mask is a subset of a prefix.
 */
module Selections {
  import opened Wrappers
  import opened Jobs

  datatype Candidate = Candidate(job: Job, earnings: nat, duration: Hours, posterPhone: Option<string>)

  type Mask = seq<bool>

  /** What the masked candidates earn together, in cents. */
  function Pay(cs: seq<Candidate>, m: Mask): nat
    requires |m| <= |cs|
  {
    if m == [] then 0
    else
      var last := |m| - 1;
      Pay(cs, m[..last]) + if m[last] then cs[last].earnings else 0
  }

  /** How long the masked candidates take together. */
  function Time(cs: seq<Candidate>, m: Mask): Hours
    requires |m| <= |cs|
  {
    if m == [] then 0.0
    else
      var last := |m| - 1;
      Time(cs, m[..last]) + if m[last] then cs[last].duration else 0.0
  }

  /** The masked candidates, last position first. */
  function Picked(cs: seq<Candidate>, m: Mask): seq<Candidate>
    requires |m| <= |cs|
  {
    if m == [] then []
    else
      var last := |m| - 1;
      (if m[last] then [cs[last]] else []) + Picked(cs, m[..last])
  }

  function TotalEarnings(cs: seq<Candidate>): nat {
    if cs == [] then 0 else cs[0].earnings + TotalEarnings(cs[1..])
  }

  function TotalDuration(cs: seq<Candidate>): Hours {
    if cs == [] then 0.0 else cs[0].duration + TotalDuration(cs[1..])
  }

  function MaxEarning(cs: seq<Candidate>): (most: nat)
    ensures forall c | c in cs :: c.earnings <= most
  {
    if cs == [] then 0
    else
      var rest := MaxEarning(cs[1..]);
      if cs[0].earnings > rest then cs[0].earnings else rest
  }

  function All(n: nat): Mask {
    seq(n, _ => true)
  }

  function Nothing(n: nat): Mask {
    seq(n, _ => false)
  }

  /** `a` takes nothing that `b` does not take. */
  predicate Within(a: Mask, b: Mask) {
    |a| == |b| && forall j | 0 <= j < |a| :: a[j] ==> b[j]
  }

  /** At the last position where they differ, `a` skips the candidate and `b` takes it. */
  predicate PrefersEarlier(a: Mask, b: Mask)
    requires |a| == |b|
  {
    if a == [] then true
    else
      var last := |a| - 1;
      if a[last] == b[last] then PrefersEarlier(a[..last], b[..last]) else !a[last]
  }

  lemma {:induction false} PickedTotals(cs: seq<Candidate>, m: Mask)
    requires |m| <= |cs|
    ensures TotalEarnings(Picked(cs, m)) == Pay(cs, m)
    ensures TotalDuration(Picked(cs, m)) == Time(cs, m)
  {
    if m != [] {
      var last := |m| - 1;
      PickedTotals(cs, m[..last]);
      var rest := Picked(cs, m[..last]);
      assert ([cs[last]] + rest)[1..] == rest && [] + rest == rest;
    }
  }

  lemma {:induction false} PayOfAll(cs: seq<Candidate>, n: nat)
    requires n <= |cs|
    ensures Pay(cs, All(n)) == TotalEarnings(cs[..n])
  {
    if n == 0 {
    } else {
      assert All(n)[..n - 1] == All(n - 1);
      PayOfAll(cs, n - 1);
      TotalEarningsAppend(cs[..n - 1], cs[n - 1]);
      assert cs[..n] == cs[..n - 1] + [cs[n - 1]];
    }
  }

  lemma {:induction false} TotalEarningsAppend(cs: seq<Candidate>, c: Candidate)
    ensures TotalEarnings(cs + [c]) == TotalEarnings(cs) + c.earnings
  {
    if cs == [] {
    } else {
      assert (cs + [c])[1..] == cs[1..] + [c];
      TotalEarningsAppend(cs[1..], c);
    }
  }

  lemma {:induction false} NothingIsFree(cs: seq<Candidate>, n: nat)
    requires n <= |cs|
    ensures Pay(cs, Nothing(n)) == 0 && Time(cs, Nothing(n)) == 0.0 && Picked(cs, Nothing(n)) == []
  {
    if n != 0 {
      assert Nothing(n)[..n - 1] == Nothing(n - 1);
      NothingIsFree(cs, n - 1);
    }
  }

  /** A larger subset earns no less and takes no less time. */
  lemma {:induction false} WithinIsCheaper(cs: seq<Candidate>, a: Mask, b: Mask)
    requires |a| == |b| <= |cs| && Within(a, b)
    ensures Pay(cs, a) <= Pay(cs, b) && Time(cs, a) <= Time(cs, b)
  {
    if a != [] {
      WithinIsCheaper(cs, a[..|a| - 1], b[..|b| - 1]);
    }
  }

  /** No subset earns more than all candidates together. */
  lemma PayAtMostTotal(cs: seq<Candidate>, m: Mask)
    requires |m| == |cs|
    ensures Pay(cs, m) <= TotalEarnings(cs)
  {
    WithinIsCheaper(cs, m, All(|cs|));
    PayOfAll(cs, |cs|);
    assert cs[..|cs|] == cs;
  }

  /** Leaving one taken candidate out removes exactly its pay and its time. */
  lemma {:induction false} DropOne(cs: seq<Candidate>, m: Mask, j: nat)
    requires j < |m| <= |cs| && m[j]
    ensures Pay(cs, m[j := false]) == Pay(cs, m) - cs[j].earnings
    ensures Time(cs, m[j := false]) == Time(cs, m) - cs[j].duration
  {
    var last := |m| - 1;
    if j < last {
      assert m[j := false][..last] == m[..last][j := false];
      DropOne(cs, m[..last], j);
    } else {
      assert m[j := false][..last] == m[..last];
    }
  }

  lemma {:induction false} PrefersEarlierAntisymmetric(a: Mask, b: Mask)
    requires |a| == |b| && PrefersEarlier(a, b) && PrefersEarlier(b, a)
    ensures a == b
  {
    if a != [] {
      var last := |a| - 1;
      PrefersEarlierAntisymmetric(a[..last], b[..last]);
      assert a == a[..last] + [a[last]] && b == b[..last] + [b[last]];
    }
  }

  lemma {:induction false} NothingPrefersEarlier(m: Mask)
    ensures PrefersEarlier(Nothing(|m|), m)
  {
    if m != [] {
      var last := |m| - 1;
      assert Nothing(|m|)[..last] == Nothing(last);
      NothingPrefersEarlier(m[..last]);
    }
  }
}
