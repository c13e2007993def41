/**
 The capacity cut and what the selection within it is worth: whether the goal is met, by how
 much it is overshot, and that the cut keeps a quickest way to meet it.
 */
module CapacityCut {
  import opened Selections
  import opened KnapsackTable

  /** The largest sum the table is built for. */
  function Capacity(cs: seq<Candidate>, target: nat): nat {
    var total := TotalEarnings(cs);
    var bound := target + MaxEarning(cs);
    if total < bound then total else bound
  }

  /**
   The subset a selection within `capacity` must be: the largest sum, then the least time for
   that sum, then the earliest candidates.
   */
  ghost predicate BestWithin(cs: seq<Candidate>, capacity: nat, m: Mask) {
    && |m| == |cs|
    && Pay(cs, m) <= capacity
    && (forall k: Mask | |k| == |cs| && Pay(cs, k) <= capacity :: Pay(cs, k) <= Pay(cs, m))
    && (forall k: Mask | |k| == |cs| && Pay(cs, k) == Pay(cs, m) ::
          && Time(cs, m) <= Time(cs, k)
          && (Time(cs, k) == Time(cs, m) ==> PrefersEarlier(m, k)))
  }

  ghost predicate MeetsGoal(cs: seq<Candidate>, target: nat, m: Mask) {
    |m| == |cs| && target <= Pay(cs, m)
  }

  /** No subset that meets the goal takes less time. */
  ghost predicate QuickestForGoal(cs: seq<Candidate>, target: nat, m: Mask) {
    && MeetsGoal(cs, target, m)
    && forall k: Mask | MeetsGoal(cs, target, k) :: Time(cs, m) <= Time(cs, k)
  }

  /** Sum, time and ties together leave one subset only. */
  lemma BestWithinIsUnique(cs: seq<Candidate>, capacity: nat, a: Mask, b: Mask)
    requires BestWithin(cs, capacity, a) && BestWithin(cs, capacity, b)
    ensures a == b
  {
    assert Pay(cs, a) == Pay(cs, b);
    assert Time(cs, a) == Time(cs, b);
    PrefersEarlierAntisymmetric(a, b);
  }

  /** The walk from the largest reached sum yields the best subset. */
  lemma TracedIsBest(cs: seq<Candidate>, capacity: nat, w: nat)
    requires w <= capacity && Row(cs, |cs|, w).Reached?
    requires forall v | w < v <= capacity :: Row(cs, |cs|, v).Unreached?
    ensures BestWithin(cs, capacity, Traced(cs, |cs|, w))
  {
    TracedWitness(cs, |cs|, w);
    var m := Traced(cs, |cs|, w);
    forall k: Mask | |k| == |cs| && Pay(cs, k) <= capacity
      ensures Pay(cs, k) <= Pay(cs, m)
    {
      RowIsLeast(cs, k);
    }
    forall k: Mask | |k| == |cs| && Pay(cs, k) == Pay(cs, m)
      ensures Time(cs, m) <= Time(cs, k) && (Time(cs, k) == Time(cs, m) ==> PrefersEarlier(m, k))
    {
      RowIsLeast(cs, k);
      if Time(cs, k) == Time(cs, m) {
        TracedPrefersEarlier(cs, k);
      }
    }
  }

  lemma {:induction false} SomeoneIsPaid(cs: seq<Candidate>, m: Mask) returns (j: nat)
    requires |m| <= |cs| && 0 < Pay(cs, m)
    ensures j < |m| && m[j]
  {
    var last := |m| - 1;
    if m[last] {
      j := last;
    } else {
      j := SomeoneIsPaid(cs, m[..last]);
    }
  }

  /**
   Domination: a subset that meets the goal contains one that meets it in no more time and
   within the capacity.
   */
  lemma {:induction false} CutKeepsAQuickerGoal(cs: seq<Candidate>, target: nat, m: Mask) returns (cut: Mask)
    requires MeetsGoal(cs, target, m)
    ensures Within(cut, m) && MeetsGoal(cs, target, cut)
    ensures Pay(cs, cut) <= Capacity(cs, target)
    ensures Time(cs, cut) <= Time(cs, m)
    decreases multiset(m)[true]
  {
    PayAtMostTotal(cs, m);
    if Pay(cs, m) <= target + MaxEarning(cs) {
      cut := m;
    } else {
      var j := SomeoneIsPaid(cs, m);
      DropOne(cs, m, j);
      assert cs[j] in cs;
      cut := CutKeepsAQuickerGoal(cs, target, m[j := false]);
    }
  }

  /**
   The goal is met whenever it can be met, and then overshot by at most the largest job; when it
   cannot be met, everything there is to earn is selected.
   */
  lemma GoalMetWheneverPossible(cs: seq<Candidate>, target: nat, m: Mask)
    requires BestWithin(cs, Capacity(cs, target), m)
    ensures Pay(cs, m) < target <==> TotalEarnings(cs) < target
    ensures target <= Pay(cs, m) ==> Pay(cs, m) <= target + MaxEarning(cs)
    ensures Pay(cs, m) < target ==> Pay(cs, m) == TotalEarnings(cs)
  {
    var everything := All(|cs|);
    PayOfAll(cs, |cs|);
    assert cs[..|cs|] == cs;
    PayAtMostTotal(cs, m);
    if target <= TotalEarnings(cs) {
      var cut := CutKeepsAQuickerGoal(cs, target, everything);
    }
  }

  /** `d` is the least time among the table's entries for sums that meet the goal. */
  ghost predicate LeastInTable(cs: seq<Candidate>, target: nat, d: real) {
    && (exists w: nat :: target <= w <= Capacity(cs, target) && Row(cs, |cs|, w) == Reached(w, -d))
    && (forall w: nat | target <= w <= Capacity(cs, target) && Row(cs, |cs|, w).Reached? ::
          d <= -Row(cs, |cs|, w).negDuration)
  }

  /**
   The cut loses nothing: the least time to meet the goal over all subsets is the least time
   over the table's entries at or above the goal.
   */
  lemma CutLosesNothing(cs: seq<Candidate>, target: nat, d: real)
    ensures LeastInTable(cs, target, d) <==> exists m: Mask :: QuickestForGoal(cs, target, m) && Time(cs, m) == d
  {
    if LeastInTable(cs, target, d) {
      var w: nat :| target <= w <= Capacity(cs, target) && Row(cs, |cs|, w) == Reached(w, -d);
      TracedWitness(cs, |cs|, w);
      var m := Traced(cs, |cs|, w);
      forall k: Mask | MeetsGoal(cs, target, k)
        ensures Time(cs, m) <= Time(cs, k)
      {
        var cut := CutKeepsAQuickerGoal(cs, target, k);
        RowIsLeast(cs, cut);
      }
      assert QuickestForGoal(cs, target, m);
    }
    if m: Mask :| QuickestForGoal(cs, target, m) && Time(cs, m) == d {
      QuickestIsLeastInTable(cs, target, m);
    }
  }

  lemma QuickestIsLeastInTable(cs: seq<Candidate>, target: nat, m: Mask)
    requires QuickestForGoal(cs, target, m)
    ensures LeastInTable(cs, target, Time(cs, m))
  {
    var d := Time(cs, m);
    forall w: nat | target <= w <= Capacity(cs, target) && Row(cs, |cs|, w).Reached?
      ensures d <= -Row(cs, |cs|, w).negDuration
    {
      TracedWitness(cs, |cs|, w);
      assert MeetsGoal(cs, target, Traced(cs, |cs|, w));
    }
    var cut := CutKeepsAQuickerGoal(cs, target, m);
    var w := Pay(cs, cut);
    RowIsLeast(cs, cut);
    RowEarns(cs, |cs|, w);
    assert Row(cs, |cs|, w) == Reached(w, -d);
  }
}
