/** The selection itself: the in-place table, the improvement bits and the walk back. */
module Matcher {
  import opened Selections
  import opened KnapsackTable
  import opened CapacityCut

  /**
   One candidate's sweep, downwards and in place: every read at or below `w` still sees the
   previous row, so the row that results is the next one and no candidate is used twice.
   */
  method SweepDown(cs: seq<Candidate>, i: nat, dp: array<Entry>, keep: array2<bool>)
    requires i < |cs| == keep.Length0 && dp.Length == keep.Length1
    requires forall v: nat | v < dp.Length :: dp[v] == Row(cs, i, v) && !keep[i, v]
    modifies dp, keep
    ensures forall v: nat | v < dp.Length :: dp[v] == Row(cs, i + 1, v) && keep[i, v] == Improves(cs, i, v)
    ensures forall j: nat, v: nat | j < |cs| && j != i && v < dp.Length :: keep[j, v] == old(keep[j, v])
  {
    var e := cs[i].earnings;
    var w := dp.Length - 1;
    while w >= e
      invariant w < dp.Length && (e - 1 <= w || w == dp.Length - 1)
      invariant forall v: nat | v <= w :: dp[v] == Row(cs, i, v) && !keep[i, v]
      invariant forall v: nat | w < v < dp.Length :: dp[v] == Row(cs, i + 1, v) && keep[i, v] == Improves(cs, i, v)
      invariant forall j: nat, v: nat | j < |cs| && j != i && v < dp.Length :: keep[j, v] == old(keep[j, v])
    {
      if dp[w - e].Reached? {
        var candidateVal := Extend(dp[w - e], cs[i]);
        if Better(candidateVal, dp[w]) {
          dp[w] := candidateVal;
          keep[i, w] := true;
        }
      }
      w := w - 1;
    }
  }

  /** One row of entries for all candidates, and the bit for every improvement made on the way. */
  method FillTable(cs: seq<Candidate>, capacity: nat) returns (dp: array<Entry>, keep: array2<bool>)
    ensures dp.Length == keep.Length1 == capacity + 1 && keep.Length0 == |cs|
    ensures forall w: nat | w <= capacity :: dp[w] == Row(cs, |cs|, w)
    ensures forall i: nat, w: nat | i < |cs| && w <= capacity :: keep[i, w] == Improves(cs, i, w)
  {
    dp := new Entry[capacity + 1](_ => Unreached);
    dp[0] := Reached(0, 0.0);
    keep := new bool[|cs|, capacity + 1]((_, _) => false);
    for i := 0 to |cs|
      invariant forall w: nat | w <= capacity :: dp[w] == Row(cs, i, w)
      invariant forall j: nat, w: nat | j < i && w <= capacity :: keep[j, w] == Improves(cs, j, w)
      invariant forall j: nat, w: nat | i <= j < |cs| && w <= capacity :: !keep[j, w]
    {
      SweepDown(cs, i, dp, keep);
    }
  }

  /** The largest reached sum: the first components decide, since they are the sums themselves. */
  method BestSum(cs: seq<Candidate>, dp: array<Entry>) returns (best: nat)
    requires 0 < dp.Length && forall w: nat | w < dp.Length :: dp[w] == Row(cs, |cs|, w)
    ensures best < dp.Length && Row(cs, |cs|, best).Reached?
    ensures forall v: nat | best < v < dp.Length :: Row(cs, |cs|, v).Unreached?
  {
    NothingIsFree(cs, |cs|);
    RowIsLeast(cs, Nothing(|cs|));
    best := 0;
    for w := 0 to dp.Length
      invariant best < dp.Length && (w == 0 ==> best == 0) && (w > 0 ==> best < w)
      invariant dp[best].Reached?
      invariant forall v: nat | best < v < w :: dp[v].Unreached?
    {
      RowEarns(cs, |cs|, w);
      RowEarns(cs, |cs|, best);
      if dp[w].Reached? && Better(dp[w], dp[best]) {
        best := w;
      }
    }
  }

  /** One step of the walk: the bit says whether the candidate is taken, and the rest is traced from there. */
  lemma WalkStep(cs: seq<Candidate>, i: nat, w: nat)
    requires i < |cs| && Row(cs, i + 1, w).Reached?
    ensures Improves(cs, i, w) ==>
              && cs[i].earnings <= w && Row(cs, i, w - cs[i].earnings).Reached?
              && Picked(cs, Traced(cs, i + 1, w)) == [cs[i]] + Picked(cs, Traced(cs, i, w - cs[i].earnings))
    ensures !Improves(cs, i, w) ==>
              && Row(cs, i, w).Reached?
              && Picked(cs, Traced(cs, i + 1, w)) == Picked(cs, Traced(cs, i, w))
  {
    var m := Traced(cs, i + 1, w);
    if Improves(cs, i, w) {
      assert m[..i] == Traced(cs, i, w - cs[i].earnings);
    } else {
      assert m[..i] == Traced(cs, i, w);
    }
  }

  /** From the chosen sum back through the improvement bits, last candidate first. */
  method WalkBack(cs: seq<Candidate>, keep: array2<bool>, best: nat) returns (selected: seq<Candidate>)
    requires keep.Length0 == |cs| && best < keep.Length1 && Row(cs, |cs|, best).Reached?
    requires forall i: nat, w: nat | i < |cs| && w < keep.Length1 :: keep[i, w] == Improves(cs, i, w)
    ensures selected == Picked(cs, Traced(cs, |cs|, best))
  {
    selected := [];
    var w: int := best;
    var i := |cs| - 1;
    while i >= 0
      invariant -1 <= i < |cs| && 0 <= w < keep.Length1
      invariant Row(cs, i + 1, w).Reached?
      invariant selected + Picked(cs, Traced(cs, i + 1, w)) == Picked(cs, Traced(cs, |cs|, best))
    {
      WalkStep(cs, i, w);
      if keep[i, w] {
        selected := selected + [cs[i]];
        w := w - cs[i].earnings;
        if w < 0 {
          break;
        }
      }
      i := i - 1;
    }
    assert w == 0;
  }

  /** The candidates of the one best subset within the capacity, last position first. */
  method DpSelect(cs: seq<Candidate>, target: nat) returns (selected: seq<Candidate>)
    ensures exists picked :: BestWithin(cs, Capacity(cs, target), picked) && selected == Picked(cs, picked)
  {
    if cs == [] {
      NothingIsBest(cs);
      return [];
    }
    var capacity := Capacity(cs, target);
    if capacity == 0 {
      NothingIsBest(cs);
      return [];
    }
    var dp, keep := FillTable(cs, capacity);
    var best := BestSum(cs, dp);
    selected := WalkBack(cs, keep, best);
    TracedIsBest(cs, capacity, best);
  }

  lemma NothingIsBest(cs: seq<Candidate>)
    ensures BestWithin(cs, 0, Nothing(|cs|)) && Picked(cs, Nothing(|cs|)) == []
  {
    NothingIsFree(cs, |cs|);
    forall k: Mask | |k| == |cs|
      ensures PrefersEarlier(Nothing(|cs|), k)
    {
      NothingPrefersEarlier(k);
    }
  }
}
