/**
 When the selection, which is made for the largest sum, is also the quickest way to meet the goal:
 always exactly a condition on the last row of the table, and on the candidates alone where the cut
 does not bite, where all pay the same, and where time is proportional to pay. Where the cut bites,
 small jobs that cover the goal by themselves rule it out.
 */
module LeastTime {
  import opened Selections
  import opened KnapsackTable
  import opened CapacityCut

  /** The largest sum the table reaches within the capacity. */
  ghost predicate LargestReached(cs: seq<Candidate>, target: nat, w: nat) {
    && w <= Capacity(cs, target) && Row(cs, |cs|, w).Reached?
    && forall v: nat | w < v <= Capacity(cs, target) :: Row(cs, |cs|, v).Unreached?
  }

  /** No smaller sum at or above the goal has a quicker entry than the largest one. */
  ghost predicate NoSmallerSumIsQuicker(cs: seq<Candidate>, target: nat) {
    forall v: nat, w: nat |
      target <= v < w && LargestReached(cs, target, w) && Row(cs, |cs|, v).Reached? ::
      Row(cs, |cs|, v).negDuration <= Row(cs, |cs|, w).negDuration
  }

  lemma BestIsLargestReached(cs: seq<Candidate>, target: nat, m: Mask)
    requires BestWithin(cs, Capacity(cs, target), m)
    ensures LargestReached(cs, target, Pay(cs, m)) && -Row(cs, |cs|, Pay(cs, m)).negDuration == Time(cs, m)
  {
    RowIsLeast(cs, m);
    TracedWitness(cs, |cs|, Pay(cs, m));
    assert Time(cs, m) <= Time(cs, Traced(cs, |cs|, Pay(cs, m)));
    forall v: nat | Pay(cs, m) < v <= Capacity(cs, target)
      ensures Row(cs, |cs|, v).Unreached?
    {
      if Row(cs, |cs|, v).Reached? {
        TracedWitness(cs, |cs|, v);
      }
    }
  }

  /**
   When the selection is the quickest way to meet the goal, for every goal that can be met: exactly
   when the table of the candidates holds no quicker entry for a smaller sum at or above the goal.
   */
  lemma QuickestExactlyWhenNoSmallerSumIsQuicker(cs: seq<Candidate>, target: nat, m: Mask)
    requires target <= TotalEarnings(cs) && BestWithin(cs, Capacity(cs, target), m)
    ensures QuickestForGoal(cs, target, m) <==> NoSmallerSumIsQuicker(cs, target)
  {
    GoalMetWheneverPossible(cs, target, m);
    BestIsLargestReached(cs, target, m);
    if QuickestForGoal(cs, target, m) {
      QuickestIsLeastInTable(cs, target, m);
    } else {
      var k: Mask :| MeetsGoal(cs, target, k) && Time(cs, k) < Time(cs, m);
      var cut := CutKeepsAQuickerGoal(cs, target, k);
      RowIsLeast(cs, cut);
    }
  }

  /** Leaving any paid job out that takes time would miss the goal. */
  predicate EveryPaidHourIsNeeded(cs: seq<Candidate>, target: nat) {
    forall c | c in cs && 0 < c.earnings && 0.0 < c.duration :: TotalEarnings(cs) < target + c.earnings
  }

  /**
   When the cut does not bite, the condition can be read off the candidates alone: the selection
   is the quickest exactly when every paid job that takes time is needed for the goal.
   */
  lemma QuickestExactlyWhenAllAreNeeded(cs: seq<Candidate>, target: nat, m: Mask)
    requires target <= TotalEarnings(cs) <= target + MaxEarning(cs)
    requires BestWithin(cs, Capacity(cs, target), m)
    ensures QuickestForGoal(cs, target, m) <==> EveryPaidHourIsNeeded(cs, target)
  {
    var total := TotalEarnings(cs);
    PayOfAll(cs, |cs|);
    assert cs[..|cs|] == cs;
    PayAtMostTotal(cs, m);
    assert Pay(cs, m) == total;
    if !EveryPaidHourIsNeeded(cs, target) {
      var c :| c in cs && 0 < c.earnings && 0.0 < c.duration && target + c.earnings <= total;
      var j: nat :| j < |cs| && cs[j] == c;
      MissingPay(cs, m, j);
      DropOne(cs, m, j);
      assert MeetsGoal(cs, target, m[j := false]);
    } else {
      forall k: Mask | MeetsGoal(cs, target, k)
        ensures Time(cs, m) <= Time(cs, k)
      {
        TakesAllPaidHours(cs, target, m, k);
      }
    }
  }

  /** A subset that skips a candidate earns at most the total without it. */
  lemma MissingPay(cs: seq<Candidate>, m: Mask, j: nat)
    requires |m| == |cs| && j < |cs|
    ensures !m[j] ==> Pay(cs, m) + cs[j].earnings <= TotalEarnings(cs)
  {
    if !m[j] {
      var more := m[j := true];
      PayAtMostTotal(cs, more);
      DropOne(cs, more, j);
      assert more[j := false] == m;
    }
  }

  /** A subset that takes every paid candidate of positive duration that `m` takes is no quicker than `m`. */
  lemma TakesAllPaidHours(cs: seq<Candidate>, target: nat, m: Mask, k: Mask)
    requires EveryPaidHourIsNeeded(cs, target) && BestWithin(cs, Capacity(cs, target), m)
    requires MeetsGoal(cs, target, k) && Pay(cs, m) == TotalEarnings(cs)
    ensures Time(cs, m) <= Time(cs, k)
  {
    forall j: nat | j < |cs| && m[j] && !k[j]
      ensures cs[j].duration == 0.0
    {
      MissingPay(cs, k, j);
      assert cs[j] in cs;
      if cs[j].earnings == 0 {
        DropOne(cs, m, j);
        assert Time(cs, m) <= Time(cs, m[j := false]);
      }
    }
    NoMoreTimeWhenExtrasAreFree(cs, m, k);
  }

  lemma {:induction false} NoMoreTimeWhenExtrasAreFree(cs: seq<Candidate>, m: Mask, k: Mask)
    requires |m| == |k| <= |cs|
    requires forall j: nat | j < |m| && m[j] && !k[j] :: cs[j].duration == 0.0
    ensures Time(cs, m) <= Time(cs, k)
  {
    if m != [] {
      var last := |m| - 1;
      NoMoreTimeWhenExtrasAreFree(cs, m[..last], k[..last]);
    }
  }

  /** Two jobs of a dollar, one of one hour and one of ten: a goal of one dollar takes both. */
  lemma LeastTimeIsNotSelected(quick: Candidate, slow: Candidate, m: Mask)
    requires quick.earnings == 100 && quick.duration == 1.0
    requires slow.earnings == 100 && slow.duration == 10.0
    requires BestWithin([quick, slow], Capacity([quick, slow], 100), m)
    ensures m == [true, true] && Time([quick, slow], m) == 11.0
    ensures !QuickestForGoal([quick, slow], 100, m)
  {
    var cs := [quick, slow];
    var rest := cs[1..];
    assert rest == [slow] && rest[1..] == [];
    assert TotalEarnings(rest) == 100 && MaxEarning(rest) == 100;
    assert TotalEarnings(cs) == 200 && MaxEarning(cs) == 100;
    PayOfAll(cs, 2);
    assert cs[..2] == cs;
    forall j: nat | j < 2
      ensures m[j]
    {
      MissingPay(cs, m, j);
    }
    assert m == [true, true];
    assert m[..1] == [true] && [true][..0] == [];
    assert Time(cs, []) == 0.0 && Time(cs, [true]) == 1.0;
    DropOne(cs, m, 1);
    assert MeetsGoal(cs, 100, m[1 := false]);
  }

  // ---------- where the cut bites ----------

  /** Another paid job would have been taken had there been room for it. */
  lemma UnselectedPaidJobDoesNotFit(cs: seq<Candidate>, capacity: nat, m: Mask, k: nat)
    requires BestWithin(cs, capacity, m) && k < |cs| && !m[k] && 0 < cs[k].earnings
    ensures capacity < Pay(cs, m) + cs[k].earnings
  {
    var more := m[k := true];
    DropOne(cs, more, k);
    assert more[k := false] == m;
  }

  lemma QuickestNeedsEveryTimedJob(cs: seq<Candidate>, target: nat, m: Mask, j: nat)
    requires QuickestForGoal(cs, target, m) && j < |cs| && m[j] && 0.0 < cs[j].duration
    ensures Pay(cs, m) < target + cs[j].earnings
  {
    DropOne(cs, m, j);
    assert MeetsGoal(cs, target, m[j := false]) || Pay(cs, m) < target + cs[j].earnings;
  }

  function Either(a: Mask, b: Mask): Mask
    requires |a| == |b|
  {
    seq(|a|, i requires 0 <= i < |a| => a[i] || b[i])
  }

  lemma {:induction false} PayOfDisjoint(cs: seq<Candidate>, a: Mask, b: Mask)
    requires |a| == |b| <= |cs| && forall i | 0 <= i < |a| :: !(a[i] && b[i])
    ensures Pay(cs, Either(a, b)) == Pay(cs, a) + Pay(cs, b)
  {
    if a != [] {
      var last := |a| - 1;
      assert Either(a, b)[..last] == Either(a[..last], b[..last]);
      PayOfDisjoint(cs, a[..last], b[..last]);
    }
  }

  /** Paid jobs that take time and together with candidate `k` earn no more than the largest job. */
  predicate AreSmallBeside(cs: seq<Candidate>, k: nat, small: Mask)
    requires k < |cs|
  {
    && |small| == |cs|
    && forall j | 0 <= j < |small| && small[j] ::
         0 < cs[j].earnings && 0.0 < cs[j].duration && cs[j].earnings + cs[k].earnings <= MaxEarning(cs)
  }

  /**
   Where the cut bites, small jobs rule the quickest selection out: if some of those beside a job `k`
   that pays and takes time cover the goal and `k` once more, and all other jobs do not reach the
   capacity without `k`, the selection is not the quickest. The sums are of the input alone.
   */
  lemma SmallJobsMakeTheSelectionSlow(cs: seq<Candidate>, target: nat, k: nat, small: Mask, m: Mask)
    requires target + MaxEarning(cs) < TotalEarnings(cs) && BestWithin(cs, Capacity(cs, target), m)
    requires k < |cs| && 0 < cs[k].earnings && 0.0 < cs[k].duration && AreSmallBeside(cs, k, small)
    requires target + cs[k].earnings <= Pay(cs, small)
    requires TotalEarnings(cs) + cs[k].earnings <= target + MaxEarning(cs) + Pay(cs, small)
    ensures !QuickestForGoal(cs, target, m)
  {
    if QuickestForGoal(cs, target, m) {
      if m[k] {
        QuickestNeedsEveryTimedJob(cs, target, m, k);
        forall j: nat | j < |cs| && small[j]
          ensures m[j]
        {
          if !m[j] {
            UnselectedPaidJobDoesNotFit(cs, Capacity(cs, target), m, j);
          }
        }
        WithinIsCheaper(cs, small, m);
      } else {
        UnselectedPaidJobDoesNotFit(cs, Capacity(cs, target), m, k);
        forall j: nat | j < |cs| && small[j]
          ensures !m[j]
        {
          if m[j] {
            QuickestNeedsEveryTimedJob(cs, target, m, j);
          }
        }
        PayOfDisjoint(cs, m, small);
        PayAtMostTotal(cs, Either(m, small));
      }
      assert false;
    }
  }

  // ---------- one rate, one price ----------

  /** The subset earns a sum the selection may choose from. */
  predicate GoalWithinCut(cs: seq<Candidate>, target: nat, k: Mask) {
    |k| == |cs| && target <= Pay(cs, k) <= Capacity(cs, target)
  }

  ghost predicate OnlyOneSum(cs: seq<Candidate>, target: nat) {
    forall a: Mask, b: Mask | GoalWithinCut(cs, target, a) && GoalWithinCut(cs, target, b) :: Pay(cs, a) == Pay(cs, b)
  }

  lemma OnlyOneSumIsQuickest(cs: seq<Candidate>, target: nat, m: Mask)
    requires target <= TotalEarnings(cs) && BestWithin(cs, Capacity(cs, target), m) && OnlyOneSum(cs, target)
    ensures QuickestForGoal(cs, target, m)
  {
    GoalMetWheneverPossible(cs, target, m);
    forall k: Mask | MeetsGoal(cs, target, k)
      ensures Time(cs, m) <= Time(cs, k)
    {
      var cut := CutKeepsAQuickerGoal(cs, target, k);
      assert GoalWithinCut(cs, target, cut) && GoalWithinCut(cs, target, m);
    }
  }

  /** The time a sum takes when every cent takes the same time. */
  function TimeFor(cents: nat, hoursPerCent: real): real {
    cents as real * hoursPerCent
  }

  lemma TimesAdd(x: nat, y: nat, hoursPerCent: real)
    ensures TimeFor(x + y, hoursPerCent) == TimeFor(x, hoursPerCent) + TimeFor(y, hoursPerCent)
  {
    assert (x + y) as real == x as real + y as real;
  }

  lemma MoreTakesLonger(x: nat, y: nat, hoursPerCent: real)
    requires x < y && 0.0 < hoursPerCent
    ensures TimeFor(x, hoursPerCent) < TimeFor(y, hoursPerCent)
  {
    TimesAdd(x, y - x, hoursPerCent);
    assert 0.0 < (y - x) as real;
  }

  ghost predicate AllAtRate(cs: seq<Candidate>, hoursPerCent: real) {
    forall c | c in cs :: c.duration == TimeFor(c.earnings, hoursPerCent)
  }

  lemma {:induction false} TimeAtOneRate(cs: seq<Candidate>, hoursPerCent: real, m: Mask)
    requires |m| <= |cs| && AllAtRate(cs, hoursPerCent)
    ensures Time(cs, m) == TimeFor(Pay(cs, m), hoursPerCent)
  {
    if m != [] {
      var last := |m| - 1;
      TimeAtOneRate(cs, hoursPerCent, m[..last]);
      assert cs[last] in cs;
      TimesAdd(Pay(cs, m[..last]), cs[last].earnings, hoursPerCent);
    }
  }

  /**
   At one hourly rate for all jobs the question is a subset-sum question about the candidates: the
   selection is the quickest exactly when their subsets earn only one sum between the goal and the cut.
   */
  lemma AtOneRateExactlyWhenOnlyOneSum(cs: seq<Candidate>, target: nat, hoursPerCent: real, m: Mask)
    requires target <= TotalEarnings(cs) && BestWithin(cs, Capacity(cs, target), m)
    requires 0.0 < hoursPerCent && AllAtRate(cs, hoursPerCent)
    ensures QuickestForGoal(cs, target, m) <==> OnlyOneSum(cs, target)
  {
    if QuickestForGoal(cs, target, m) {
      forall a: Mask | GoalWithinCut(cs, target, a)
        ensures Pay(cs, a) == Pay(cs, m)
      {
        AtOneRateQuickerPaysNoLess(cs, hoursPerCent, m, a);
      }
    }
    if OnlyOneSum(cs, target) {
      OnlyOneSumIsQuickest(cs, target, m);
    }
  }

  lemma AtOneRateQuickerPaysNoLess(cs: seq<Candidate>, hoursPerCent: real, a: Mask, b: Mask)
    requires |a| == |b| == |cs| && Time(cs, a) <= Time(cs, b)
    requires 0.0 < hoursPerCent && AllAtRate(cs, hoursPerCent)
    ensures Pay(cs, a) <= Pay(cs, b)
  {
    TimeAtOneRate(cs, hoursPerCent, a);
    TimeAtOneRate(cs, hoursPerCent, b);
    if Pay(cs, b) < Pay(cs, a) {
      MoreTakesLonger(Pay(cs, b), Pay(cs, a), hoursPerCent);
    }
  }

  ghost predicate AllPay(cs: seq<Candidate>, price: nat) {
    forall c | c in cs :: c.earnings == price
  }

  /** What `n` jobs at the price earn. */
  function Times(n: nat, price: nat): nat {
    n * price
  }

  function Count(m: Mask): nat {
    if m == [] then 0 else Count(m[..|m| - 1]) + if m[|m| - 1] then 1 else 0
  }

  lemma {:induction false} PayAtOnePrice(cs: seq<Candidate>, price: nat, m: Mask)
    requires |m| <= |cs| && AllPay(cs, price)
    ensures Pay(cs, m) == Times(Count(m), price)
  {
    if m != [] {
      var last := |m| - 1;
      PayAtOnePrice(cs, price, m[..last]);
      assert cs[last] in cs;
      OneMore(price, Count(m[..last]));
    }
  }

  lemma OneMore(price: nat, n: nat)
    ensures Times(n + 1, price) == Times(n, price) + price
  {
  }

  lemma Quotient(target: nat, price: nat)
    requires 0 < price
    ensures target == Times(target / price, price) + target % price
  {
  }

  lemma {:induction false} MultiplesGrow(price: nat, n: nat, k: nat)
    requires n <= k
    ensures Times(n, price) <= Times(k, price)
    ensures n < k ==> Times(n, price) + price <= Times(k, price)
  {
    if n < k {
      MultiplesGrow(price, n, k - 1);
      OneMore(price, k - 1);
    }
  }

  lemma MultiplesAreApart(price: nat, n: nat, k: nat)
    requires Times(n, price) < Times(k, price)
    ensures Times(n, price) + price <= Times(k, price)
  {
    if n < k {
      MultiplesGrow(price, n, k);
    } else {
      MultiplesGrow(price, k, n);
    }
  }

  /** Jobs of one price can be left out until any multiple of it is left. */
  lemma {:induction false} ShrinkTo(cs: seq<Candidate>, price: nat, m: Mask, n: nat) returns (less: Mask)
    requires |m| == |cs| && AllPay(cs, price) && 0 < price && Times(n, price) <= Pay(cs, m)
    ensures Within(less, m) && Pay(cs, less) == Times(n, price)
    decreases Pay(cs, m)
  {
    if Pay(cs, m) == Times(n, price) {
      less := m;
    } else {
      var j := SomeoneIsPaid(cs, m);
      DropOne(cs, m, j);
      assert cs[j] in cs;
      PayAtOnePrice(cs, price, m);
      MultiplesAreApart(price, n, Count(m));
      less := ShrinkTo(cs, price, m[j := false], n);
    }
  }

  /** The candidates that take no time. */
  function Free(cs: seq<Candidate>): Mask {
    seq(|cs|, i requires 0 <= i < |cs| => cs[i].duration == 0.0)
  }

  /** Either the jobs cannot add up to the goal exactly, or all of them do, or one more than needed are free. */
  predicate OnePriceFits(cs: seq<Candidate>, target: nat, price: nat)
    requires 0 < price
  {
    target % price != 0 || TotalEarnings(cs) == target || target + price <= Pay(cs, Free(cs))
  }

  lemma FreeTakesNoTime(cs: seq<Candidate>, m: Mask)
    requires Within(m, Free(cs)) && |m| == |cs|
    ensures Time(cs, m) == 0.0
  {
    NothingIsFree(cs, |cs|);
    NoMoreTimeWhenExtrasAreFree(cs, m, Nothing(|cs|));
  }

  /** The only multiples of the price from the goal to the goal plus the price. */
  lemma MultiplesNearTheGoal(target: nat, price: nat, n: nat)
    requires 0 < price && target <= Times(n, price) <= target + price
    ensures target % price == 0 ==> Times(n, price) == target || Times(n, price) == target + price
    ensures target % price != 0 ==> Times(n, price) == Times(target / price, price) + price
  {
    var q := target / price;
    Quotient(target, price);
    OneMore(price, q);
    OneMore(price, q + 1);
    if Times(n, price) < Times(q + 1, price) {
      MultiplesAreApart(price, n, q + 1);
    } else if Times(q + 1, price) < Times(n, price) {
      MultiplesAreApart(price, q + 1, n);
    }
  }

  lemma {:induction false} LargestAtOnePrice(cs: seq<Candidate>, price: nat)
    requires AllPay(cs, price) && cs != []
    ensures MaxEarning(cs) == price
  {
    assert cs[0] in cs;
    if 1 < |cs| {
      LargestAtOnePrice(cs[1..], price);
    } else {
      assert cs[1..] == [];
    }
  }

  lemma TotalAtOnePrice(cs: seq<Candidate>, price: nat)
    requires AllPay(cs, price)
    ensures Pay(cs, All(|cs|)) == TotalEarnings(cs) == Times(Count(All(|cs|)), price)
  {
    PayOfAll(cs, |cs|);
    assert cs[..|cs|] == cs;
    PayAtOnePrice(cs, price, All(|cs|));
  }

  lemma OneMoreFits(target: nat, price: nat, n: nat)
    requires 0 < price && target % price == 0 && target < Times(n, price)
    ensures Times(target / price + 1, price) == target + price <= Times(n, price)
  {
    Quotient(target, price);
    OneMore(price, target / price);
    MultiplesAreApart(price, target / price, n);
  }

  /** At a price the goal is a multiple of, and with jobs left over, the selection takes one job too many. */
  lemma OneTooMany(cs: seq<Candidate>, target: nat, price: nat, m: Mask)
    requires 0 < price && AllPay(cs, price) && target % price == 0 && target < TotalEarnings(cs)
    requires BestWithin(cs, Capacity(cs, target), m)
    ensures Pay(cs, m) == Capacity(cs, target) == target + price
  {
    TotalAtOnePrice(cs, price);
    OneMoreFits(target, price, Count(All(|cs|)));
    LargestAtOnePrice(cs, price);
    var enough := ShrinkTo(cs, price, All(|cs|), target / price + 1);
    assert Pay(cs, enough) <= Pay(cs, m);
  }

  /**
   At one price for all jobs: the selection is the quickest exactly when the goal is no multiple of
   the price, or all jobs are needed, or the jobs that take no time cover one job more than the goal.
   */
  lemma AtOnePriceExactlyWhenItFits(cs: seq<Candidate>, target: nat, price: nat, m: Mask)
    requires 0 < price && AllPay(cs, price)
    requires target <= TotalEarnings(cs) && BestWithin(cs, Capacity(cs, target), m)
    ensures QuickestForGoal(cs, target, m) <==> OnePriceFits(cs, target, price)
  {
    if target % price != 0 || TotalEarnings(cs) == target {
      OnePriceHasOneSum(cs, target, price);
      OnlyOneSumIsQuickest(cs, target, m);
    } else {
      OneTooMany(cs, target, price, m);
      if target + price <= Pay(cs, Free(cs)) {
        Quotient(target, price);
        OneMore(price, target / price);
        var free := ShrinkTo(cs, price, Free(cs), target / price + 1);
        FreeTakesNoTime(cs, free);
        assert Time(cs, m) <= Time(cs, free);
      } else if QuickestForGoal(cs, target, m) {
        forall j: nat | j < |cs| && m[j]
          ensures cs[j].duration == 0.0
        {
          assert cs[j] in cs;
          if 0.0 < cs[j].duration {
            QuickestNeedsEveryTimedJob(cs, target, m, j);
          }
        }
        WithinIsCheaper(cs, m, Free(cs));
        assert false;
      }
    }
  }

  lemma OnePriceHasOneSum(cs: seq<Candidate>, target: nat, price: nat)
    requires 0 < price && AllPay(cs, price) && target <= TotalEarnings(cs)
    requires target % price != 0 || TotalEarnings(cs) == target
    ensures OnlyOneSum(cs, target)
  {
    forall a: Mask | GoalWithinCut(cs, target, a)
      ensures Pay(cs, a) == if TotalEarnings(cs) == target then target else Times(target / price, price) + price
    {
      if TotalEarnings(cs) != target {
        LargestAtOnePrice(cs, price);
        PayAtOnePrice(cs, price, a);
        MultiplesNearTheGoal(target, price, Count(a));
      }
    }
  }
}
