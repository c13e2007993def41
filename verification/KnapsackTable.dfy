/**
 The knapsack table: for every prefix of the candidates and every sum of cents,
 the least time in which a subset of the prefix earns exactly that sum.
 */
module KnapsackTable {
  import opened Selections

  /** A table entry: earnings and negated duration, or never reached. */
  datatype Entry = Unreached | Reached(earned: int, negDuration: real)

  /** Python's `>` on the entry tuples, an unreached entry being minus infinity. */
  predicate Better(a: Entry, b: Entry) {
    a.Reached? && (b.Unreached? || a.earned > b.earned || (a.earned == b.earned && a.negDuration > b.negDuration))
  }

  function Extend(e: Entry, c: Candidate): Entry
    requires e.Reached?
  {
    Reached(e.earned + c.earnings, e.negDuration - c.duration)
  }

  /** The entry for sum `w` once the first `i` candidates have been considered. */
  function Row(cs: seq<Candidate>, i: nat, w: nat): Entry
    requires i <= |cs|
    decreases i, 1
  {
    if i == 0 then
      if w == 0 then Reached(0, 0.0) else Unreached
    else if Improves(cs, i - 1, w) then
      Extend(Row(cs, i - 1, w - cs[i - 1].earnings), cs[i - 1])
    else
      Row(cs, i - 1, w)
  }

  /** Candidate `i` strictly improves the entry for sum `w`. */
  predicate Improves(cs: seq<Candidate>, i: nat, w: nat)
    requires i < |cs|
    decreases i, 2
  {
    var e := cs[i].earnings;
    e <= w && Row(cs, i, w - e).Reached? && Better(Extend(Row(cs, i, w - e), cs[i]), Row(cs, i, w))
  }

  /** The subset the backward walk reads off the improvement bits. */
  function Traced(cs: seq<Candidate>, i: nat, w: nat): (m: Mask)
    requires i <= |cs|
    ensures |m| == i
    decreases i
  {
    if i == 0 then []
    else if Improves(cs, i - 1, w) then Traced(cs, i - 1, w - cs[i - 1].earnings) + [true]
    else Traced(cs, i - 1, w) + [false]
  }

  /** A reached entry is witnessed: the traced subset earns exactly `w` in exactly the entry's time. */
  lemma {:induction false} TracedWitness(cs: seq<Candidate>, i: nat, w: nat)
    requires i <= |cs| && Row(cs, i, w).Reached?
    ensures Row(cs, i, w).earned == w
    ensures Pay(cs, Traced(cs, i, w)) == w
    ensures Time(cs, Traced(cs, i, w)) == -Row(cs, i, w).negDuration
  {
    if i != 0 {
      var e := cs[i - 1].earnings;
      var from := if Improves(cs, i - 1, w) then w - e else w;
      TracedWitness(cs, i - 1, from);
      assert Traced(cs, i, w)[..i - 1] == Traced(cs, i - 1, from);
    }
  }

  /** The entry is a lower bound: no subset earns exactly that sum in less time. */
  lemma {:induction false} RowIsLeast(cs: seq<Candidate>, m: Mask)
    requires |m| <= |cs|
    ensures Row(cs, |m|, Pay(cs, m)).Reached?
    ensures -Row(cs, |m|, Pay(cs, m)).negDuration <= Time(cs, m)
  {
    if m != [] {
      var last := |m| - 1;
      var w := Pay(cs, m);
      RowIsLeast(cs, m[..last]);
      RowEarns(cs, last, w);
      if cs[last].earnings <= w {
        RowEarns(cs, last, w - cs[last].earnings);
      }
    }
  }

  lemma RowEarns(cs: seq<Candidate>, i: nat, w: nat)
    requires i <= |cs|
    ensures Row(cs, i, w).Reached? ==> Row(cs, i, w).earned == w
  {
    if Row(cs, i, w).Reached? {
      TracedWitness(cs, i, w);
    }
  }

  /**
   The table against the reference definition: an entry is reached exactly when some subset of
   the prefix earns the sum, and then it holds the least time any such subset takes.
   */
  lemma RowIsBestOfSubsets(cs: seq<Candidate>, i: nat, w: nat)
    requires i <= |cs|
    ensures Row(cs, i, w).Reached? <==> exists m: Mask :: |m| == i && Pay(cs, m) == w
    ensures Row(cs, i, w).Reached? ==>
              && (exists m: Mask :: |m| == i && Pay(cs, m) == w && Time(cs, m) == -Row(cs, i, w).negDuration)
              && (forall m: Mask | |m| == i && Pay(cs, m) == w :: -Row(cs, i, w).negDuration <= Time(cs, m))
  {
    forall m: Mask | |m| == i && Pay(cs, m) == w
      ensures Row(cs, i, w).Reached? && -Row(cs, i, w).negDuration <= Time(cs, m)
    {
      RowIsLeast(cs, m);
    }
    if Row(cs, i, w).Reached? {
      TracedWitness(cs, i, w);
    }
  }

  /** Among equally long subsets with the same sum, the traced one prefers earlier candidates. */
  lemma {:induction false} TracedPrefersEarlier(cs: seq<Candidate>, m: Mask)
    requires |m| <= |cs|
    requires Row(cs, |m|, Pay(cs, m)).Reached?
    requires Time(cs, m) == -Row(cs, |m|, Pay(cs, m)).negDuration
    ensures PrefersEarlier(Traced(cs, |m|, Pay(cs, m)), m)
  {
    if m != [] {
      var last := |m| - 1;
      var w := Pay(cs, m);
      var prefix := m[..last];
      RowIsLeast(cs, prefix);
      RowEarns(cs, last, w);
      var from := if Improves(cs, last, w) then w - cs[last].earnings else w;
      assert Traced(cs, |m|, w)[..last] == Traced(cs, last, from);
      if cs[last].earnings <= w {
        RowEarns(cs, last, w - cs[last].earnings);
      }
      if m[last] == Improves(cs, last, w) {
        TracedPrefersEarlier(cs, prefix);
      }
    }
  }
}
