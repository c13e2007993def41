/** The order results are presented in: soonest first, undated last, then shortest, else unchanged. */
module MatchOrder {
  import opened Wrappers
  import opened Sequences
  import opened Jobs
  import opened Selections

  /** The largest datetime Python has, in microseconds since the epoch: 9999-12-31 23:59:59.999999 UTC. */
  const SENTINEL_DATETIME: int := 253402300799999999

  datatype Key = Key(at: int, duration: Hours)

  function SortKey(c: Candidate): Key {
    Key(match c.job.idealDatetime case None => SENTINEL_DATETIME case Some(at) => at, c.duration)
  }

  predicate KeyLeq(a: Key, b: Key) {
    a.at < b.at || (a.at == b.at && a.duration <= b.duration)
  }

  ghost predicate Sorted(cs: seq<Candidate>) {
    forall i, j | 0 <= i < j < |cs| :: KeyLeq(SortKey(cs[i]), SortKey(cs[j]))
  }

  function HasKey(k: Key): Candidate -> bool {
    c => SortKey(c) == k
  }

  /** `s` is a stable rearrangement of `cs`: for every key, the same candidates in the same order. */
  ghost predicate StablyRearranges(s: seq<Candidate>, cs: seq<Candidate>) {
    forall k: Key :: Filter(HasKey(k), s) == Filter(HasKey(k), cs)
  }

  function InsertSorted(c: Candidate, s: seq<Candidate>): seq<Candidate> {
    if s == [] || KeyLeq(SortKey(c), SortKey(s[0])) then [c] + s
    else [s[0]] + InsertSorted(c, s[1..])
  }

  function SortResults(cs: seq<Candidate>): seq<Candidate> {
    if cs == [] then [] else InsertSorted(cs[0], SortResults(cs[1..]))
  }

  lemma {:induction false} InsertSortedIsStable(c: Candidate, s: seq<Candidate>)
    requires Sorted(s)
    ensures Sorted(InsertSorted(c, s))
    ensures forall x :: x in InsertSorted(c, s) <==> x == c || x in s
    ensures StablyRearranges(InsertSorted(c, s), [c] + s)
    ensures TotalEarnings(InsertSorted(c, s)) == c.earnings + TotalEarnings(s)
    ensures TotalDuration(InsertSorted(c, s)) == c.duration + TotalDuration(s)
    ensures |InsertSorted(c, s)| == |s| + 1
  {
    if s == [] || KeyLeq(SortKey(c), SortKey(s[0])) {
      assert ([c] + s)[1..] == s;
    } else {
      InsertSortedIsStable(c, s[1..]);
      var rest := InsertSorted(c, s[1..]);
      assert ([s[0]] + rest)[1..] == rest;
      forall k: Key
        ensures Filter(HasKey(k), [s[0]] + rest) == Filter(HasKey(k), [c] + s)
      {
        assert ([c] + s)[1..] == s && ([c] + s[1..])[1..] == s[1..];
      }
    }
  }

  /** Sorted, stable, nothing lost, nothing added. */
  lemma {:induction false} SortResultsIsStable(cs: seq<Candidate>)
    ensures Sorted(SortResults(cs)) && StablyRearranges(SortResults(cs), cs)
    ensures |SortResults(cs)| == |cs| && forall c :: c in SortResults(cs) <==> c in cs
    ensures TotalEarnings(SortResults(cs)) == TotalEarnings(cs)
    ensures TotalDuration(SortResults(cs)) == TotalDuration(cs)
  {
    if cs != [] {
      var rest := SortResults(cs[1..]);
      SortResultsIsStable(cs[1..]);
      InsertSortedIsStable(cs[0], rest);
      forall k: Key
        ensures Filter(HasKey(k), SortResults(cs)) == Filter(HasKey(k), cs)
      {
        assert Filter(HasKey(k), SortResults(cs)) == Filter(HasKey(k), [cs[0]] + rest);
        assert ([cs[0]] + rest)[1..] == rest;
      }
    }
  }

  /** There is only one stable sort, so the algorithm behind Python's `sorted` does not matter. */
  lemma {:induction false} StableSortIsUnique(a: seq<Candidate>, b: seq<Candidate>)
    requires Sorted(a) && Sorted(b) && StablyRearranges(a, b)
    ensures a == b
  {
    if a == [] {
      if b != [] {
        SameHead(b, a);
      }
    } else {
      SameHead(a, b);
      forall k: Key
        ensures Filter(HasKey(k), a[1..]) == Filter(HasKey(k), b[1..])
      {
        var fa, fb := Filter(HasKey(k), a), Filter(HasKey(k), b);
        assert fa == fb;
        if SortKey(a[0]) == k {
          assert fa[1..] == Filter(HasKey(k), a[1..]) && fb[1..] == Filter(HasKey(k), b[1..]);
        }
      }
      StableSortIsUnique(a[1..], b[1..]);
      assert a == [a[0]] + a[1..] && b == [b[0]] + b[1..];
    }
  }

  lemma SameHead(a: seq<Candidate>, b: seq<Candidate>)
    requires Sorted(a) && Sorted(b) && StablyRearranges(a, b) && a != []
    ensures b != [] && a[0] == b[0]
  {
    var ka := SortKey(a[0]);
    assert a[0] in Filter(HasKey(ka), a);
    FilterKeeps(HasKey(ka), b);
    assert a[0] in b;
    var kb := SortKey(b[0]);
    assert b[0] in Filter(HasKey(kb), b);
    FilterKeeps(HasKey(kb), a);
    assert b[0] in a;
    assert KeyLeq(ka, kb) && KeyLeq(kb, ka);
    assert Filter(HasKey(ka), a)[0] == a[0] && Filter(HasKey(ka), b)[0] == b[0];
  }

  /** The candidates are for different jobs. */
  ghost predicate DistinctJobs(cs: seq<Candidate>) {
    forall i, j | 0 <= i < j < |cs| :: cs[i].job.id != cs[j].job.id
  }

  lemma PrependDistinct(c: Candidate, s: seq<Candidate>)
    requires DistinctJobs(s) && forall x | x in s :: x.job.id != c.job.id
    ensures DistinctJobs([c] + s)
  {
    forall j | 0 <= j < |s|
      ensures s[j].job.id != c.job.id
    {
      assert s[j] in s;
    }
  }

  lemma {:induction false} InsertKeepsJobsDistinct(c: Candidate, s: seq<Candidate>)
    requires DistinctJobs(s) && forall x | x in s :: x.job.id != c.job.id
    ensures DistinctJobs(InsertSorted(c, s))
    ensures forall x :: x in InsertSorted(c, s) <==> x == c || x in s
  {
    if s == [] || KeyLeq(SortKey(c), SortKey(s[0])) {
      PrependDistinct(c, s);
    } else {
      InsertKeepsJobsDistinct(c, s[1..]);
      PrependDistinct(s[0], InsertSorted(c, s[1..]));
    }
  }

  lemma {:induction false} SortKeepsJobsDistinct(cs: seq<Candidate>)
    requires DistinctJobs(cs)
    ensures DistinctJobs(SortResults(cs))
  {
    if cs != [] {
      SortKeepsJobsDistinct(cs[1..]);
      SortResultsIsStable(cs[1..]);
      InsertKeepsJobsDistinct(cs[0], SortResults(cs[1..]));
    }
  }

  /**
   What the order means: dated jobs soonest first, then undated ones, and at equal dates the shorter
   job first. A job dated at the last instant a datetime can hold counts as undated here.
   */
  lemma ResultsReadInOrder(cs: seq<Candidate>, i: nat, j: nat)
    requires i < j < |SortResults(cs)|
    requires forall c | c in cs && c.job.idealDatetime.Some? :: c.job.idealDatetime.value <= 253402300799999999
    ensures var a, b := SortResults(cs)[i], SortResults(cs)[j];
            var x, y := a.job.idealDatetime, b.job.idealDatetime;
            && (x.Some? && y.Some? ==> x.value <= y.value)
            && (x == y ==> a.duration <= b.duration)
            && (x.None? && y.Some? ==> y.value == 253402300799999999 && a.duration <= b.duration)
            && (x.Some? && y.None? && x.value == 253402300799999999 ==> a.duration <= b.duration)
  {
    SortResultsIsStable(cs);
    assert SortResults(cs)[i] in cs && SortResults(cs)[j] in cs;
  }
}
