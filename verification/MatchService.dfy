/** Matching one work goal: retrieve, build candidates, select, sort, persist. */
module MatchService {
  import opened Wrappers
  import opened Sequences
  import opened Jobs
  import opened Selections
  import opened CapacityCut
  import opened JobRepository
  import opened MatchRepository
  import MatchOrder
  import Matcher

  const SEMANTIC_MIN_CANDIDATES: nat := 5

  datatype WorkGoal = WorkGoal(id: int, targetEarnings: nat, targetDeadline: Option<int>)

  datatype User = User(phoneE164: Option<string>)

  datatype MatchResult = MatchResult(jobs: seq<Candidate>, workGoal: WorkGoal, totalEarnings: nat, isPartial: bool)

  /** What the vector index answered: ranked ids with scores, or no answer (failure or timeout). */
  type Ranking = Option<seq<(int, real)>>

  function RankedIds(ranked: seq<(int, real)>): seq<int> {
    seq(|ranked|, i requires 0 <= i < |ranked| => ranked[i].0)
  }

  /** The semantic hits, when there is a searcher, a query and an answer; nothing otherwise. */
  function SemanticHits(searching: bool, query: string, ranking: Ranking, scan: seq<Job>, deadline: Option<int>): seq<Job> {
    if searching && query != "" && ranking.Some? then CandidatesByIds(scan, RankedIds(ranking.value), deadline)
    else []
  }

  /** The jobs that compete: the semantic hits when they are enough, the full scan otherwise. */
  function Retrieved(searching: bool, query: string, ranking: Ranking, byIdScan: seq<Job>, fullScan: seq<Job>,
                     deadline: Option<int>): seq<Job>
  {
    var hits := SemanticHits(searching, query, ranking, byIdScan, deadline);
    if SEMANTIC_MIN_CANDIDATES <= |hits| then hits else CandidatesForGoal(fullScan, deadline)
  }

  /**
   When the semantic path is taken: exactly when a searcher is bound, the message has a text, the
   search answered, and at least five of its ids are eligible computable rows. Then those rows compete
   in the order of their rank; otherwise the full scan does.
   */
  lemma SemanticPathExactlyWhenFiveHits(searching: bool, query: string, ranking: Ranking, byIdScan: seq<Job>,
                                        fullScan: seq<Job>, deadline: Option<int>)
    ensures var jobs := Retrieved(searching, query, ranking, byIdScan, fullScan, deadline);
            if searching && 0 < |query| && ranking.Some?
               && 5 <= |Filter(HitIn(byIdScan, deadline), RankedIds(ranking.value))|
            then Ids(jobs) == Filter(HitIn(byIdScan, deadline), RankedIds(ranking.value))
            else jobs == CandidatesForGoal(fullScan, deadline)
    ensures ranking.Some? ==>
              && |RankedIds(ranking.value)| == |ranking.value|
              && forall i | 0 <= i < |ranking.value| :: RankedIds(ranking.value)[i] == ranking.value[i].0
  {
    if ranking.Some? {
      HitsAreExact(byIdScan, RankedIds(ranking.value), deadline);
      assert |Ids(CandidatesByIds(byIdScan, RankedIds(ranking.value), deadline))|
          == |CandidatesByIds(byIdScan, RankedIds(ranking.value), deadline)|;
    }
  }

  class MatchService {
    /** An embedding searcher is bound. */
    const searching: bool

    constructor (searching: bool)
      ensures this.searching == searching
    {
      this.searching := searching;
    }

    /**
     Semantic top-K when it yields enough, the full scan otherwise; a search outage only ever costs
     the ranking. `byIdScan` and `fullScan` are the orders Postgres returns the job table in.
     */
    method RetrieveCandidates(byIdScan: seq<Job>, fullScan: seq<Job>, goal: WorkGoal, query: string, ranking: Ranking)
      returns (jobs: seq<Job>)
      requires SameRows(byIdScan, fullScan)
      ensures jobs == Retrieved(searching, query, ranking, byIdScan, fullScan, goal.targetDeadline)
      ensures forall job | job in jobs ::
                job in fullScan && Eligible(job, goal.targetDeadline) && Computable(job)
      ensures (ranking.Some? ==> Distinct(RankedIds(ranking.value))) ==> DistinctIds(jobs)
    {
      HitsAreDistinct(searching, byIdScan, goal, query, ranking);
      ScannedAreDistinct(fullScan, goal);
      if searching && query != "" {
        var ranked := if ranking.Some? then ranking.value else [];
        if ranked != [] {
          jobs := FindCandidatesByIds(byIdScan, RankedIds(ranked), goal.targetDeadline);
          if |jobs| >= SEMANTIC_MIN_CANDIDATES {
            return;
          }
        }
      }
      jobs := FindCandidatesForGoal(fullScan, goal.targetDeadline);
    }

    /** Job id to poster, by way of the posting's message; `users` maps message ids to their senders. */
    method FindPosters(jobs: seq<Job>, users: map<int, User>) returns (posters: map<int, Option<User>>)
      requires DistinctIds(jobs)
      ensures posters.Keys == set job | job in jobs :: job.id
      ensures forall job | job in jobs ::
                posters[job.id] == if job.messageId in users then Some(users[job.messageId]) else None
    {
      posters := map[];
      for i := 0 to |jobs|
        invariant posters.Keys == set job | job in jobs[..i] :: job.id
        invariant forall j | 0 <= j < i ::
                    posters[jobs[j].id] == if jobs[j].messageId in users then Some(users[jobs[j].messageId]) else None
      {
        assert jobs[..i + 1] == jobs[..i] + [jobs[i]];
        posters := posters[jobs[i].id := if jobs[i].messageId in users then Some(users[jobs[i].messageId]) else None];
      }
      assert jobs[..|jobs|] == jobs;
    }

    /** One candidate per job with computable earnings, in the order of the jobs. */
    method BuildCandidates(jobs: seq<Job>, users: map<int, User>) returns (candidates: seq<Candidate>)
      requires DistinctIds(jobs) && forall job | job in jobs :: job.Valid()
      ensures JobsOf(candidates) == ComputableRows(jobs)
      ensures forall c | c in candidates :: Describes(c, users)
    {
      var posters := FindPosters(jobs, users);
      candidates := [];
      for i := 0 to |jobs|
        invariant JobsOf(candidates) == ComputableRows(jobs[..i])
        invariant forall c | c in candidates :: Describes(c, users)
      {
        var job := jobs[i];
        assert jobs[..i + 1] == jobs[..i] + [job];
        ComputableAppend(jobs[..i], job);
        var terms := job.Terms();
        var earnings := terms.Earnings();
        if earnings.None? {
          continue;
        }
        var poster := posters[job.id];
        var c := Candidate(job, earnings.value,
                           if terms.durationHours.Some? then terms.durationHours.value else 0.0,
                           if poster.Some? then poster.value.phoneE164 else None);
        assert JobsOf(candidates + [c]) == JobsOf(candidates) + [job];
        candidates := candidates + [c];
      }
      assert jobs[..|jobs|] == jobs;
    }

    /**
     The whole match over the `candidates` that competed: the best subset within the capacity,
     presented in order, with exactly its jobs recorded.
     */
    method Match(session: MatchTables, goal: WorkGoal, query: string, ranking: Ranking,
                 byIdScan: seq<Job>, fullScan: seq<Job>, users: map<int, User>)
      returns (result: MatchResult, ghost candidates: seq<Candidate>)
      requires SameRows(byIdScan, session.jobs) && SameRows(fullScan, session.jobs)
      requires forall job | job in session.jobs :: job.Valid()
      requires ranking.Some? ==> Distinct(RankedIds(ranking.value))
      modifies session`matches
      ensures forall c | c in candidates ::
                c.job in session.jobs && Eligible(c.job, goal.targetDeadline) && Describes(c, users)
      ensures JobsOf(candidates) == Retrieved(searching, query, ranking, byIdScan, fullScan, goal.targetDeadline)
      ensures MatchOrder.DistinctJobs(candidates)
      ensures exists picked :: IsMatch(result, goal, candidates, picked)
      ensures session.matches ==
              Persisted(old(session.matches), session.jobs, session.workGoalIds, JobIds(result.jobs), goal.id)
    {
      var competing := CompetingCandidates(byIdScan, fullScan, goal, query, ranking, users);
      candidates := competing;
      if competing == [] {
        NothingMatches(goal);
        return MatchResult([], goal, 0, true), candidates;
      }
      result := SelectJobs(competing, goal);
      if result.jobs != [] {
        PersistMatches(session, JobIds(result.jobs), goal.id);
      }
    }

    /** Retrieval and candidate building: every retrieved job has computable earnings, so none is lost. */
    method CompetingCandidates(byIdScan: seq<Job>, fullScan: seq<Job>, goal: WorkGoal, query: string, ranking: Ranking,
                               users: map<int, User>)
      returns (candidates: seq<Candidate>)
      requires SameRows(byIdScan, fullScan) && forall job | job in fullScan :: job.Valid()
      requires ranking.Some? ==> Distinct(RankedIds(ranking.value))
      ensures forall c | c in candidates ::
                c.job in fullScan && Eligible(c.job, goal.targetDeadline) && Describes(c, users)
      ensures JobsOf(candidates) == Retrieved(searching, query, ranking, byIdScan, fullScan, goal.targetDeadline)
      ensures MatchOrder.DistinctJobs(candidates)
    {
      var rawJobs := RetrieveCandidates(byIdScan, fullScan, goal, query, ranking);
      candidates := BuildCandidates(rawJobs, users);
      CandidatesAreTheRetrieved(candidates, rawJobs);
      AllComputable(rawJobs);
    }

    /** Selection, presentation order and totals for the candidates there are. */
    method SelectJobs(candidates: seq<Candidate>, goal: WorkGoal) returns (result: MatchResult)
      requires candidates != []
      ensures exists picked :: IsMatch(result, goal, candidates, picked)
    {
      var selected := Matcher.DpSelect(candidates, goal.targetEarnings);
      ghost var picked :| && BestWithin(candidates, Capacity(candidates, goal.targetEarnings), picked)
                          && selected == Picked(candidates, picked);
      var sortedSelected := MatchOrder.SortResults(selected);
      SelectionTotals(candidates, goal.targetEarnings, picked);
      var total := TotalEarnings(sortedSelected);
      result := MatchResult(sortedSelected, goal, total, total < goal.targetEarnings);
      assert IsMatch(result, goal, candidates, picked);
    }
  }

  /**
   The result is the best selection within the capacity, in presentation order. It is partial exactly
   when all candidates together miss the goal (or there are none), and then it takes everything there
   is to earn; otherwise it overshoots by at most the largest job.
   */
  ghost predicate IsMatch(result: MatchResult, goal: WorkGoal, candidates: seq<Candidate>, picked: Mask) {
    && BestWithin(candidates, Capacity(candidates, goal.targetEarnings), picked)
    && result == MatchResult(MatchOrder.SortResults(Picked(candidates, picked)), goal, Pay(candidates, picked),
                             TotalEarnings(candidates) < goal.targetEarnings || candidates == [])
    && (result.isPartial ==> result.totalEarnings == TotalEarnings(candidates))
    && (!result.isPartial ==>
          goal.targetEarnings <= result.totalEarnings <= goal.targetEarnings + MaxEarning(candidates))
  }

  lemma NothingMatches(goal: WorkGoal)
    ensures IsMatch(MatchResult([], goal, 0, true), goal, [], [])
  {
  }

  function JobIds(cs: seq<Candidate>): seq<int> {
    seq(|cs|, i requires 0 <= i < |cs| => cs[i].job.id)
  }

  ghost function JobsOf(cs: seq<Candidate>): seq<Job> {
    seq(|cs|, i requires 0 <= i < |cs| => cs[i].job)
  }

  /** The candidate carries its own job's earnings, hours and poster's phone. */
  ghost predicate Describes(c: Candidate, users: map<int, User>) {
    && c.job.Terms().Earnings() == Some(c.earnings as int)
    && c.duration == (match c.job.estimatedDurationHours case None => 0.0 case Some(h) => h)
    && c.posterPhone == if c.job.messageId in users then users[c.job.messageId].phoneE164 else None
  }

  /** A described candidate in the columns of its job: pay rounded half to even, hours, and the sender's phone. */
  lemma CandidatesCarryTheirJobs(c: Candidate, users: map<int, User>)
    requires Describes(c, users)
    ensures c.job.payRate.Some? && (c.job.payType.Flat? || (c.job.payType.Hourly? && c.job.estimatedDurationHours.Some?))
    ensures c.job.payType.Flat? ==> c.earnings == c.job.payRate.value
    ensures c.job.payType.Hourly? ==>
              var rest := c.job.payRate.value as real * c.job.estimatedDurationHours.value - c.earnings as real;
              -0.5 <= rest <= 0.5 && (rest == 0.5 || rest == -0.5 ==> c.earnings % 2 == 0)
    ensures c.job.estimatedDurationHours.Some? ==> c.duration == c.job.estimatedDurationHours.value
    ensures c.job.estimatedDurationHours.None? ==> c.duration == 0.0
    ensures c.job.messageId in users ==> c.posterPhone == users[c.job.messageId].phoneE164
    ensures c.job.messageId !in users ==> c.posterPhone.None?
  {
  }

  /** What the match tells the sender: its jobs are candidates, they earn the total, and whether that is enough. */
  lemma MatchAnswersTheGoal(result: MatchResult, goal: WorkGoal, candidates: seq<Candidate>, picked: Mask)
    requires IsMatch(result, goal, candidates, picked)
    ensures forall c :: c in result.jobs <==> exists i :: 0 <= i < |candidates| && picked[i] && candidates[i] == c
    ensures result.workGoal == goal && result.totalEarnings == TotalEarnings(result.jobs)
    ensures candidates != [] ==> (result.isPartial <==> TotalEarnings(result.jobs) < goal.targetEarnings)
    ensures candidates == [] ==> result.isPartial && result.jobs == []
    ensures result.isPartial ==> TotalEarnings(result.jobs) == TotalEarnings(candidates)
  {
    PickedMembers(candidates, picked);
    PickedTotals(candidates, picked);
    MatchOrder.SortResultsIsStable(Picked(candidates, picked));
    GoalMetWheneverPossible(candidates, goal.targetEarnings, picked);
  }

  lemma {:induction false} AllComputable(jobs: seq<Job>)
    requires forall job | job in jobs :: Computable(job)
    ensures ComputableRows(jobs) == jobs
  {
    if jobs != [] {
      AllComputable(jobs[1..]);
    }
  }

  lemma CandidatesAreTheRetrieved(candidates: seq<Candidate>, jobs: seq<Job>)
    requires JobsOf(candidates) == ComputableRows(jobs)
    requires DistinctIds(jobs) && forall job | job in jobs :: Computable(job)
    ensures |candidates| == |jobs| && forall i | 0 <= i < |jobs| :: candidates[i].job == jobs[i]
    ensures MatchOrder.DistinctJobs(candidates)
    ensures forall c | c in candidates :: c.job in jobs
  {
    AllComputable(jobs);
    assert |JobsOf(candidates)| == |candidates|;
    forall i | 0 <= i < |jobs|
      ensures candidates[i].job == jobs[i]
    {
      assert JobsOf(candidates)[i] == candidates[i].job;
    }
  }

  lemma SelectionTotals(candidates: seq<Candidate>, target: nat, picked: Mask)
    requires BestWithin(candidates, Capacity(candidates, target), picked)
    ensures var total := TotalEarnings(MatchOrder.SortResults(Picked(candidates, picked)));
            && total == Pay(candidates, picked)
            && (total < target <==> TotalEarnings(candidates) < target)
            && (total < target ==> total == TotalEarnings(candidates))
            && (target <= total ==> total <= target + MaxEarning(candidates))
  {
    MatchOrder.SortResultsIsStable(Picked(candidates, picked));
    PickedTotals(candidates, picked);
    GoalMetWheneverPossible(candidates, target, picked);
  }

  lemma ScannedAreDistinct(fullScan: seq<Job>, goal: WorkGoal)
    requires DistinctIds(fullScan)
    ensures DistinctIds(CandidatesForGoal(fullScan, goal.targetDeadline))
  {
    FilterKeepsDistinctIds(EligibleBy(goal.targetDeadline), fullScan);
    FilterKeepsDistinctIds(WithEarnings(), Limit(EligibleRows(fullScan, goal.targetDeadline), MAX_CANDIDATES));
  }

  lemma HitsAreDistinct(searching: bool, byIdScan: seq<Job>, goal: WorkGoal, query: string, ranking: Ranking)
    requires DistinctIds(byIdScan)
    ensures (ranking.Some? ==> Distinct(RankedIds(ranking.value))) ==>
              DistinctIds(SemanticHits(searching, query, ranking, byIdScan, goal.targetDeadline))
  {
    var jobs := SemanticHits(searching, query, ranking, byIdScan, goal.targetDeadline);
    if jobs != [] && Distinct(RankedIds(ranking.value)) {
      var ids := RankedIds(ranking.value);
      HitsAreExact(byIdScan, ids, goal.targetDeadline);
      FilterDistinct(HitIn(byIdScan, goal.targetDeadline), ids);
      assert Distinct(Ids(jobs));
      assert forall i | 0 <= i < |jobs| :: Ids(jobs)[i] == jobs[i].id;
    }
  }

  lemma {:induction false} FilterKeepsDistinctIds(p: Job -> bool, rows: seq<Job>)
    requires DistinctIds(rows)
    ensures DistinctIds(Filter(p, rows))
  {
    if rows != [] {
      var rest := Filter(p, rows[1..]);
      FilterKeepsDistinctIds(p, rows[1..]);
      FilterKeeps(p, rows[1..]);
      forall j | 0 <= j < |rest|
        ensures rest[j].id != rows[0].id
      {
        assert rest[j] in rows[1..];
      }
    }
  }

  /**
   A new goal, as in the unit of work that creates it: the match table gains one row for each
   selected job and nothing else, and matching the same selection again changes nothing.
   */
  lemma NewGoalRecordsItsSelection(matches: seq<MatchRow>, jobs: seq<Job>, goals: set<int>, goal: WorkGoal,
                                   candidates: seq<Candidate>, picked: Mask)
    requires goal.id in goals && forall row | row in matches :: row.workGoalId != goal.id
    requires forall c | c in candidates :: c.job in jobs
    requires MatchOrder.DistinctJobs(candidates) && |picked| == |candidates|
    ensures var ids := JobIds(MatchOrder.SortResults(Picked(candidates, picked)));
            && Persisted(matches, jobs, goals, ids, goal.id) == matches + Pairs(ids, goal.id)
            && (forall id :: id in ids <==> exists i :: 0 <= i < |picked| && picked[i] && candidates[i].job.id == id)
            && Persisted(matches + Pairs(ids, goal.id), jobs, goals, ids, goal.id) == matches + Pairs(ids, goal.id)
  {
    var selected := Picked(candidates, picked);
    var ids := JobIds(MatchOrder.SortResults(selected));
    PickedMembers(candidates, picked);
    PickedAreDistinct(candidates, picked);
    MatchOrder.SortResultsIsStable(selected);
    MatchOrder.SortKeepsJobsDistinct(selected);
    forall id | id in ids
      ensures Known(jobs, id) && exists i :: 0 <= i < |picked| && picked[i] && candidates[i].job.id == id
    {
      var k :| 0 <= k < |ids| && ids[k] == id;
      assert MatchOrder.SortResults(selected)[k] in selected;
    }
    forall i | 0 <= i < |picked| && picked[i]
      ensures candidates[i].job.id in ids
    {
      assert candidates[i] in MatchOrder.SortResults(selected);
      var k :| 0 <= k < |ids| && MatchOrder.SortResults(selected)[k] == candidates[i];
      assert ids[k] == candidates[i].job.id;
    }
    FreshGoalGainsItsSelection(matches, jobs, goals, ids, goal.id);
    PersistingAgainAddsNothing(matches, jobs, goals, ids, goal.id, ids);
  }

  lemma {:induction false} PickedMembers(cs: seq<Candidate>, m: Mask)
    requires |m| <= |cs|
    ensures forall c :: c in Picked(cs, m) <==> exists i :: 0 <= i < |m| && m[i] && cs[i] == c
  {
    if m != [] {
      PickedMembers(cs, m[..|m| - 1]);
    }
  }

  lemma {:induction false} PickedAreDistinct(cs: seq<Candidate>, m: Mask)
    requires |m| <= |cs| && MatchOrder.DistinctJobs(cs)
    ensures MatchOrder.DistinctJobs(Picked(cs, m))
  {
    if m != [] {
      var last := |m| - 1;
      PickedAreDistinct(cs, m[..last]);
      PickedMembers(cs, m[..last]);
      if m[last] {
        MatchOrder.PrependDistinct(cs[last], Picked(cs, m[..last]));
      }
    }
  }
}
