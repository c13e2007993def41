/**
 Candidate retrieval. `scan` is the job table in the order Postgres happens to produce its rows:
 neither query has an ORDER BY, so nothing here may rely on that order.
 */
module JobRepository {
  import opened Wrappers
  import opened Sequences
  import opened Jobs

  const MAX_CANDIDATES: nat := 500

  predicate Eligible(job: Job, deadline: Option<int>) {
    && job.status.Available?
    && !job.payType.UnknownPay?
    && (deadline.None?
        || job.idealDatetime.None?
        || job.datetimeFlexible == Some(true)
        || job.idealDatetime.value <= deadline.value)
  }

  predicate Computable(job: Job) {
    job.Terms().IncomputableReason().None?
  }

  function EligibleBy(deadline: Option<int>): Job -> bool {
    job => Eligible(job, deadline)
  }

  function EligibleAmong(ids: seq<int>, deadline: Option<int>): Job -> bool {
    job => Eligible(job, deadline) && job.id in ids
  }

  function WithEarnings(): Job -> bool {
    job => Computable(job)
  }

  function EligibleRows(scan: seq<Job>, deadline: Option<int>): seq<Job> {
    Filter(EligibleBy(deadline), scan)
  }

  function ComputableRows(rows: seq<Job>): seq<Job> {
    Filter(WithEarnings(), rows)
  }

  /** The primary key of the job table. */
  ghost predicate DistinctIds(rows: seq<Job>) {
    forall i, j | 0 <= i < j < |rows| :: rows[i].id != rows[j].id
  }

  /** Two scans of one table: the same rows, in whatever order. */
  ghost predicate SameRows(a: seq<Job>, b: seq<Job>) {
    DistinctIds(a) && DistinctIds(b) && forall job :: job in a <==> job in b
  }

  method ComputableOnly(rawJobs: seq<Job>) returns (candidates: seq<Job>)
    ensures candidates == ComputableRows(rawJobs)
  {
    candidates := [];
    for i := 0 to |rawJobs|
      invariant candidates == ComputableRows(rawJobs[..i])
    {
      assert rawJobs[..i + 1] == rawJobs[..i] + [rawJobs[i]];
      ComputableAppend(rawJobs[..i], rawJobs[i]);
      if rawJobs[i].Terms().IncomputableReason().Some? {
        continue;
      }
      candidates := candidates + [rawJobs[i]];
    }
    assert rawJobs[..|rawJobs|] == rawJobs;
  }

  lemma ComputableAppend(rows: seq<Job>, job: Job)
    ensures ComputableRows(rows + [job]) == ComputableRows(rows) + if Computable(job) then [job] else []
  {
    FilterAppend(WithEarnings(), rows, [job]);
  }

  function Limit(rows: seq<Job>, limit: nat): seq<Job> {
    if |rows| <= limit then rows else rows[..limit]
  }

  function CandidatesForGoal(scan: seq<Job>, deadline: Option<int>): seq<Job> {
    ComputableRows(Limit(EligibleRows(scan, deadline), MAX_CANDIDATES))
  }

  method FindCandidatesForGoal(scan: seq<Job>, deadline: Option<int>) returns (jobs: seq<Job>)
    ensures jobs == CandidatesForGoal(scan, deadline)
    ensures forall job | job in jobs :: job in scan && Eligible(job, deadline) && Computable(job)
    ensures forall job | job in jobs ::
              && job.status.Available? && job.payRate.Some?
              && (job.payType.Flat? || (job.payType.Hourly? && job.estimatedDurationHours.Some?))
              && (deadline.Some? && job.idealDatetime.Some? && job.datetimeFlexible != Some(true) ==>
                    job.idealDatetime.value <= deadline.value)
  {
    jobs := ComputableOnly(Limit(EligibleRows(scan, deadline), MAX_CANDIDATES));
    ScanIsFiltered(scan, deadline);
  }

  lemma ScanIsFiltered(scan: seq<Job>, deadline: Option<int>)
    ensures forall job | job in CandidatesForGoal(scan, deadline) ::
              job in scan && Eligible(job, deadline) && Computable(job)
  {
    var rows := EligibleRows(scan, deadline);
    FilterKeeps(EligibleBy(deadline), scan);
    FilterKeeps(WithEarnings(), Limit(rows, MAX_CANDIDATES));
  }

  /** A dictionary by id: of two rows with one id the later would win. */
  function ById(rows: seq<Job>): map<int, Job> {
    if rows == [] then map[]
    else
      var last := |rows| - 1;
      ById(rows[..last])[rows[last].id := rows[last]]
  }

  function InCallersOrder(ids: seq<int>, byId: map<int, Job>): seq<Job> {
    if ids == [] then []
    else if ids[0] in byId then [byId[ids[0]]] + InCallersOrder(ids[1..], byId)
    else InCallersOrder(ids[1..], byId)
  }

  function HitMap(scan: seq<Job>, ids: seq<int>, deadline: Option<int>): map<int, Job> {
    ById(ComputableRows(Filter(EligibleAmong(ids, deadline), scan)))
  }

  function CandidatesByIds(scan: seq<Job>, ids: seq<int>, deadline: Option<int>): seq<Job> {
    InCallersOrder(ids, HitMap(scan, ids, deadline))
  }

  method FindCandidatesByIds(scan: seq<Job>, ids: seq<int>, deadline: Option<int>) returns (jobs: seq<Job>)
    ensures jobs == CandidatesByIds(scan, ids, deadline)
    ensures forall job | job in jobs :: job in scan && job.id in ids && Eligible(job, deadline) && Computable(job)
    ensures forall job | job in jobs ::
              && job.status.Available? && job.payRate.Some?
              && (job.payType.Flat? || (job.payType.Hourly? && job.estimatedDurationHours.Some?))
              && (deadline.Some? && job.idealDatetime.Some? && job.datetimeFlexible != Some(true) ==>
                    job.idealDatetime.value <= deadline.value)
  {
    HitsAreExact(scan, ids, deadline);
    if ids == [] {
      return [];
    }
    var candidates := ComputableOnly(Filter(EligibleAmong(ids, deadline), scan));
    jobs := InCallersOrder(ids, ById(candidates));
  }

  /** The id is that of an eligible job with computable earnings. */
  ghost predicate Hit(scan: seq<Job>, id: int, deadline: Option<int>) {
    exists job :: job in scan && job.id == id && Eligible(job, deadline) && Computable(job)
  }

  ghost function HitIn(scan: seq<Job>, deadline: Option<int>): int -> bool {
    id => Hit(scan, id, deadline)
  }

  ghost function Ids(jobs: seq<Job>): seq<int> {
    seq(|jobs|, i requires 0 <= i < |jobs| => jobs[i].id)
  }

  lemma {:induction false} ByIdFinds(rows: seq<Job>)
    ensures forall id :: id in ById(rows) <==> exists job :: job in rows && job.id == id
    ensures forall id | id in ById(rows) :: ById(rows)[id] in rows && ById(rows)[id].id == id
  {
    if rows != [] {
      var last := |rows| - 1;
      ByIdFinds(rows[..last]);
      assert rows == rows[..last] + [rows[last]];
    }
  }

  lemma {:induction false} InOrder(ids: seq<int>, byId: map<int, Job>, hit: int -> bool)
    requires forall id | id in byId :: byId[id].id == id
    requires forall i | 0 <= i < |ids| :: hit(ids[i]) <==> ids[i] in byId
    ensures Ids(InCallersOrder(ids, byId)) == Filter(hit, ids)
    ensures forall job | job in InCallersOrder(ids, byId) :: job.id in ids && job.id in byId && byId[job.id] == job
  {
    if ids != [] {
      InOrder(ids[1..], byId, hit);
      if ids[0] in byId {
        var rest := InCallersOrder(ids[1..], byId);
        assert Ids([byId[ids[0]]] + rest) == [ids[0]] + Ids(rest);
      }
    }
  }

  /** The dictionary holds the hits among the ids, each under its own id. */
  lemma HitMapIsExact(scan: seq<Job>, ids: seq<int>, deadline: Option<int>)
    ensures forall id :: id in HitMap(scan, ids, deadline) <==> id in ids && Hit(scan, id, deadline)
    ensures forall id | id in HitMap(scan, ids, deadline) ::
              var job := HitMap(scan, ids, deadline)[id];
              job in scan && job.id == id && Eligible(job, deadline) && Computable(job)
  {
    var rows := Filter(EligibleAmong(ids, deadline), scan);
    FilterKeeps(EligibleAmong(ids, deadline), scan);
    FilterKeeps(WithEarnings(), rows);
    ByIdFinds(ComputableRows(rows));
  }

  /**
   The semantic path returns exactly the eligible computable jobs among the ids, in the caller's
   order.
   */
  lemma HitsAreExact(scan: seq<Job>, ids: seq<int>, deadline: Option<int>)
    ensures Ids(CandidatesByIds(scan, ids, deadline)) == Filter(HitIn(scan, deadline), ids)
    ensures forall job | job in CandidatesByIds(scan, ids, deadline) ::
              job in scan && job.id in ids && Eligible(job, deadline) && Computable(job)
  {
    HitMapIsExact(scan, ids, deadline);
    InOrder(ids, HitMap(scan, ids, deadline), HitIn(scan, deadline));
  }

  /** One id names one row, so the answer does not depend on the order of the scan. */
  lemma ScanOrderIsIrrelevant(a: seq<Job>, b: seq<Job>, ids: seq<int>, deadline: Option<int>)
    requires SameRows(a, b)
    ensures CandidatesByIds(a, ids, deadline) == CandidatesByIds(b, ids, deadline)
  {
    HitMapIsExact(a, ids, deadline);
    HitMapIsExact(b, ids, deadline);
    var ma, mb := HitMap(a, ids, deadline), HitMap(b, ids, deadline);
    forall id
      ensures id in ma <==> id in mb
    {
      assert Hit(a, id, deadline) <==> Hit(b, id, deadline);
    }
    forall id | id in ma && id in mb
      ensures ma[id] == mb[id]
    {
      OneRowPerId(a, ma[id], mb[id]);
    }
    assert ma == mb;
  }

  lemma OneRowPerId(rows: seq<Job>, x: Job, y: Job)
    requires DistinctIds(rows) && x in rows && y in rows && x.id == y.id
    ensures x == y
  {
    var i :| 0 <= i < |rows| && rows[i] == x;
    var j :| 0 <= j < |rows| && rows[j] == y;
  }

  ghost predicate ScanHoldsEveryHit(table: seq<Job>, deadline: Option<int>) {
    forall scan: seq<Job>, ids: seq<int>, job: Job |
      SameRows(scan, table) && job in CandidatesByIds(scan, ids, deadline) ::
      job in CandidatesForGoal(scan, deadline)
  }

  /**
   The full scan is a superset of the semantic hits, for every order of the rows and all ids,
   exactly when at most 500 rows are eligible or no eligible job is computable.
   */
  lemma FullScanIsSupersetExactlyWhenItFits(table: seq<Job>, deadline: Option<int>)
    requires DistinctIds(table)
    ensures ScanHoldsEveryHit(table, deadline) <==>
              || |EligibleRows(table, deadline)| <= 500
              || ComputableRows(EligibleRows(table, deadline)) == []
  {
    var eligible := EligibleRows(table, deadline);
    if |eligible| <= MAX_CANDIDATES || ComputableRows(eligible) == [] {
      forall scan: seq<Job>, ids: seq<int>, job: Job |
        SameRows(scan, table) && job in CandidatesByIds(scan, ids, deadline)
        ensures job in CandidatesForGoal(scan, deadline)
      {
        HitIsScanned(table, scan, ids, job, deadline);
      }
    } else {
      FilterKeeps(EligibleBy(deadline), table);
      FilterKeeps(WithEarnings(), eligible);
      HitCanBeCutOff(table, ComputableRows(eligible)[0], deadline);
    }
  }

  lemma HitIsScanned(table: seq<Job>, scan: seq<Job>, ids: seq<int>, job: Job, deadline: Option<int>)
    requires SameRows(scan, table)
    requires job in CandidatesByIds(scan, ids, deadline)
    requires |EligibleRows(table, deadline)| <= MAX_CANDIDATES || ComputableRows(EligibleRows(table, deadline)) == []
    ensures job in CandidatesForGoal(scan, deadline)
  {
    HitsAreExact(scan, ids, deadline);
    FilterKeeps(EligibleBy(deadline), scan);
    FilterKeeps(EligibleBy(deadline), table);
    EligibleReordered(scan, table, deadline);
    FilterKeeps(WithEarnings(), EligibleRows(table, deadline));
    FilterKeeps(WithEarnings(), EligibleRows(scan, deadline));
  }

  /** With one eligible row too many, some order of the rows leaves a given hit out of the scan. */
  lemma HitCanBeCutOff(table: seq<Job>, job: Job, deadline: Option<int>)
    requires DistinctIds(table) && MAX_CANDIDATES < |EligibleRows(table, deadline)|
    requires job in table && Eligible(job, deadline) && Computable(job)
    ensures !ScanHoldsEveryHit(table, deadline)
  {
    var rest := WithoutJob(table, job);
    var scan := rest + [job];
    EligibleReordered(scan, table, deadline);
    LastIsCutOff(rest, job, deadline);
    HitIsFoundAmong(scan, [job.id], job, deadline);
  }

  lemma WithoutJob(table: seq<Job>, job: Job) returns (rest: seq<Job>)
    requires DistinctIds(table) && job in table
    ensures SameRows(rest + [job], table)
    ensures job !in rest
  {
    var i :| 0 <= i < |table| && table[i] == job;
    rest := table[..i] + table[i + 1..];
    assert table == table[..i] + [job] + table[i + 1..];
    assert forall x :: x in table <==> x in rest + [job];
  }

  lemma HitIsFoundAmong(scan: seq<Job>, ids: seq<int>, job: Job, deadline: Option<int>)
    requires DistinctIds(scan) && job in scan && Eligible(job, deadline) && Computable(job) && job.id in ids
    ensures job in CandidatesByIds(scan, ids, deadline)
  {
    var hits, found := HitMap(scan, ids, deadline), CandidatesByIds(scan, ids, deadline);
    HitsAreExact(scan, ids, deadline);
    FilterKeeps(HitIn(scan, deadline), ids);
    assert Hit(scan, job.id, deadline);
    assert job.id in Ids(found);
    var k :| 0 <= k < |found| && Ids(found)[k] == job.id;
    assert found[k] in found;
    OneRowPerId(scan, found[k], job);
  }

  lemma LastIsCutOff(rest: seq<Job>, job: Job, deadline: Option<int>)
    requires MAX_CANDIDATES < |EligibleRows(rest + [job], deadline)| && job !in rest
    ensures job !in CandidatesForGoal(rest + [job], deadline)
  {
    EligibleAppend(rest, job, deadline);
    FilterKeeps(EligibleBy(deadline), rest);
    var kept := Limit(EligibleRows(rest + [job], deadline), MAX_CANDIDATES);
    assert forall x | x in kept :: x in EligibleRows(rest, deadline);
    FilterKeeps(WithEarnings(), kept);
  }

  lemma EligibleReordered(a: seq<Job>, b: seq<Job>, deadline: Option<int>)
    requires SameRows(a, b)
    ensures |EligibleRows(a, deadline)| == |EligibleRows(b, deadline)|
  {
    FilterReordered(EligibleBy(deadline), a, b);
  }

  lemma EligibleAppend(rows: seq<Job>, job: Job, deadline: Option<int>)
    ensures EligibleRows(rows + [job], deadline) ==
            EligibleRows(rows, deadline) + if Eligible(job, deadline) then [job] else []
  {
    FilterAppend(EligibleBy(deadline), rows, [job]);
  }

  // ---------- what makes a job a candidate, in its own columns ----------

  /**
   Nothing that qualifies is missed: a row that is available, whose pay can be computed and that is
   undated, flexible or dated no later than the deadline, is found by its id, and found by the scan
   when no more than 500 rows are eligible.
   */
  lemma QualifyingJobsAreRetrieved(scan: seq<Job>, ids: seq<int>, deadline: Option<int>, job: Job)
    requires DistinctIds(scan) && job in scan && job.status.Available? && job.payRate.Some?
    requires job.payType.Flat? || (job.payType.Hourly? && job.estimatedDurationHours.Some?)
    requires deadline.None? || job.idealDatetime.None? || job.datetimeFlexible == Some(true)
             || job.idealDatetime.value <= deadline.value
    ensures |EligibleRows(scan, deadline)| <= 500 ==> job in CandidatesForGoal(scan, deadline)
    ensures job.id in ids ==> job in CandidatesByIds(scan, ids, deadline)
  {
    FilterKeeps(EligibleBy(deadline), scan);
    FilterKeeps(WithEarnings(), EligibleRows(scan, deadline));
    if job.id in ids {
      HitIsFoundAmong(scan, ids, job, deadline);
    }
  }

  /** A row eligible for one deadline is eligible for every later one, and for a goal without a deadline. */
  lemma LaterDeadlineLosesNoRow(scan: seq<Job>, deadline: int, later: Option<int>, job: Job)
    requires job in EligibleRows(scan, Some(deadline)) && (later.Some? ==> deadline <= later.value)
    ensures job in EligibleRows(scan, later)
  {
    FilterKeeps(EligibleBy(Some(deadline)), scan);
    FilterKeeps(EligibleBy(later), scan);
  }

  /** Without a deadline every available row of known pay is eligible, and no other. */
  lemma NoDeadlineAdmitsAll(scan: seq<Job>, job: Job)
    ensures job in EligibleRows(scan, None) <==> job in scan && job.status.Available? && !job.payType.UnknownPay?
  {
    FilterKeeps(EligibleBy(None), scan);
  }

  /** The scan's answer keeps the order of the scan, which breaks ties in the selection. */
  lemma {:induction false} ScanKeepsItsOrder(scan: seq<Job>, deadline: Option<int>)
    requires |EligibleRows(scan, deadline)| <= 500
    ensures CandidatesForGoal(scan, deadline) == Filter(EligibleAndComputable(deadline), scan)
  {
    FilterTwice(EligibleBy(deadline), WithEarnings(), scan, EligibleAndComputable(deadline));
  }

  function EligibleAndComputable(deadline: Option<int>): Job -> bool {
    job => Eligible(job, deadline) && Computable(job)
  }

  lemma {:induction false} FilterTwice(p: Job -> bool, q: Job -> bool, rows: seq<Job>, both: Job -> bool)
    requires forall job :: both(job) <==> p(job) && q(job)
    ensures Filter(q, Filter(p, rows)) == Filter(both, rows)
  {
    if rows != [] {
      FilterTwice(p, q, rows[1..], both);
    }
  }
}
