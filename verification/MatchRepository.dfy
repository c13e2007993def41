/** The match table: one savepoint per inserted row, duplicates rolled back and skipped. */
module MatchRepository {
  import opened Sequences
  import opened Jobs

  datatype MatchRow = MatchRow(jobId: int, workGoalId: int)

  /** The unit of work a match is staged in: the rows it may refer to and the match rows so far. */
  class MatchTables {
    var jobs: seq<Job>
    var workGoalIds: set<int>
    var matches: seq<MatchRow>

    constructor (jobs: seq<Job>, workGoalIds: set<int>, matches: seq<MatchRow>)
      ensures this.jobs == jobs && this.workGoalIds == workGoalIds && this.matches == matches
    {
      this.jobs := jobs;
      this.workGoalIds := workGoalIds;
      this.matches := matches;
    }

    /** Add and flush one row; a foreign-key or uniqueness violation is the IntegrityError. */
    method Insert(row: MatchRow) returns (integrityError: bool)
      modifies this`matches
      ensures matches == old(matches) + [row]
      ensures integrityError <==> !Admissible(old(matches), jobs, workGoalIds, row)
      ensures integrityError <==>
                || row in old(matches) || row.workGoalId !in workGoalIds
                || forall job | job in jobs :: job.id != row.jobId
    {
      integrityError := !Admissible(matches, jobs, workGoalIds, row);
      matches := matches + [row];
    }
  }

  predicate Known(jobs: seq<Job>, id: int) {
    exists job | job in jobs :: job.id == id
  }

  predicate Admissible(matches: seq<MatchRow>, jobs: seq<Job>, workGoalIds: set<int>, row: MatchRow) {
    row !in matches && row.workGoalId in workGoalIds && Known(jobs, row.jobId)
  }

  function AfterInsert(matches: seq<MatchRow>, jobs: seq<Job>, goals: set<int>, row: MatchRow): seq<MatchRow> {
    if Admissible(matches, jobs, goals, row) then matches + [row] else matches
  }

  /** The match table once the ids have been persisted in order. */
  function Persisted(matches: seq<MatchRow>, jobs: seq<Job>, goals: set<int>, ids: seq<int>, goal: int)
    : seq<MatchRow>
  {
    if ids == [] then matches
    else
      var last := |ids| - 1;
      AfterInsert(Persisted(matches, jobs, goals, ids[..last], goal), jobs, goals, MatchRow(ids[last], goal))
  }

  method PersistMatches(session: MatchTables, jobIds: seq<int>, workGoalId: int)
    modifies session`matches
    ensures session.matches == Persisted(old(session.matches), session.jobs, session.workGoalIds, jobIds, workGoalId)
  {
    for i := 0 to |jobIds|
      invariant session.matches ==
                Persisted(old(session.matches), session.jobs, session.workGoalIds, jobIds[..i], workGoalId)
    {
      assert jobIds[..i + 1][..i] == jobIds[..i];
      var savepoint := session.matches;
      var integrityError := session.Insert(MatchRow(jobIds[i], workGoalId));
      if integrityError {
        session.matches := savepoint;
      }
    }
    assert jobIds[..|jobIds|] == jobIds;
  }

  /**
   Everything already staged survives in place, the UNIQUE constraint is kept, and the rows are
   exactly the old ones and the admissible new pairs.
   */
  lemma {:induction false} PersistedIsExact(matches: seq<MatchRow>, jobs: seq<Job>, goals: set<int>, ids: seq<int>,
                                            goal: int)
    ensures matches <= Persisted(matches, jobs, goals, ids, goal)
    ensures Distinct(matches) ==> Distinct(Persisted(matches, jobs, goals, ids, goal))
    ensures forall row :: row in Persisted(matches, jobs, goals, ids, goal) <==>
                          || row in matches
                          || (row.workGoalId == goal && goal in goals && row.jobId in ids
                              && exists job | job in jobs :: job.id == row.jobId)
  {
    if ids != [] {
      var last := |ids| - 1;
      PersistedIsExact(matches, jobs, goals, ids[..last], goal);
      assert ids == ids[..last] + [ids[last]];
    }
  }

  /** Persisting the same selection again, or any part of it, changes nothing. */
  lemma {:induction false} PersistingAgainAddsNothing(matches: seq<MatchRow>, jobs: seq<Job>, goals: set<int>,
                                                      ids: seq<int>, goal: int, again: seq<int>)
    requires forall id | id in again :: id in ids
    ensures var once := Persisted(matches, jobs, goals, ids, goal);
            Persisted(once, jobs, goals, again, goal) == once
  {
    if again != [] {
      var last := |again| - 1;
      assert again == again[..last] + [again[last]];
      PersistingAgainAddsNothing(matches, jobs, goals, ids, goal, again[..last]);
      PersistedIsExact(matches, jobs, goals, ids, goal);
      assert again[last] in again;
    }
  }

  ghost function Pairs(ids: seq<int>, goal: int): seq<MatchRow> {
    seq(|ids|, i requires 0 <= i < |ids| => MatchRow(ids[i], goal))
  }

  /** For a goal without matches and distinct known jobs, one row per job is appended, in order. */
  lemma {:induction false} FreshGoalGainsItsSelection(matches: seq<MatchRow>, jobs: seq<Job>, goals: set<int>,
                                                      ids: seq<int>, goal: int)
    requires goal in goals && Distinct(ids)
    requires forall id | id in ids :: Known(jobs, id)
    requires forall row | row in matches :: row.workGoalId != goal
    ensures Persisted(matches, jobs, goals, ids, goal) == matches + Pairs(ids, goal)
  {
    if ids == [] {
      assert Pairs(ids, goal) == [];
    } else {
      var last := |ids| - 1;
      assert ids == ids[..last] + [ids[last]];
      FreshGoalGainsItsSelection(matches, jobs, goals, ids[..last], goal);
      assert Pairs(ids, goal) == Pairs(ids[..last], goal) + [MatchRow(ids[last], goal)];
      assert MatchRow(ids[last], goal) !in matches + Pairs(ids[..last], goal);
      assert Known(jobs, ids[last]);
    }
  }
}
