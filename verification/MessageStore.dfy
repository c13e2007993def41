/** The rows one message's processing writes, and what keeps them consistent. */
module MessageStore {
  import opened Wrappers
  import opened Audit
  import MatchRepository

  datatype MessageType = JobPosting | WorkGoal | UnknownMessage

  /** A job or work-goal row: its primary key and the message it came from (UNIQUE). */
  datatype Row = Row(id: int, messageId: int)

  datatype AuditRow = AuditRow(messageId: int, event: AuditEvent)

  /** Committed rows; `messages` holds each message's recorded classification, `outbox` the pending jobs. */
  datatype Db = Db(
    messages: map<int, Option<MessageType>>,
    jobs: seq<Row>,
    goals: seq<Row>,
    matches: set<MatchRepository.MatchRow>,
    audits: seq<AuditRow>,
    outbox: seq<int>)

  /** What a unit of work has staged for one message. */
  datatype Staged = Staged(
    audits: seq<AuditRow>,
    jobs: seq<Row>,
    goals: seq<Row>,
    matches: set<MatchRepository.MatchRow>,
    classified: Option<(int, MessageType)>,
    outbox: seq<int>)

  const NOTHING := Staged([], [], [], {}, None, [])

  function Committed(db: Db, s: Staged): Db {
    Db(if s.classified.Some? && s.classified.value.0 in db.messages
       then db.messages[s.classified.value.0 := Some(s.classified.value.1)] else db.messages,
       db.jobs + s.jobs, db.goals + s.goals, db.matches + s.matches, db.audits + s.audits, db.outbox + s.outbox)
  }

  predicate HasMessage(rows: seq<Row>, messageId: int) {
    exists row | row in rows :: row.messageId == messageId
  }

  predicate HasId(rows: seq<Row>, id: int) {
    exists row | row in rows :: row.id == id
  }

  /** The rows that JOB_CREATED audit rows speak of, in order. */
  function JobAudits(audits: seq<AuditRow>): seq<Row> {
    if audits == [] then []
    else
      var before, last := JobAudits(audits[..|audits| - 1]), audits[|audits| - 1];
      if last.event.JobCreated? then before + [Row(last.event.jobId, last.messageId)] else before
  }

  function GoalAudits(audits: seq<AuditRow>): seq<Row> {
    if audits == [] then []
    else
      var before, last := GoalAudits(audits[..|audits| - 1]), audits[|audits| - 1];
      if last.event.WorkGoalCreated? then before + [Row(last.event.workGoalId, last.messageId)] else before
  }

  function Classifications(audits: seq<AuditRow>, messageId: int): nat {
    if audits == [] then 0
    else
      var last := audits[|audits| - 1];
      Classifications(audits[..|audits| - 1], messageId)
      + if last == AuditRow(messageId, GptClassified) then 1 else 0
  }

  /** One row per message and one message per row, and ids below the next one to be assigned. */
  ghost predicate Keyed(rows: seq<Row>, nextId: nat) {
    && (forall i, j | 0 <= i < j < |rows| :: rows[i].messageId != rows[j].messageId && rows[i].id != rows[j].id)
    && (forall i | 0 <= i < |rows| :: rows[i].id < nextId)
  }

  ghost predicate AllClassified(db: Db, rows: seq<Row>) {
    forall i | 0 <= i < |rows| :: rows[i].messageId in db.messages && db.messages[rows[i].messageId].Some?
  }

  /**
   What every commit keeps: at most one job and one work goal per message, creation audits in
   bijection with the rows they announce (the same rows in the same order), every row's message
   classified, and matches between existing rows.
   */
  ghost predicate Consistent(db: Db, nextId: nat) {
    && Keyed(db.jobs, nextId) && Keyed(db.goals, nextId)
    && JobAudits(db.audits) == db.jobs && GoalAudits(db.audits) == db.goals
    && AllClassified(db, db.jobs) && AllClassified(db, db.goals)
    && (forall m | m in db.matches :: HasId(db.jobs, m.jobId) && HasId(db.goals, m.workGoalId))
    && (forall id | id in db.outbox :: HasId(db.jobs, id))
  }

  /** What a handler stages for a message, with its row id and, for a work goal, the jobs matched. */
  function StagedFor(kind: MessageType, messageId: int, rowId: int, matched: set<int>): Staged {
    var gpt := AuditRow(messageId, GptClassified);
    var classified := Some((messageId, kind));
    match kind
    case JobPosting =>
      Staged([gpt, AuditRow(messageId, JobCreated(rowId))], [Row(rowId, messageId)], [], {}, classified, [])
    case WorkGoal =>
      Staged([gpt, AuditRow(messageId, WorkGoalCreated(rowId))], [], [Row(rowId, messageId)],
             set id | id in matched :: MatchRepository.MatchRow(id, rowId), classified, [])
    case UnknownMessage => Staged([gpt], [], [], {}, classified, [])
  }

  /** The UNIQUE(message_id) constraint the handler's insert would violate. */
  predicate Duplicates(db: Db, kind: MessageType, messageId: int) {
    match kind
    case JobPosting => HasMessage(db.jobs, messageId)
    case WorkGoal => HasMessage(db.goals, messageId)
    case UnknownMessage => false
  }

  lemma AuditsAppend(audits: seq<AuditRow>, row: AuditRow, messageId: int)
    ensures JobAudits(audits + [row]) ==
            if row.event.JobCreated? then JobAudits(audits) + [Row(row.event.jobId, row.messageId)] else JobAudits(audits)
    ensures GoalAudits(audits + [row]) ==
            if row.event.WorkGoalCreated? then GoalAudits(audits) + [Row(row.event.workGoalId, row.messageId)]
            else GoalAudits(audits)
    ensures Classifications(audits + [row], messageId) ==
            Classifications(audits, messageId) + if row == AuditRow(messageId, GptClassified) then 1 else 0
  {
    assert (audits + [row])[..|audits|] == audits;
  }

  lemma StagedAudits(audits: seq<AuditRow>, kind: MessageType, messageId: int, rowId: int, matched: set<int>, other: int)
    ensures var s := StagedFor(kind, messageId, rowId, matched);
            && JobAudits(audits + s.audits) == JobAudits(audits) + s.jobs
            && GoalAudits(audits + s.audits) == GoalAudits(audits) + s.goals
            && Classifications(audits + s.audits, other) ==
               Classifications(audits, other) + if other == messageId then 1 else 0
  {
    var s := StagedFor(kind, messageId, rowId, matched);
    var first := audits + [s.audits[0]];
    AuditsAppend(audits, s.audits[0], other);
    if |s.audits| == 2 {
      AuditsAppend(first, s.audits[1], other);
      assert audits + s.audits == first + [s.audits[1]];
    }
  }

  lemma KeyedAppend(rows: seq<Row>, row: Row, nextId: nat)
    requires Keyed(rows, nextId) && !HasMessage(rows, row.messageId) && !HasId(rows, row.id) && row.id < nextId
    ensures Keyed(rows + [row], nextId)
  {
    forall i | 0 <= i < |rows|
      ensures rows[i].messageId != row.messageId && rows[i].id != row.id
    {
      assert rows[i] in rows;
    }
  }

  lemma ClassifiedAppend(db: Db, rows: seq<Row>, more: seq<Row>, messageId: int, kind: MessageType)
    requires AllClassified(db, rows) && messageId in db.messages
    requires forall i | 0 <= i < |more| :: more[i].messageId == messageId
    ensures AllClassified(db.(messages := db.messages[messageId := Some(kind)]), rows + more)
  {
  }

  lemma CommitKeepsKeys(db: Db, nextId: nat, kind: MessageType, messageId: int, rowId: int, matched: set<int>)
    requires Keyed(db.jobs, nextId) && Keyed(db.goals, nextId) && !Duplicates(db, kind, messageId)
    requires rowId < nextId && !HasId(db.jobs, rowId) && !HasId(db.goals, rowId)
    ensures var db' := Committed(db, StagedFor(kind, messageId, rowId, matched));
            Keyed(db'.jobs, nextId) && Keyed(db'.goals, nextId)
  {
    match kind
    case JobPosting =>
      KeyedAppend(db.jobs, Row(rowId, messageId), nextId);
      assert db.goals + [] == db.goals;
    case WorkGoal =>
      KeyedAppend(db.goals, Row(rowId, messageId), nextId);
      assert db.jobs + [] == db.jobs;
    case UnknownMessage =>
      assert db.jobs + [] == db.jobs && db.goals + [] == db.goals;
  }

  lemma CommitKeepsReferences(db: Db, kind: MessageType, messageId: int, rowId: int, matched: set<int>)
    requires forall m | m in db.matches :: HasId(db.jobs, m.jobId) && HasId(db.goals, m.workGoalId)
    requires forall id | id in db.outbox :: HasId(db.jobs, id)
    requires forall id | id in matched :: HasId(db.jobs, id)
    ensures var db' := Committed(db, StagedFor(kind, messageId, rowId, matched));
            && (forall m | m in db'.matches :: HasId(db'.jobs, m.jobId) && HasId(db'.goals, m.workGoalId))
            && (forall id | id in db'.outbox :: HasId(db'.jobs, id))
  {
    var s := StagedFor(kind, messageId, rowId, matched);
    RowsKeepTheirIds(db, s);
    if kind.WorkGoal? {
      assert s.goals[0] in Committed(db, s).goals;
    }
  }

  /** Committing what a handler staged keeps the store consistent. */
  lemma CommitKeepsConsistent(db: Db, nextId: nat, kind: MessageType, messageId: int, rowId: int, matched: set<int>)
    requires Consistent(db, nextId) && messageId in db.messages && !Duplicates(db, kind, messageId)
    requires rowId < nextId && !HasId(db.jobs, rowId) && !HasId(db.goals, rowId)
    requires forall id | id in matched :: HasId(db.jobs, id)
    ensures Consistent(Committed(db, StagedFor(kind, messageId, rowId, matched)), nextId)
  {
    var s := StagedFor(kind, messageId, rowId, matched);
    StagedAudits(db.audits, kind, messageId, rowId, matched, messageId);
    CommitKeepsKeys(db, nextId, kind, messageId, rowId, matched);
    CommitKeepsReferences(db, kind, messageId, rowId, matched);
    ClassifiedAppend(db, db.jobs, s.jobs, messageId, kind);
    ClassifiedAppend(db, db.goals, s.goals, messageId, kind);
  }

  lemma RowsKeepTheirIds(db: Db, s: Staged)
    ensures forall id | HasId(db.jobs, id) :: HasId(Committed(db, s).jobs, id)
    ensures forall id | HasId(db.goals, id) :: HasId(Committed(db, s).goals, id)
  {
    forall id | HasId(db.jobs, id)
      ensures HasId(Committed(db, s).jobs, id)
    {
      var row :| row in db.jobs && row.id == id;
      assert row in Committed(db, s).jobs;
    }
    forall id | HasId(db.goals, id)
      ensures HasId(Committed(db, s).goals, id)
    {
      var row :| row in db.goals && row.id == id;
      assert row in Committed(db, s).goals;
    }
  }

  lemma MoreIdsKeepConsistent(db: Db, nextId: nat, later: nat)
    requires Consistent(db, nextId) && nextId <= later
    ensures Consistent(db, later)
  {
  }

  /** Queueing a job that exists keeps the store consistent. */
  lemma QueueKeepsConsistent(db: Db, nextId: nat, jobId: int)
    requires Consistent(db, nextId) && HasId(db.jobs, jobId)
    ensures Consistent(db.(outbox := db.outbox + [jobId]), nextId)
  {
  }

  /** The constraints read out: two jobs of one message are one job, and so for work goals. */
  lemma OneRowPerMessage(db: Db, nextId: nat, a: Row, b: Row)
    requires Consistent(db, nextId) && a.messageId == b.messageId
    ensures a in db.jobs && b in db.jobs ==> a == b
    ensures a in db.goals && b in db.goals ==> a == b
  {
  }
}
