/** The retried workflow around one message: up to four attempts, then the failure activity. */
module Workflow {
  import opened MessageStore
  import opened Pipeline

  /** What one attempt, or several, may do to the store on behalf of a message. */
  ghost predicate GrowsFor(messageId: int, db: Db, db': Db, attempts: nat) {
    && db.jobs <= db'.jobs && db.goals <= db'.goals && db.audits <= db'.audits && db.messages.Keys == db'.messages.Keys
    && (forall i | |db.jobs| <= i < |db'.jobs| :: db'.jobs[i].messageId == messageId)
    && (forall i | |db.goals| <= i < |db'.goals| :: db'.goals[i].messageId == messageId)
    && (forall m | m in db.messages && m != messageId :: db'.messages[m] == db.messages[m])
    && (forall m :: Classifications(db'.audits, m) <= Classifications(db.audits, m) + if m == messageId then attempts else 0)
  }

  lemma GrowsTwice(messageId: int, a: Db, b: Db, c: Db, n: nat, k: nat)
    requires GrowsFor(messageId, a, b, n) && GrowsFor(messageId, b, c, k)
    ensures GrowsFor(messageId, a, c, n + k)
  {
  }

  lemma AttemptGrows(handlers: seq<Handler>, messageId: int, rowId: nat, script: Script,
                     e: Effects, e': Effects, r: RunResult)
    requires Attempted(handlers, messageId, rowId, script, e, e', r) && messageId in e.db.messages
    ensures GrowsFor(messageId, e.db, e'.db, 1)
    ensures r == Completed ==> e'.db.messages[messageId].Some?
  {
    if script.classification.Some? {
      var i: nat :| AttemptedVia(handlers, i, messageId, rowId, script, e, e', r);
      var kind := handlers[i].Kind();
      CommitGrows(e.db, kind, messageId, rowId, script.Matched(e.db));
      var actions := ActionsFor(kind, messageId, rowId);
      EffectsOnlyGrow(e.(db := Committed(e.db, StagedFor(kind, messageId, rowId, script.Matched(e.db)))), actions,
                      script.outcomes, Lived(script, |actions|));
    }
  }

  /** What the attempt leaves the message holding follows from what it held and the script. */
  lemma AttemptHolds(handlers: seq<Handler>, messageId: int, rowId: nat, script: Script,
                     e: Effects, e': Effects, r: RunResult)
    requires Attempted(handlers, messageId, rowId, script, e, e', r) && messageId in e.db.messages
    ensures Held(e'.db, messageId) == HeldAfter(handlers, script, Held(e.db, messageId))
  {
    CompletesExactlyWhen(handlers, messageId, rowId, script, e, e', r);
    if Commits(handlers, script, Held(e.db, messageId)) {
      CommittedAttemptIsExact(handlers, messageId, rowId, script, e, e', r);
      var kind := DispatchKind(handlers, script.classification.value);
      HeldGrows(e.db.jobs, e'.db.jobs, messageId, rowId, kind == JobPosting);
      HeldGrows(e.db.goals, e'.db.goals, messageId, rowId, kind == WorkGoal);
    }
  }

  lemma HeldGrows(rows: seq<Row>, rows': seq<Row>, messageId: int, rowId: int, added: bool)
    requires rows' == rows + if added then [Row(rowId, messageId)] else []
    ensures (exists row | row in rows' :: row.messageId == messageId) <==>
              added || exists row | row in rows :: row.messageId == messageId
  {
    if added {
      assert Row(rowId, messageId) in rows';
    } else {
      assert rows' == rows;
    }
  }

  /** The kinds of row the message has after the first `k` attempts, by what they committed. */
  function HeldAfterAll(handlers: seq<Handler>, scripts: nat -> Script, held: Holding, k: nat): Holding {
    if k == 0 then held else HeldAfter(handlers, scripts(k - 1), HeldAfterAll(handlers, scripts, held, k - 1))
  }

  /** Attempt `k` completes and is acknowledged; all of this is given before the workflow starts. */
  predicate Succeeds(handlers: seq<Handler>, scripts: nat -> Script, acknowledged: nat -> bool, held: Holding,
                     k: nat)
  {
    && acknowledged(k) && scripts(k).dies.None?
    && Commits(handlers, scripts(k), HeldAfterAll(handlers, scripts, held, k))
  }

  /** How many attempts are made from attempt `k` on: until one succeeds, four in all. */
  function AttemptsFrom(handlers: seq<Handler>, scripts: nat -> Script, acknowledged: nat -> bool,
                        held: Holding, k: nat): nat
    decreases PROCESS_MSG_RETRY_MAX_ATTEMPTS - k
  {
    if Succeeds(handlers, scripts, acknowledged, held, k) || PROCESS_MSG_RETRY_MAX_ATTEMPTS <= k + 1 then k + 1
    else AttemptsFrom(handlers, scripts, acknowledged, held, k + 1)
  }

  /** The attempts made are the first success and what precedes it, or four. */
  lemma {:induction false} StopsAtTheFirstSuccess(handlers: seq<Handler>, scripts: nat -> Script,
                                                  acknowledged: nat -> bool, held: Holding, k: nat)
    requires k < 4
    ensures var n := AttemptsFrom(handlers, scripts, acknowledged, held, k);
            && k < n <= 4
            && (forall j | k <= j < n - 1 :: !Succeeds(handlers, scripts, acknowledged, held, j))
            && (n < 4 ==> Succeeds(handlers, scripts, acknowledged, held, n - 1))
    decreases PROCESS_MSG_RETRY_MAX_ATTEMPTS - k
  {
    if !Succeeds(handlers, scripts, acknowledged, held, k) && k + 1 < PROCESS_MSG_RETRY_MAX_ATTEMPTS {
      StopsAtTheFirstSuccess(handlers, scripts, acknowledged, held, k + 1);
    }
  }

  lemma CommitGrows(db: Db, kind: MessageType, messageId: int, rowId: int, matched: set<int>)
    requires messageId in db.messages
    ensures GrowsFor(messageId, db, Committed(db, StagedFor(kind, messageId, rowId, matched)), 1)
  {
    forall m
      ensures Classifications(Committed(db, StagedFor(kind, messageId, rowId, matched)).audits, m) <=
              Classifications(db.audits, m) + if m == messageId then 1 else 0
    {
      StagedAudits(db.audits, kind, messageId, rowId, matched, m);
    }
  }

  lemma GrowthIsAtMostOneRow(messageId: int, db: Db, db': Db, n: nat, nextId: nat)
    requires GrowsFor(messageId, db, db', n) && Consistent(db', nextId)
    ensures |db'.jobs| <= |db.jobs| + 1 && |db'.goals| <= |db.goals| + 1
    ensures HasMessage(db.jobs, messageId) ==> db'.jobs == db.jobs
    ensures HasMessage(db.goals, messageId) ==> db'.goals == db.goals
  {
    OneMoreAtMost(messageId, db.jobs, db'.jobs, nextId);
    OneMoreAtMost(messageId, db.goals, db'.goals, nextId);
  }

  lemma MessagesDiffer(rows: seq<Row>, nextId: nat, i: nat, j: nat)
    requires Keyed(rows, nextId) && i < j < |rows|
    ensures rows[i].messageId != rows[j].messageId
  {
  }

  lemma OneMoreAtMost(messageId: int, rows: seq<Row>, rows': seq<Row>, nextId: nat)
    requires rows <= rows' && Keyed(rows', nextId)
    requires forall i | |rows| <= i < |rows'| :: rows'[i].messageId == messageId
    ensures |rows'| <= |rows| + 1
    ensures HasMessage(rows, messageId) ==> rows' == rows
  {
    if |rows| + 1 < |rows'| {
      MessagesDiffer(rows', nextId, |rows|, |rows| + 1);
    }
    forall i | 0 <= i < |rows| < |rows'|
      ensures rows[i].messageId != messageId
    {
      MessagesDiffer(rows', nextId, i, |rows|);
    }
  }

  datatype ActivityResult = ActivityOk | RetryableFailure | NonRetryableFailure

  class ProcessMessageWorkflow {
    /** The pipeline_failures_total counter. */
    var failures: nat

    constructor ()
      ensures failures == 0
    {
      failures := 0;
    }

    /**
     One activity execution; a completion that is not acknowledged counts as a failure and is retried.
     The message's row is looked up first, then the orchestrator, which a worker may not have set.
     */
    method ProcessMessageActivity(orchestrator: PipelineOrchestrator?, session: Session, external: External,
                                  messageId: int, script: Script, acknowledged: bool)
      returns (result: ActivityResult)
      requires orchestrator != null ==> orchestrator.Valid()
      requires session.staged == NOTHING && Consistent(session.db, session.nextId)
      modifies session, external
      ensures session.staged == NOTHING && Consistent(session.db, session.nextId)
      ensures result.NonRetryableFailure? <==> messageId !in old(session.db).messages || orchestrator == null
      ensures result.NonRetryableFailure? ==>
                session.db == old(session.db) && external.index == old(external.index) && external.replies == old(external.replies)
      ensures GrowsFor(messageId, old(session.db), session.db, 1)
      ensures result.ActivityOk? ==> messageId in session.db.messages && session.db.messages[messageId].Some?
      ensures result.ActivityOk? <==>
                && messageId in old(session.db).messages && orchestrator != null && acknowledged && script.dies.None?
                && Commits(orchestrator.handlers, script, Held(old(session.db), messageId))
      ensures !result.NonRetryableFailure? ==>
                Held(session.db, messageId) == HeldAfter(orchestrator.handlers, script, Held(old(session.db), messageId))
    {
      if messageId !in session.db.messages {
        return NonRetryableFailure;
      }
      if orchestrator == null {
        return NonRetryableFailure;
      }
      ghost var rowId := session.nextId;
      ghost var e := Effects(session.db, external.index, external.replies);
      var r := orchestrator.Run(session, external, messageId, script);
      AttemptGrows(orchestrator.handlers, messageId, rowId, script, e,
                   Effects(session.db, external.index, external.replies), r);
      CompletesExactlyWhen(orchestrator.handlers, messageId, rowId, script, e,
                           Effects(session.db, external.index, external.replies), r);
      AttemptHolds(orchestrator.handlers, messageId, rowId, script, e,
                   Effects(session.db, external.index, external.replies), r);
      return if r == Completed && acknowledged then ActivityOk else RetryableFailure;
    }

    /** One more attempt on top of `n` that were retryable, in a store that has grown from `begun` by them. */
    method NextAttempt(orchestrator: PipelineOrchestrator?, session: Session, external: External, messageId: int,
                       scripts: nat -> Script, acknowledged: nat -> bool, n: nat, ghost begun: Db)
      returns (result: ActivityResult)
      requires orchestrator != null ==> orchestrator.Valid()
      requires session.staged == NOTHING && Consistent(session.db, session.nextId)
      requires GrowsFor(messageId, begun, session.db, n)
      requires orchestrator != null ==>
                 Held(session.db, messageId) == HeldAfterAll(orchestrator.handlers, scripts, Held(begun, messageId), n)
      modifies session, external
      ensures session.staged == NOTHING && Consistent(session.db, session.nextId)
      ensures GrowsFor(messageId, begun, session.db, n + 1)
      ensures result.NonRetryableFailure? <==> messageId !in begun.messages || orchestrator == null
      ensures result.NonRetryableFailure? ==> session.db == old(session.db)
      ensures result.ActivityOk? ==> messageId in session.db.messages && session.db.messages[messageId].Some?
      ensures !result.NonRetryableFailure? ==>
                var held := Held(begun, messageId);
                && Held(session.db, messageId) == HeldAfterAll(orchestrator.handlers, scripts, held, n + 1)
                && (result.ActivityOk? <==> Succeeds(orchestrator.handlers, scripts, acknowledged, held, n))
    {
      ghost var before := session.db;
      result := ProcessMessageActivity(orchestrator, session, external, messageId, scripts(n), acknowledged(n));
      GrowsTwice(messageId, begun, before, session.db, n, 1);
    }

    /** The retries after `n` failed executions: until one completes or four were made. */
    method Retry(orchestrator: PipelineOrchestrator, session: Session, external: External, messageId: int,
                 scripts: nat -> Script, acknowledged: nat -> bool, n: nat, ghost begun: Db)
      returns (attempts: nat, result: ActivityResult)
      requires n < PROCESS_MSG_RETRY_MAX_ATTEMPTS && orchestrator.Valid() && messageId in begun.messages
      requires session.staged == NOTHING && Consistent(session.db, session.nextId)
      requires GrowsFor(messageId, begun, session.db, n)
      requires Held(session.db, messageId) == HeldAfterAll(orchestrator.handlers, scripts, Held(begun, messageId), n)
      modifies session, external
      ensures session.staged == NOTHING && Consistent(session.db, session.nextId)
      ensures GrowsFor(messageId, begun, session.db, attempts)
      ensures !result.NonRetryableFailure?
      ensures result.ActivityOk? ==> messageId in session.db.messages && session.db.messages[messageId].Some?
      ensures n < attempts == AttemptsFrom(orchestrator.handlers, scripts, acknowledged, Held(begun, messageId), n)
      ensures result.ActivityOk? <==>
                Succeeds(orchestrator.handlers, scripts, acknowledged, Held(begun, messageId), attempts - 1)
      decreases PROCESS_MSG_RETRY_MAX_ATTEMPTS - n
    {
      attempts := n + 1;
      result := NextAttempt(orchestrator, session, external, messageId, scripts, acknowledged, n, begun);
      if result.RetryableFailure? && attempts < PROCESS_MSG_RETRY_MAX_ATTEMPTS {
        attempts, result := Retry(orchestrator, session, external, messageId, scripts, acknowledged, n + 1, begun);
      }
    }

    /**
     The activity under its retry policy: executed until it completes, fails for good or was tried four
     times. Which execution completes is settled by the scripts and what the message held before.
     */
    method ExecuteActivity(orchestrator: PipelineOrchestrator?, session: Session, external: External, messageId: int,
                           scripts: nat -> Script, acknowledged: nat -> bool)
      returns (attempts: nat, result: ActivityResult)
      requires orchestrator != null ==> orchestrator.Valid()
      requires session.staged == NOTHING && Consistent(session.db, session.nextId)
      modifies session, external
      ensures session.staged == NOTHING && Consistent(session.db, session.nextId)
      ensures GrowsFor(messageId, old(session.db), session.db, attempts)
      ensures result.NonRetryableFailure? <==> messageId !in old(session.db).messages || orchestrator == null
      ensures result.NonRetryableFailure? ==> attempts == 1 && session.db == old(session.db)
      ensures result.ActivityOk? ==> messageId in session.db.messages && session.db.messages[messageId].Some?
      ensures !result.NonRetryableFailure? ==>
                var held := Held(old(session.db), messageId);
                && 0 < attempts == AttemptsFrom(orchestrator.handlers, scripts, acknowledged, held, 0)
                && (result.ActivityOk? <==>
                    Succeeds(orchestrator.handlers, scripts, acknowledged, held, attempts - 1))
    {
      ghost var begun := session.db;
      attempts := 1;
      result := NextAttempt(orchestrator, session, external, messageId, scripts, acknowledged, 0, begun);
      if result.RetryableFailure? {
        attempts, result := Retry(orchestrator, session, external, messageId, scripts, acknowledged, 1, begun);
      }
    }

    /**
     The workflow: the activity, and the failure activity when that fails. It succeeds with the first
     attempt of the four that does, which the scripts settle. However the attempts were classified,
     failed or died, the message gains at most one job and at most one work goal, other messages gain
     nothing, and the failure activity runs exactly when the workflow fails.
     */
    method Run(orchestrator: PipelineOrchestrator?, session: Session, external: External, messageId: int,
               scripts: nat -> Script, acknowledged: nat -> bool)
      returns (succeeded: bool, attempts: nat)
      requires orchestrator != null ==> orchestrator.Valid()
      requires session.staged == NOTHING && Consistent(session.db, session.nextId)
      modifies session, external, this
      ensures Consistent(session.db, session.nextId)
      ensures 1 <= attempts <= 4
      ensures messageId !in old(session.db).messages || orchestrator == null ==>
                !succeeded && attempts == 1 && session.db == old(session.db)
      ensures messageId in old(session.db).messages && orchestrator != null ==>
                var held := Held(old(session.db), messageId);
                && (forall k | 0 <= k < attempts - 1 :: !Succeeds(orchestrator.handlers, scripts, acknowledged, held, k))
                && (succeeded <==> Succeeds(orchestrator.handlers, scripts, acknowledged, held, attempts - 1))
                && (!succeeded ==> attempts == 4)
      ensures succeeded ==> messageId in session.db.messages && session.db.messages[messageId].Some?
      ensures failures == old(failures) + if succeeded then 0 else 1
      ensures GrowsFor(messageId, old(session.db), session.db, attempts)
      ensures |session.db.jobs| <= |old(session.db).jobs| + 1 && |session.db.goals| <= |old(session.db).goals| + 1
    {
      ghost var begun := session.db;
      var result;
      attempts, result := ExecuteActivity(orchestrator, session, external, messageId, scripts, acknowledged);
      if orchestrator != null {
        StopsAtTheFirstSuccess(orchestrator.handlers, scripts, acknowledged, Held(begun, messageId), 0);
      }
      succeeded := result.ActivityOk?;
      if !succeeded {
        failures := failures + 1;
      }
      GrowthIsAtMostOneRow(messageId, begun, session.db, attempts, session.nextId);
    }
  }
}
