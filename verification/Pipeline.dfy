/**
 One message through the pipeline: the handler chain, the unit of work the orchestrator commits,
 the effects it runs afterwards, and the workflow that retries the whole attempt.
 */
module Pipeline {
  import opened Wrappers
  import opened Audit
  import opened MessageStore
  import MatchRepository

  const PROCESS_MSG_RETRY_MAX_ATTEMPTS: nat := 4

  /** What GPT made of the message; the details are those the handlers look at. */
  datatype Extraction = Extraction(messageType: MessageType, job: Option<string>, workGoal: Option<int>)

  datatype Handler = JobPostingHandler | WorkGoalHandler | UnknownMessageHandler {

    /** The classification the handler records, whatever GPT called the message. */
    function Kind(): MessageType {
      match this
      case JobPostingHandler => JobPosting
      case WorkGoalHandler => WorkGoal
      case UnknownMessageHandler => UnknownMessage
    }

    predicate IsTerminal() {
      UnknownMessageHandler?
    }

    predicate CanHandle(result: Extraction) {
      match this
      case JobPostingHandler => result.messageType.JobPosting? && result.job.Some?
      case WorkGoalHandler => result.messageType.WorkGoal? && result.workGoal.Some?
      case UnknownMessageHandler => true
    }
  }

  // ---------- the chain ----------

  datatype ChainError = MustEndTerminal | OnlyLastTerminal

  /** The constructor's two checks, in order. */
  function ChainProblem(handlers: seq<Handler>): Option<ChainError> {
    if handlers == [] || !handlers[|handlers| - 1].IsTerminal() then Some(MustEndTerminal)
    else if exists h | h in handlers[..|handlers| - 1] :: h.IsTerminal() then Some(OnlyLastTerminal)
    else None
  }

  /** Position of the first handler that accepts the result. */
  ghost predicate FirstToAccept(handlers: seq<Handler>, result: Extraction, i: nat) {
    i < |handlers| && handlers[i].CanHandle(result) && forall j | 0 <= j < i :: !handlers[j].CanHandle(result)
  }

  ghost predicate Dispatches(handlers: seq<Handler>, result: Extraction) {
    exists i: nat :: FirstToAccept(handlers, result, i)
  }

  /** A chain dispatches every result exactly when it has a terminal handler somewhere. */
  lemma DispatchIsTotalExactlyWhenTerminal(handlers: seq<Handler>)
    ensures (forall result :: Dispatches(handlers, result)) <==> exists h :: h in handlers && h.IsTerminal()
  {
    if exists h :: h in handlers && h.IsTerminal() {
      forall result
        ensures Dispatches(handlers, result)
      {
        var k := AcceptingPrefix(handlers, result);
      }
    } else {
      var nothing := Extraction(UnknownMessage, None, None);
      forall i: nat
        ensures !FirstToAccept(handlers, nothing, i)
      {
        if i < |handlers| {
          assert handlers[i] in handlers;
        }
      }
      assert !Dispatches(handlers, nothing);
    }
  }

  lemma {:induction false} AcceptingPrefix(handlers: seq<Handler>, result: Extraction) returns (i: nat)
    requires exists h :: h in handlers && h.IsTerminal()
    ensures FirstToAccept(handlers, result, i)
  {
    if handlers[0].CanHandle(result) {
      i := 0;
    } else {
      var rest := AcceptingPrefix(handlers[1..], result);
      i := rest + 1;
      forall j | 0 <= j < i
        ensures !handlers[j].CanHandle(result)
      {
        if j > 0 {
          assert handlers[j] == handlers[1..][j - 1];
        }
      }
    }
  }

  /** None of the first `i` handlers accepts the result. */
  predicate PassesBy(handlers: seq<Handler>, result: Extraction, i: nat)
    requires i <= |handlers|
  {
    forall j | 0 <= j < i :: !handlers[j].CanHandle(result)
  }

  /** Some result is passed on to position `i`; whether the handler there then accepts it is another matter. */
  ghost predicate IsPassedOn(handlers: seq<Handler>, i: nat)
    requires i < |handlers|
  {
    exists result :: PassesBy(handlers, result, i)
  }

  /**
   The constructor's two checks say what they are for: they accept exactly the chains that dispatch
   every result and pass some result on to every position. A second handler of one kind is still
   accepted, though no result the first one passes on is one it would handle.
   */
  lemma AcceptedExactlyWhenTotalAndPassedOn(handlers: seq<Handler>)
    ensures ChainProblem(handlers).None? <==>
              && (forall result :: Dispatches(handlers, result))
              && (forall i: nat | i < |handlers| :: IsPassedOn(handlers, i))
  {
    DispatchIsTotalExactlyWhenTerminal(handlers);
    if ChainProblem(handlers).None? {
      assert handlers[|handlers| - 1] in handlers;
      forall i: nat | i < |handlers|
        ensures IsPassedOn(handlers, i)
      {
        var nothing := Extraction(UnknownMessage, None, None);
        assert forall j | 0 <= j < i :: handlers[j] in handlers[..|handlers| - 1];
        assert PassesBy(handlers, nothing, i);
      }
    } else if forall i: nat | i < |handlers| :: IsPassedOn(handlers, i) {
      forall h | h in handlers
        ensures !h.IsTerminal()
      {
        if h.IsTerminal() {
          TerminalIsLast(handlers, h);
        }
      }
    }
  }

  lemma PassedOnPastNoCatchAll(handlers: seq<Handler>, k: nat)
    requires k + 1 < |handlers| && IsPassedOn(handlers, k + 1)
    ensures !handlers[k].IsTerminal()
  {
    var result :| PassesBy(handlers, result, k + 1);
    assert !handlers[k].CanHandle(result);
  }

  /** Where every position is passed some result, a catch-all can only be the last one. */
  lemma TerminalIsLast(handlers: seq<Handler>, h: Handler)
    requires h in handlers && h.IsTerminal() && forall i: nat | i < |handlers| :: IsPassedOn(handlers, i)
    ensures ChainProblem(handlers).None?
  {
    forall k: nat | k < |handlers| - 1
      ensures !handlers[k].IsTerminal()
    {
      PassedOnPastNoCatchAll(handlers, k);
    }
  }

  /** The kind of the first handler in the chain that accepts the result. */
  function DispatchKind(chain: seq<Handler>, result: Extraction): MessageType {
    if chain == [] then UnknownMessage
    else if chain[0].CanHandle(result) then chain[0].Kind()
    else DispatchKind(chain[1..], result)
  }

  lemma {:induction false} DispatchKindIsTheFirst(chain: seq<Handler>, result: Extraction, i: nat)
    requires FirstToAccept(chain, result, i)
    ensures DispatchKind(chain, result) == chain[i].Kind()
  {
    if i != 0 {
      assert forall j | 0 <= j < i - 1 :: chain[1..][j] == chain[j + 1];
      DispatchKindIsTheFirst(chain[1..], result, i - 1);
    }
  }

  /**
   In the application's chain what is recorded is GPT's own type, provided the details that type needs
   are there; everything else is recorded as unknown.
   */
  lemma RecordsWhatGptSaid(result: Extraction)
    ensures DispatchKind([JobPostingHandler, WorkGoalHandler, UnknownMessageHandler], result) ==
            if result.messageType == JobPosting && result.job.Some? then JobPosting
            else if result.messageType == WorkGoal && result.workGoal.Some? then WorkGoal
            else UnknownMessage
    ensures ChainProblem([JobPostingHandler, WorkGoalHandler, UnknownMessageHandler]).None?
  {
    var chain := [JobPostingHandler, WorkGoalHandler, UnknownMessageHandler];
    assert chain[..2] == [JobPostingHandler, WorkGoalHandler];
    if chain[0].CanHandle(result) {
      DispatchKindIsTheFirst(chain, result, 0);
    } else if chain[1].CanHandle(result) {
      DispatchKindIsTheFirst(chain, result, 1);
    } else {
      DispatchKindIsTheFirst(chain, result, 2);
    }
  }

  // ---------- effects after the commit ----------

  /** A text sent in answer to a message: the matches of its work goal, or the catch-all's. */
  datatype Reply = Reply(messageId: int, kind: MessageType)

  datatype Action = UpsertEmbedding(jobId: int) | SendReply(reply: Reply)

  /** What happens to a deferred action: one that raises may have reached its system all the same, or be queued. */
  datatype Outcome = Done | Failed(reached: bool, queued: bool) {
    predicate TookEffect() { Done? || reached }

    predicate WasQueued() { Failed? && queued }
  }

  function ActionsFor(kind: MessageType, messageId: int, rowId: int): seq<Action> {
    if kind.JobPosting? then [UpsertEmbedding(rowId)] else [SendReply(Reply(messageId, kind))]
  }

  /** The committed store and the two systems outside it. */
  datatype Effects = Effects(db: Db, index: set<int>, replies: seq<Reply>)

  function Performed(e: Effects, action: Action, o: Outcome): Effects {
    match action
    case UpsertEmbedding(jobId) =>
      Effects(if o.WasQueued() then e.db.(outbox := e.db.outbox + [jobId]) else e.db,
              if o.TookEffect() then e.index + {jobId} else e.index, e.replies)
    case SendReply(reply) => if o.TookEffect() then e.(replies := e.replies + [reply]) else e
  }

  function PerformedAll(e: Effects, actions: seq<Action>, outcomes: nat -> Outcome, n: nat): Effects
    requires n <= |actions|
  {
    if n == 0 then e else Performed(PerformedAll(e, actions, outcomes, n - 1), actions[n - 1], outcomes(n - 1))
  }

  lemma {:induction false} EffectsOnlyGrow(e: Effects, actions: seq<Action>, outcomes: nat -> Outcome, n: nat)
    requires n <= |actions|
    ensures var e' := PerformedAll(e, actions, outcomes, n);
            && e'.db == e.db.(outbox := e'.db.outbox) && e.db.outbox <= e'.db.outbox
            && e.index <= e'.index && e.replies <= e'.replies
  {
    if n != 0 {
      EffectsOnlyGrow(e, actions, outcomes, n - 1);
    }
  }

  /** The earlier actions' failures do not stop a later one: each takes effect by its own outcome. */
  lemma {:induction false} EveryActionIsAttempted(e: Effects, actions: seq<Action>, outcomes: nat -> Outcome, n: nat,
                                                  i: nat)
    requires i < n <= |actions|
    ensures var e' := PerformedAll(e, actions, outcomes, n);
            match actions[i]
            case UpsertEmbedding(jobId) =>
              && (outcomes(i).TookEffect() ==> jobId in e'.index)
              && (outcomes(i).WasQueued() ==> jobId in e'.db.outbox)
            case SendReply(reply) => outcomes(i).TookEffect() ==> reply in e'.replies
  {
    if i < n - 1 {
      EveryActionIsAttempted(e, actions, outcomes, n - 1, i);
    }
  }

  /** The queue gains only jobs whose upsert failed, so a store that knows those jobs stays consistent. */
  lemma {:induction false} EffectsKeepConsistent(e: Effects, actions: seq<Action>, outcomes: nat -> Outcome, n: nat,
                                                 nextId: nat)
    requires n <= |actions| && Consistent(e.db, nextId)
    requires forall i | 0 <= i < |actions| && actions[i].UpsertEmbedding? :: HasId(e.db.jobs, actions[i].jobId)
    ensures Consistent(PerformedAll(e, actions, outcomes, n).db, nextId)
  {
    if n != 0 {
      EffectsKeepConsistent(e, actions, outcomes, n - 1, nextId);
      EffectsOnlyGrow(e, actions, outcomes, n - 1);
      var before := PerformedAll(e, actions, outcomes, n - 1);
      if actions[n - 1].UpsertEmbedding? {
        QueueKeepsConsistent(before.db, nextId, actions[n - 1].jobId);
      }
    }
  }

  // ---------- the unit of work ----------

  class External {
    var index: set<int>
    var replies: seq<Reply>

    constructor ()
      ensures index == {} && replies == []
    {
      index, replies := {}, [];
    }
  }

  /** One database session: committed rows, flushed but uncommitted writes, and the id sequence. */
  class Session {
    var db: Db
    var staged: Staged
    var nextId: nat

    constructor (db: Db, nextId: nat)
      ensures this.db == db && staged == NOTHING && this.nextId == nextId
    {
      this.db, staged, this.nextId := db, NOTHING, nextId;
    }

    method WriteAudit(messageId: int, event: AuditEvent)
      modifies this`staged
      ensures staged == old(staged).(audits := old(staged.audits) + [AuditRow(messageId, event)])
    {
      staged := staged.(audits := staged.audits + [AuditRow(messageId, event)]);
    }

    method CreateJob(messageId: int) returns (id: int, integrityError: bool)
      modifies this`staged, this`nextId
      ensures id == old(nextId) && nextId == old(nextId) + 1
      ensures staged == old(staged).(jobs := old(staged.jobs) + [Row(id, messageId)])
      ensures integrityError == HasMessage(db.jobs, messageId)
    {
      id, nextId := nextId, nextId + 1;
      staged := staged.(jobs := staged.jobs + [Row(id, messageId)]);
      integrityError := HasMessage(db.jobs, messageId);
    }

    method CreateWorkGoal(messageId: int) returns (id: int, integrityError: bool)
      modifies this`staged, this`nextId
      ensures id == old(nextId) && nextId == old(nextId) + 1
      ensures staged == old(staged).(goals := old(staged.goals) + [Row(id, messageId)])
      ensures integrityError == HasMessage(db.goals, messageId)
    {
      id, nextId := nextId, nextId + 1;
      staged := staged.(goals := staged.goals + [Row(id, messageId)]);
      integrityError := HasMessage(db.goals, messageId);
    }

    method PersistMatches(workGoalId: int, jobIds: set<int>)
      modifies this`staged
      ensures staged == old(staged).(
                matches := old(staged.matches) + set id | id in jobIds :: MatchRepository.MatchRow(id, workGoalId))
    {
      staged := staged.(matches := staged.matches + set id | id in jobIds :: MatchRepository.MatchRow(id, workGoalId));
    }

    method RecordClassification(messageId: int, kind: MessageType)
      modifies this`staged
      ensures staged == old(staged).(classified := Some((messageId, kind)))
    {
      staged := staged.(classified := Some((messageId, kind)));
    }

    method Enqueue(jobId: int)
      modifies this`staged
      ensures staged == old(staged).(outbox := old(staged.outbox) + [jobId])
    {
      staged := staged.(outbox := staged.outbox + [jobId]);
    }

    method Commit()
      modifies this`db, this`staged
      ensures db == Committed(old(db), old(staged)) && staged == NOTHING
    {
      db, staged := Committed(db, staged), NOTHING;
    }

    method Rollback()
      modifies this`staged
      ensures staged == NOTHING
    {
      staged := NOTHING;
    }
  }

  /** Deferred side effects, in the order they were registered. */
  class PipelineContext {
    var postCommitActions: seq<Action>

    constructor ()
      ensures postCommitActions == []
    {
      postCommitActions := [];
    }

    method RunAfterCommit(action: Action)
      modifies this
      ensures postCommitActions == old(postCommitActions) + [action]
    {
      postCommitActions := postCommitActions + [action];
    }
  }

  /** Where a process dies, if it does: before its commit, or after that many deferred actions. */
  datatype Death = BeforeCommit | AfterActions(n: nat)

  /** Everything an attempt does not control; of `wanted` it can match the jobs there are when it looks. */
  datatype Script = Script(
    classification: Option<Extraction>,
    handlerRaises: bool,
    wanted: set<int>,
    dies: Option<Death>,
    outcomes: nat -> Outcome)
  {
    function Matched(db: Db): set<int> {
      set id | id in wanted && HasId(db.jobs, id)
    }
  }

  datatype RunResult = Completed | Raised | Died

  class PipelineOrchestrator {
    const handlers: seq<Handler>

    constructor (handlers: seq<Handler>)
      requires ChainProblem(handlers).None?
      ensures this.handlers == handlers
    {
      this.handlers := handlers;
    }

    ghost predicate Valid() {
      ChainProblem(handlers).None?
    }

    /** The first handler in the chain that accepts the result. */
    method Dispatch(result: Extraction) returns (i: nat)
      requires Valid()
      ensures FirstToAccept(handlers, result, i)
    {
      i := 0;
      while !handlers[i].CanHandle(result)
        invariant i < |handlers| && forall j | 0 <= j < i :: !handlers[j].CanHandle(result)
        decreases |handlers| - i
      {
        i := i + 1;
      }
    }

    /** The chosen handler's flush-only writes and its one deferred action. */
    method Handle(handler: Handler, result: Extraction, session: Session, context: PipelineContext, messageId: int,
                  script: Script)
      returns (raised: bool)
      requires handler.CanHandle(result)
      requires session.staged == NOTHING.(audits := [AuditRow(messageId, GptClassified)])
      requires context.postCommitActions == []
      modifies session`staged, session`nextId, context
      ensures old(session.nextId) <= session.nextId
      ensures !handler.IsTerminal() && !raised ==> old(session.nextId) < session.nextId
      ensures raised <==> HandlerFails(session.db, handler, result, messageId, script)
      ensures !raised ==>
                && session.staged.(classified := Some((messageId, handler.Kind()))) ==
                   StagedFor(handler.Kind(), messageId, old(session.nextId), script.Matched(session.db))
                && context.postCommitActions == ActionsFor(handler.Kind(), messageId, old(session.nextId))
    {
      if script.handlerRaises {
        return true;
      }
      match handler {
        case JobPostingHandler =>
          var id, integrityError := session.CreateJob(messageId);
          if integrityError {
            return true;
          }
          session.WriteAudit(messageId, JobCreated(id));
          context.RunAfterCommit(UpsertEmbedding(id));
        case WorkGoalHandler =>
          if result.workGoal.value <= 0 {
            return true;
          }
          var id, integrityError := session.CreateWorkGoal(messageId);
          if integrityError {
            return true;
          }
          session.WriteAudit(messageId, WorkGoalCreated(id));
          session.PersistMatches(id, script.Matched(session.db));
          context.RunAfterCommit(SendReply(Reply(messageId, WorkGoal)));
        case UnknownMessageHandler =>
          context.RunAfterCommit(SendReply(Reply(messageId, UnknownMessage)));
      }
      return false;
    }

    /** A deferred action with its own error handling: a failed embedding write is queued in a small transaction. */
    method Perform(action: Action, o: Outcome, session: Session, external: External)
      requires session.staged == NOTHING
      modifies session`db, session`staged, external
      ensures session.staged == NOTHING
      ensures Effects(session.db, external.index, external.replies) ==
              Performed(Effects(old(session.db), old(external.index), old(external.replies)), action, o)
    {
      match action {
        case UpsertEmbedding(jobId) =>
          if o.TookEffect() {
            external.index := external.index + {jobId};
          }
          if o.Failed? {
            session.Enqueue(jobId);
            if o.queued {
              session.Commit();
            } else {
              session.Rollback();
            }
          }
        case SendReply(reply) =>
          if o.TookEffect() {
            external.replies := external.replies + [reply];
          }
      }
    }

    /** The deferred actions in registration order, as far as the process lives. */
    method RunActions(actions: seq<Action>, n: nat, outcomes: nat -> Outcome, session: Session, external: External)
      requires n <= |actions| && session.staged == NOTHING
      modifies session`db, session`staged, external
      ensures session.staged == NOTHING
      ensures Effects(session.db, external.index, external.replies) ==
              PerformedAll(Effects(old(session.db), old(external.index), old(external.replies)), actions, outcomes, n)
    {
      ghost var begun := Effects(session.db, external.index, external.replies);
      for i := 0 to n
        invariant session.staged == NOTHING
        invariant Effects(session.db, external.index, external.replies) == PerformedAll(begun, actions, outcomes, i)
      {
        Perform(actions[i], outcomes(i), session, external);
      }
    }

    /**
     One attempt. It either commits everything its handler stages in one unit of work and then runs
     the deferred actions, or it commits nothing and has no effect at all.
     */
    method Run(session: Session, external: External, messageId: int, script: Script) returns (r: RunResult)
      requires Valid() && session.staged == NOTHING && messageId in session.db.messages
      requires Consistent(session.db, session.nextId)
      modifies session, external
      ensures session.staged == NOTHING && old(session.nextId) <= session.nextId
      ensures Consistent(session.db, session.nextId)
      ensures Attempted(handlers, messageId, old(session.nextId), script,
                        Effects(old(session.db), old(external.index), old(external.replies)),
                        Effects(session.db, external.index, external.replies), r)
    {
      if script.classification.None? {
        return Raised;
      }
      var result := script.classification.value;
      ghost var e := Effects(session.db, external.index, external.replies);
      session.WriteAudit(messageId, GptClassified);
      var context := new PipelineContext();
      var i := Dispatch(result);
      var rowId := session.nextId;
      var raised := Handle(handlers[i], result, session, context, messageId, script);
      MoreIdsKeepConsistent(session.db, rowId, session.nextId);
      if raised || script.dies == Some(BeforeCommit) {
        session.Rollback();
        r := if raised then Raised else Died;
        assert AttemptedVia(handlers, i, messageId, rowId, script, e,
                            Effects(session.db, external.index, external.replies), r);
        return;
      }
      r := CommitAndPerform(session, external, context.postCommitActions, handlers[i].Kind(), messageId, rowId, script);
      assert AttemptedVia(handlers, i, messageId, rowId, script, e,
                          Effects(session.db, external.index, external.replies), r);
    }

    /** The single commit, then the deferred actions. */
    method CommitAndPerform(session: Session, external: External, actions: seq<Action>, kind: MessageType,
                            messageId: int, ghost rowId: nat, script: Script)
      returns (r: RunResult)
      requires messageId in session.db.messages && !Duplicates(session.db, kind, messageId)
      requires Consistent(session.db, rowId) && rowId <= session.nextId && (!kind.UnknownMessage? ==> rowId < session.nextId)
      requires session.staged.(classified := Some((messageId, kind))) ==
               StagedFor(kind, messageId, rowId, script.Matched(session.db))
      requires actions == ActionsFor(kind, messageId, rowId)
      modifies session`db, session`staged, external
      ensures session.staged == NOTHING && Consistent(session.db, session.nextId)
      ensures var committed :=
                Committed(old(session.db), StagedFor(kind, messageId, rowId, script.Matched(old(session.db))));
              Effects(session.db, external.index, external.replies) ==
              PerformedAll(Effects(committed, old(external.index), old(external.replies)), actions, script.outcomes,
                           Lived(script, |actions|))
      ensures r == if script.dies.Some? then Died else Completed
    {
      session.RecordClassification(messageId, kind);
      CommittingKeepsConsistent(session.db, rowId, session.nextId, kind, messageId, script.Matched(session.db));
      session.Commit();
      var lived := Lived(script, |actions|);
      EffectsKeepConsistent(Effects(session.db, external.index, external.replies), actions, script.outcomes, lived,
                            session.nextId);
      RunActions(actions, lived, script.outcomes, session, external);
      return if script.dies.Some? then Died else Completed;
    }
  }

  /** How many of `n` deferred actions the process lives to attempt. */
  function Lived(script: Script, n: nat): nat {
    if script.dies.Some? && script.dies.value.AfterActions? && script.dies.value.n < n then script.dies.value.n else n
  }

  /** The handler raises: it says so, a work goal is not positive, or UNIQUE(message_id) is violated. */
  predicate HandlerFails(db: Db, handler: Handler, result: Extraction, messageId: int, script: Script)
    requires handler.CanHandle(result)
  {
    || script.handlerRaises
    || (handler.WorkGoalHandler? && result.workGoal.value <= 0)
    || Duplicates(db, handler.Kind(), messageId)
  }

  /** How an attempt dispatched to the handler at `i` may change the world: all or nothing, effects after the commit. */
  ghost predicate AttemptedVia(handlers: seq<Handler>, i: nat, messageId: int, rowId: nat, script: Script,
                               e: Effects, e': Effects, r: RunResult)
  {
    && script.classification.Some? && FirstToAccept(handlers, script.classification.value, i)
    && var kind := handlers[i].Kind();
       var actions := ActionsFor(kind, messageId, rowId);
       var committed := e.(db := Committed(e.db, StagedFor(kind, messageId, rowId, script.Matched(e.db))));
       if HandlerFails(e.db, handlers[i], script.classification.value, messageId, script) then e' == e && r == Raised
       else if script.dies == Some(BeforeCommit) then e' == e && r == Died
       else
         && e' == PerformedAll(committed, actions, script.outcomes, Lived(script, |actions|))
         && r == if script.dies.Some? then Died else Completed
  }

  ghost predicate Attempted(handlers: seq<Handler>, messageId: int, rowId: nat, script: Script,
                            e: Effects, e': Effects, r: RunResult)
  {
    if script.classification.None? then e' == e && r == Raised
    else exists i: nat :: AttemptedVia(handlers, i, messageId, rowId, script, e, e', r)
  }

  // ---------- one attempt, from its inputs ----------

  /** The kinds of row the store has for a message; a second one of a kind violates UNIQUE. */
  datatype Holding = Holding(job: bool, goal: bool)

  function Held(db: Db, messageId: int): Holding {
    Holding(exists row | row in db.jobs :: row.messageId == messageId,
            exists row | row in db.goals :: row.messageId == messageId)
  }

  /**
   The attempt gets to its commit: it is classified, its handler does not raise, a work goal asks for
   more than nothing, the message has no row of the kind yet, and the process lives that long.
   */
  predicate Commits(handlers: seq<Handler>, script: Script, held: Holding) {
    && script.classification.Some? && !script.handlerRaises && script.dies != Some(BeforeCommit)
    && var result := script.classification.value;
       match DispatchKind(handlers, result)
       case JobPosting => !held.job
       case WorkGoal => !held.goal && (result.workGoal.Some? ==> 0 < result.workGoal.value)
       case UnknownMessage => true
  }

  /** The kinds held once the attempt is over. */
  function HeldAfter(handlers: seq<Handler>, script: Script, held: Holding): Holding {
    if !Commits(handlers, script, held) then held
    else
      match DispatchKind(handlers, script.classification.value)
      case JobPosting => held.(job := true)
      case WorkGoal => held.(goal := true)
      case UnknownMessage => held
  }

  lemma HeldIsDuplicates(db: Db, messageId: int)
    ensures Held(db, messageId).job <==> Duplicates(db, JobPosting, messageId)
    ensures Held(db, messageId).goal <==> Duplicates(db, WorkGoal, messageId)
  {
  }

  /** Whether a dispatched attempt commits, and how it ends, follows from its inputs. */
  lemma DispatchedCommits(handlers: seq<Handler>, i: nat, messageId: int, rowId: nat, script: Script,
                          e: Effects, e': Effects, r: RunResult)
    requires AttemptedVia(handlers, i, messageId, rowId, script, e, e', r)
    ensures var commits := Commits(handlers, script, Held(e.db, messageId));
            && (commits <==> !HandlerFails(e.db, handlers[i], script.classification.value, messageId, script)
                             && script.dies != Some(BeforeCommit))
            && (r == Completed <==> commits && script.dies.None?)
            && (r == Died <==> script.dies.Some? && Commits(handlers, script.(dies := None), Held(e.db, messageId)))
  {
    DispatchKindIsTheFirst(handlers, script.classification.value, i);
    HeldIsDuplicates(e.db, messageId);
  }

  /**
   When an attempt completes, from its inputs alone; and one that does not get to its commit leaves
   everything as it was.
   */
  lemma CompletesExactlyWhen(handlers: seq<Handler>, messageId: int, rowId: nat, script: Script,
                             e: Effects, e': Effects, r: RunResult)
    requires Attempted(handlers, messageId, rowId, script, e, e', r)
    ensures r == Completed <==> Commits(handlers, script, Held(e.db, messageId)) && script.dies.None?
    ensures r == Died <==> script.dies.Some? && Commits(handlers, script.(dies := None), Held(e.db, messageId))
    ensures !Commits(handlers, script, Held(e.db, messageId)) ==> e' == e
  {
    if script.classification.Some? {
      var i: nat :| AttemptedVia(handlers, i, messageId, rowId, script, e, e', r);
      DispatchedCommits(handlers, i, messageId, rowId, script, e, e', r);
    }
  }

  /** The deferred action was performed: the process did not die before it. */
  predicate Acts(script: Script) {
    match script.dies
    case None => true
    case Some(BeforeCommit) => false
    case Some(AfterActions(n)) => 0 < n
  }

  /**
   What an attempt that commits leaves, row by row: the recorded type, its one job or work goal, the
   audits, for a work goal the pairs with those wanted jobs that exist, and its one action's effect.
   */
  lemma CommittedAttemptIsExact(handlers: seq<Handler>, messageId: int, rowId: nat, script: Script,
                                e: Effects, e': Effects, r: RunResult)
    requires Attempted(handlers, messageId, rowId, script, e, e', r) && messageId in e.db.messages
    requires Commits(handlers, script, Held(e.db, messageId))
    ensures var kind := DispatchKind(handlers, script.classification.value);
            && e'.db.messages == e.db.messages[messageId := Some(kind)]
            && e'.db.jobs == e.db.jobs + (if kind == JobPosting then [Row(rowId, messageId)] else [])
            && e'.db.goals == e.db.goals + (if kind == WorkGoal then [Row(rowId, messageId)] else [])
            && e'.db.audits == e.db.audits + [AuditRow(messageId, GptClassified)]
                               + (match kind
                                  case JobPosting => [AuditRow(messageId, JobCreated(rowId))]
                                  case WorkGoal => [AuditRow(messageId, WorkGoalCreated(rowId))]
                                  case UnknownMessage => [])
            && forall m :: m in e'.db.matches <==>
                             || m in e.db.matches
                             || (kind == WorkGoal && m.workGoalId == rowId && m.jobId in script.wanted
                                 && exists row | row in e.db.jobs :: row.id == m.jobId)
    ensures var kind, o := DispatchKind(handlers, script.classification.value), script.outcomes(0);
            var reached := Acts(script) && (o == Done || o.reached);
            && e'.index == e.index + (if kind == JobPosting && reached then {rowId} else {})
            && e'.db.outbox == e.db.outbox + (if kind == JobPosting && Acts(script) && o.Failed? && o.queued then [rowId] else [])
            && e'.replies == e.replies + (if kind != JobPosting && reached then [Reply(messageId, kind)] else [])
  {
    var i: nat :| AttemptedVia(handlers, i, messageId, rowId, script, e, e', r);
    DispatchedCommits(handlers, i, messageId, rowId, script, e, e', r);
    DispatchKindIsTheFirst(handlers, script.classification.value, i);
    var kind := handlers[i].Kind();
    var committed := e.(db := Committed(e.db, StagedFor(kind, messageId, rowId, script.Matched(e.db))));
    var actions := ActionsFor(kind, messageId, rowId);
    assert PerformedAll(committed, actions, script.outcomes, 0) == committed;
    assert Lived(script, 1) == if Acts(script) then 1 else 0;
    assert PerformedAll(committed, actions, script.outcomes, 1) == Performed(committed, actions[0], script.outcomes(0));
  }

  lemma CommittingKeepsConsistent(db: Db, rowId: nat, nextId: nat, kind: MessageType, messageId: int, matched: set<int>)
    requires Consistent(db, rowId) && messageId in db.messages && !Duplicates(db, kind, messageId)
    requires rowId <= nextId && (!kind.UnknownMessage? ==> rowId < nextId)
    requires forall id | id in matched :: HasId(db.jobs, id)
    ensures var db' := Committed(db, StagedFor(kind, messageId, rowId, matched));
            && Consistent(db', nextId)
            && forall action | action in ActionsFor(kind, messageId, rowId) && action.UpsertEmbedding? ::
                 HasId(db'.jobs, action.jobId)
  {
    MoreIdsKeepConsistent(db, rowId, nextId + 1);
    CommitKeepsConsistent(db, nextId + 1, kind, messageId, rowId, matched);
    var s := StagedFor(kind, messageId, rowId, matched);
    if kind.JobPosting? {
      assert s.jobs[0] in Committed(db, s).jobs;
    }
  }
}
