/**
 Attempts of any number of messages, interleaved step by step. Retries may overlap: a timed-out
 attempt can still be running when the next one begins. Staged writes are invisible to others
 except that an uncommitted insert blocks another insert of the same unique key.
 */
module PipelineRuns {
  import opened Wrappers
  import opened MessageStore
  import opened Pipeline

  datatype Phase = Begun | Classified | Staging | Recorded | Delivering | Finished | RolledBack | Died

  /** `kind` is the dispatched handler's, `rowId` and `matched` what it staged, `outcomes` its actions' so far. */
  datatype Attempt = Attempt(
    messageId: int, phase: Phase, kind: MessageType, rowId: int, matched: set<int>, outcomes: seq<Outcome>)
  {
    predicate Holding() { phase.Staging? || phase.Recorded? }

    predicate IsCommitted() { phase.Delivering? || phase.Finished? || phase.Died? }

    /** A row id was drawn for it; the catch-all draws one too here, a gap nobody can see. */
    predicate HasRow() { Holding() || IsCommitted() }

    function Actions(): seq<Action> { ActionsFor(kind, messageId, rowId) }

    function StagedWrites(): Staged { StagedFor(kind, messageId, rowId, matched) }
  }

  /** Ids from `nextId` on are free; the sequence they come from only goes up and may leave gaps. */
  datatype World = World(chain: seq<Handler>, e: Effects, attempts: map<int, Attempt>, nextId: nat)

  datatype Step =
    | Receive(messageId: int)
    | Begin(aid: int, messageId: int)
    | Classify(aid: int, result: Extraction)
    | Handle(aid: int, rowId: nat, matched: set<int>)
    | Record(aid: int)
    | Commit(aid: int)
    | Act(aid: int, o: Outcome)
    | Finish(aid: int)
    | Fail(aid: int)
    | Die(aid: int)

  function AttemptsOf(w: World, messageId: int): set<int> {
    set aid | aid in w.attempts && w.attempts[aid].messageId == messageId
  }

  function CommittedOf(w: World, messageId: int): set<int> {
    set aid | aid in w.attempts && w.attempts[aid].messageId == messageId && w.attempts[aid].IsCommitted()
  }

  /** Another attempt's uncommitted insert holds the unique key. */
  predicate Blocked(w: World, aid: int)
    requires aid in w.attempts
  {
    var a := w.attempts[aid];
    exists other | other in w.attempts ::
      && other != aid && w.attempts[other].Holding() && !a.kind.UnknownMessage?
      && w.attempts[other].kind == a.kind && w.attempts[other].messageId == a.messageId
  }

  predicate Enabled(w: World, s: Step) {
    match s
    case Receive(messageId) => messageId !in w.e.db.messages
    case Begin(aid, messageId) =>
      && aid !in w.attempts && messageId in w.e.db.messages
      && |AttemptsOf(w, messageId)| < PROCESS_MSG_RETRY_MAX_ATTEMPTS
    case Classify(aid, _) => aid in w.attempts && w.attempts[aid].phase.Begun?
    case Handle(aid, rowId, matched) =>
      && aid in w.attempts && w.attempts[aid].phase.Classified? && !Blocked(w, aid) && w.nextId <= rowId
      && !Duplicates(w.e.db, w.attempts[aid].kind, w.attempts[aid].messageId)
      && forall id | id in matched :: HasId(w.e.db.jobs, id)
    case Record(aid) => aid in w.attempts && w.attempts[aid].phase.Staging?
    case Commit(aid) => aid in w.attempts && w.attempts[aid].phase.Recorded?
    case Act(aid, _) =>
      aid in w.attempts && w.attempts[aid].phase.Delivering? && |w.attempts[aid].outcomes| < |w.attempts[aid].Actions()|
    case Finish(aid) =>
      aid in w.attempts && w.attempts[aid].phase.Delivering? && |w.attempts[aid].outcomes| == |w.attempts[aid].Actions()|
    case Fail(aid) =>
      aid in w.attempts && (w.attempts[aid].phase.Begun? || w.attempts[aid].phase.Classified? || w.attempts[aid].Holding())
    case Die(aid) => aid in w.attempts && w.attempts[aid].phase.Delivering?
  }

  function Moved(w: World, aid: int, a: Attempt): World {
    w.(attempts := w.attempts[aid := a])
  }

  function Apply(w: World, s: Step): World
    requires Enabled(w, s)
  {
    match s
    case Receive(messageId) => w.(e := w.e.(db := w.e.db.(messages := w.e.db.messages[messageId := None])))
    case Begin(aid, messageId) => Moved(w, aid, Attempt(messageId, Begun, UnknownMessage, 0, {}, []))
    case Classify(aid, result) =>
      Moved(w, aid, w.attempts[aid].(phase := Classified, kind := DispatchKind(w.chain, result)))
    case Handle(aid, rowId, matched) =>
      Moved(w, aid, w.attempts[aid].(phase := Staging, rowId := rowId, matched := matched)).(nextId := rowId + 1)
    case Record(aid) => Moved(w, aid, w.attempts[aid].(phase := Recorded))
    case Commit(aid) =>
      Moved(w, aid, w.attempts[aid].(phase := Delivering)).(
        e := w.e.(db := Committed(w.e.db, w.attempts[aid].StagedWrites())))
    case Act(aid, o) =>
      var a := w.attempts[aid];
      Moved(w, aid, a.(outcomes := a.outcomes + [o])).(e := Performed(w.e, a.Actions()[|a.outcomes|], o))
    case Finish(aid) => Moved(w, aid, w.attempts[aid].(phase := Finished))
    case Fail(aid) => Moved(w, aid, w.attempts[aid].(phase := RolledBack))
    case Die(aid) => Moved(w, aid, w.attempts[aid].(phase := Phase.Died))
  }

  datatype History = Start(chain: seq<Handler>) | Then(before: History, s: Step)

  predicate Legal(h: History)
    decreases h, 0
  {
    h.Then? ==> Legal(h.before) && Enabled(After(h.before), h.s)
  }

  function After(h: History): World
    requires Legal(h)
    decreases h, 1
  {
    match h
    case Start(chain) => World(chain, Effects(Db(map[], [], [], {}, [], []), {}, []), map[], 0)
    case Then(before, s) => Apply(After(before), s)
  }

  // ---------- the invariant ----------

  /** The attempt's row is committed for its own message. */
  ghost predicate RowIsThere(db: Db, a: Attempt) {
    match a.kind
    case JobPosting => Row(a.rowId, a.messageId) in db.jobs
    case WorkGoal => Row(a.rowId, a.messageId) in db.goals
    case UnknownMessage => true
  }

  /** The action took effect as its outcome says. */
  ghost predicate Delivered(e: Effects, action: Action, o: Outcome) {
    match action
    case UpsertEmbedding(jobId) => (o.TookEffect() ==> jobId in e.index) && (o.WasQueued() ==> jobId in e.db.outbox)
    case SendReply(reply) => o.TookEffect() ==> reply in e.replies
  }

  ghost predicate AttemptOk(e: Effects, nextId: nat, a: Attempt) {
    && a.messageId in e.db.messages
    && |a.outcomes| <= |a.Actions()|
    && (!a.IsCommitted() ==> a.outcomes == [])
    && (a.phase.Finished? ==> |a.outcomes| == |a.Actions()|)
    && (a.Holding() ==>
          && !Duplicates(e.db, a.kind, a.messageId)
          && a.rowId < nextId && !HasId(e.db.jobs, a.rowId) && !HasId(e.db.goals, a.rowId)
          && forall id | id in a.matched :: HasId(e.db.jobs, id))
    && (a.IsCommitted() ==>
          && RowIsThere(e.db, a) && a.rowId < nextId
          && e.db.messages[a.messageId].Some?
          && forall i | 0 <= i < |a.outcomes| :: Delivered(e, a.Actions()[i], a.outcomes[i]))
  }

  /** Rows have different ids; two open inserts never hold the same unique key. */
  ghost predicate Apart(a: Attempt, b: Attempt) {
    a.HasRow() && b.HasRow() ==>
      && a.rowId != b.rowId
      && (a.Holding() && b.Holding() && a.kind == b.kind && !a.kind.UnknownMessage? ==> a.messageId != b.messageId)
  }

  ghost predicate AttemptsOk(w: World) {
    && (forall aid | aid in w.attempts :: AttemptOk(w.e, w.nextId, w.attempts[aid]))
    && (forall x, y | x in w.attempts && y in w.attempts && x != y :: Apart(w.attempts[x], w.attempts[y]))
  }

  ghost predicate Counted(w: World) {
    && (forall m :: Classifications(w.e.db.audits, m) == |CommittedOf(w, m)|)
    && (forall m :: |AttemptsOf(w, m)| <= PROCESS_MSG_RETRY_MAX_ATTEMPTS)
  }

  ghost predicate StoreOk(w: World) {
    Consistent(w.e.db, w.nextId) && forall id | id in w.e.index :: HasId(w.e.db.jobs, id)
  }

  ghost predicate Inv(w: World) {
    StoreOk(w) && AttemptsOk(w) && Counted(w)
  }

  // ---------- what a step leaves alone ----------

  /** Same rows, same or more of everything else. */
  ghost predicate OnlyGrew(e: Effects, e': Effects) {
    && e'.db.jobs == e.db.jobs && e'.db.goals == e.db.goals && e'.db.audits == e.db.audits
    && (forall m | m in e.db.messages :: m in e'.db.messages && e'.db.messages[m] == e.db.messages[m])
    && e.db.outbox <= e'.db.outbox && e.index <= e'.index && e.replies <= e'.replies
  }

  lemma AttemptStaysOk(e: Effects, e': Effects, nextId: nat, nextId': nat, a: Attempt)
    requires AttemptOk(e, nextId, a) && OnlyGrew(e, e') && nextId <= nextId'
    ensures AttemptOk(e', nextId', a)
  {
  }

  /** A step that moves one attempt and only grows the rest keeps the others in order. */
  lemma OthersStay(w: World, w': World, aid: int, a: Attempt)
    requires AttemptsOk(w) && OnlyGrew(w.e, w'.e) && w.nextId <= w'.nextId
    requires w'.attempts == w.attempts[aid := a] && AttemptOk(w'.e, w'.nextId, a)
    requires forall x | x in w.attempts && x != aid :: Apart(a, w.attempts[x]) && Apart(w.attempts[x], a)
    ensures AttemptsOk(w')
  {
    forall x | x in w'.attempts
      ensures AttemptOk(w'.e, w'.nextId, w'.attempts[x])
    {
      if x != aid {
        AttemptStaysOk(w.e, w'.e, w.nextId, w'.nextId, w.attempts[x]);
      }
    }
  }

  /** Moving an attempt that stays as committed as it was changes no count. */
  lemma CountsStay(w: World, w': World, aid: int, a: Attempt)
    requires Counted(w) && aid in w.attempts && w'.attempts == w.attempts[aid := a]
    requires a.messageId == w.attempts[aid].messageId && a.IsCommitted() == w.attempts[aid].IsCommitted()
    requires w'.e.db.audits == w.e.db.audits
    ensures Counted(w')
  {
    forall m
      ensures AttemptsOf(w', m) == AttemptsOf(w, m) && CommittedOf(w', m) == CommittedOf(w, m)
    {
    }
  }

  lemma ReceiveKeepsInv(w: World, messageId: int)
    requires Inv(w) && Enabled(w, Receive(messageId))
    ensures Inv(Apply(w, Receive(messageId)))
  {
    var w' := Apply(w, Receive(messageId));
    forall x | x in w'.attempts
      ensures AttemptOk(w'.e, w'.nextId, w'.attempts[x])
    {
      AttemptStaysOk(w.e, w'.e, w.nextId, w'.nextId, w.attempts[x]);
    }
    forall m
      ensures CommittedOf(w', m) == CommittedOf(w, m) && AttemptsOf(w', m) == AttemptsOf(w, m)
    {
    }
    assert AllClassified(w'.e.db, w'.e.db.jobs) && AllClassified(w'.e.db, w'.e.db.goals);
  }

  lemma BeginCounts(w: World, aid: int, messageId: int)
    requires Counted(w) && Enabled(w, Begin(aid, messageId))
    ensures Counted(Apply(w, Begin(aid, messageId)))
  {
    var w' := Apply(w, Begin(aid, messageId));
    forall m
      ensures CommittedOf(w', m) == CommittedOf(w, m) && |AttemptsOf(w', m)| <= PROCESS_MSG_RETRY_MAX_ATTEMPTS
    {
      BeginCommitsNothing(w, aid, messageId, m);
      BeginJoins(w, aid, messageId, m);
    }
  }

  lemma BeginCommitsNothing(w: World, aid: int, messageId: int, m: int)
    requires Enabled(w, Begin(aid, messageId))
    ensures CommittedOf(Apply(w, Begin(aid, messageId)), m) == CommittedOf(w, m)
  {
  }

  lemma BeginJoins(w: World, aid: int, messageId: int, m: int)
    requires Enabled(w, Begin(aid, messageId))
    ensures AttemptsOf(Apply(w, Begin(aid, messageId)), m) == AttemptsOf(w, m) + if m == messageId then {aid} else {}
  {
  }

  lemma BeginKeepsInv(w: World, aid: int, messageId: int)
    requires Inv(w) && Enabled(w, Begin(aid, messageId))
    ensures Inv(Apply(w, Begin(aid, messageId)))
  {
    var w' := Apply(w, Begin(aid, messageId));
    OthersStay(w, w', aid, w'.attempts[aid]);
    BeginCounts(w, aid, messageId);
  }

  /** Steps that move one attempt between phases without committing or acting. */
  lemma QuietStepKeepsInv(w: World, s: Step)
    requires Inv(w) && Enabled(w, s)
    requires s.Classify? || s.Record? || s.Finish? || s.Fail? || s.Die?
    ensures Inv(Apply(w, s)) && Apply(w, s).e == w.e
  {
    var w' := Apply(w, s);
    MovedIsOk(w, s);
    OthersStay(w, w', s.aid, w'.attempts[s.aid]);
    CountsStay(w, w', s.aid, w'.attempts[s.aid]);
  }

  lemma MovedIsOk(w: World, s: Step)
    requires AttemptsOk(w) && Enabled(w, s)
    requires s.Classify? || s.Record? || s.Finish? || s.Fail? || s.Die?
    ensures var a := Apply(w, s).attempts[s.aid];
            && AttemptOk(w.e, w.nextId, a)
            && forall x | x in w.attempts && x != s.aid :: Apart(a, w.attempts[x]) && Apart(w.attempts[x], a)
  {
    assert AttemptOk(w.e, w.nextId, w.attempts[s.aid]);
    forall x | x in w.attempts && x != s.aid
      ensures Apart(Apply(w, s).attempts[s.aid], w.attempts[x]) && Apart(w.attempts[x], Apply(w, s).attempts[s.aid])
    {
      assert Apart(w.attempts[s.aid], w.attempts[x]) && Apart(w.attempts[x], w.attempts[s.aid]);
    }
  }

  lemma IdIsNew(rows: seq<Row>, nextId: nat, id: nat)
    requires Keyed(rows, nextId) && nextId <= id
    ensures !HasId(rows, id)
  {
  }

  lemma HandledIsApart(w: World, aid: int, rowId: nat, matched: set<int>, x: int)
    requires AttemptsOk(w) && Enabled(w, Handle(aid, rowId, matched)) && x in w.attempts && x != aid
    ensures var a := Apply(w, Handle(aid, rowId, matched)).attempts[aid];
            Apart(a, w.attempts[x]) && Apart(w.attempts[x], a)
  {
    assert AttemptOk(w.e, w.nextId, w.attempts[x]);
  }

  lemma HandleKeepsInv(w: World, aid: int, rowId: nat, matched: set<int>)
    requires Inv(w) && Enabled(w, Handle(aid, rowId, matched))
    ensures Inv(Apply(w, Handle(aid, rowId, matched)))
  {
    var w' := Apply(w, Handle(aid, rowId, matched));
    MoreIdsKeepConsistent(w.e.db, w.nextId, w'.nextId);
    IdIsNew(w.e.db.jobs, w.nextId, rowId);
    IdIsNew(w.e.db.goals, w.nextId, rowId);
    assert AttemptOk(w.e, w.nextId, w.attempts[aid]);
    forall x | x in w.attempts && x != aid
      ensures Apart(w'.attempts[aid], w.attempts[x]) && Apart(w.attempts[x], w'.attempts[aid])
    {
      HandledIsApart(w, aid, rowId, matched, x);
    }
    OthersStay(w, w', aid, w'.attempts[aid]);
    CountsStay(w, w', aid, w'.attempts[aid]);
  }

  /** An action changes only the outbox, the index and the replies, and takes effect as its outcome says. */
  lemma ActionOnlyGrows(e: Effects, action: Action, o: Outcome)
    ensures OnlyGrew(e, Performed(e, action, o)) && Delivered(Performed(e, action, o), action, o)
  {
  }

  lemma ActKeepsStore(w: World, aid: int, o: Outcome)
    requires StoreOk(w) && Enabled(w, Act(aid, o)) && RowIsThere(w.e.db, w.attempts[aid])
    ensures StoreOk(Apply(w, Act(aid, o)))
  {
    var a := w.attempts[aid];
    if a.kind.JobPosting? {
      assert HasId(w.e.db.jobs, a.rowId) by {
        assert Row(a.rowId, a.messageId) in w.e.db.jobs;
      }
      QueueKeepsConsistent(w.e.db, w.nextId, a.rowId);
    }
  }

  lemma ActedIsOk(w: World, aid: int, o: Outcome)
    requires AttemptsOk(w) && Enabled(w, Act(aid, o))
    ensures AttemptOk(Apply(w, Act(aid, o)).e, w.nextId, Apply(w, Act(aid, o)).attempts[aid])
  {
    var a, w' := w.attempts[aid], Apply(w, Act(aid, o));
    assert AttemptOk(w.e, w.nextId, a);
    ActionOnlyGrows(w.e, a.Actions()[|a.outcomes|], o);
    AttemptStaysOk(w.e, w'.e, w.nextId, w.nextId, a);
  }

  lemma ActKeepsInv(w: World, aid: int, o: Outcome)
    requires Inv(w) && Enabled(w, Act(aid, o))
    ensures Inv(Apply(w, Act(aid, o)))
  {
    var a, w' := w.attempts[aid], Apply(w, Act(aid, o));
    assert AttemptOk(w.e, w.nextId, a);
    ActKeepsStore(w, aid, o);
    ActionOnlyGrows(w.e, a.Actions()[|a.outcomes|], o);
    ActedIsOk(w, aid, o);
    forall x | x in w.attempts && x != aid
      ensures Apart(w'.attempts[aid], w.attempts[x]) && Apart(w.attempts[x], w'.attempts[aid])
    {
      assert Apart(a, w.attempts[x]) && Apart(w.attempts[x], a);
    }
    OthersStay(w, w', aid, w'.attempts[aid]);
    CountsStay(w, w', aid, w'.attempts[aid]);
  }

  // ---------- the commit ----------

  lemma CommitKeepsOther(e: Effects, nextId: nat, a: Attempt, b: Attempt)
    requires AttemptOk(e, nextId, a) && a.Holding() && AttemptOk(e, nextId, b) && Apart(a, b)
    ensures AttemptOk(e.(db := Committed(e.db, a.StagedWrites())), nextId, b)
  {
    RowsKeepTheirIds(e.db, a.StagedWrites());
  }

  lemma CommitKeepsOwn(e: Effects, nextId: nat, a: Attempt)
    requires AttemptOk(e, nextId, a) && a.Holding()
    ensures AttemptOk(e.(db := Committed(e.db, a.StagedWrites())), nextId, a.(phase := Delivering))
  {
    var s := a.StagedWrites();
    if a.kind.JobPosting? {
      assert s.jobs[0] in Committed(e.db, s).jobs;
    }
    if a.kind.WorkGoal? {
      assert s.goals[0] in Committed(e.db, s).goals;
    }
  }

  lemma CommitCounts(w: World, aid: int)
    requires Counted(w) && Enabled(w, Commit(aid))
    ensures Counted(Apply(w, Commit(aid)))
  {
    var a, w' := w.attempts[aid], Apply(w, Commit(aid));
    forall m
      ensures Classifications(w'.e.db.audits, m) == |CommittedOf(w', m)| && AttemptsOf(w', m) == AttemptsOf(w, m)
    {
      StagedAudits(w.e.db.audits, a.kind, a.messageId, a.rowId, a.matched, m);
      CommitJoins(w, aid, m);
    }
  }

  lemma CommitJoins(w: World, aid: int, m: int)
    requires Enabled(w, Commit(aid))
    ensures var w' := Apply(w, Commit(aid));
            && AttemptsOf(w', m) == AttemptsOf(w, m) && aid !in CommittedOf(w, m)
            && CommittedOf(w', m) == CommittedOf(w, m) + if m == w.attempts[aid].messageId then {aid} else {}
  {
  }

  lemma CommitKeepsAttempts(w: World, aid: int)
    requires AttemptsOk(w) && Enabled(w, Commit(aid))
    ensures AttemptsOk(Apply(w, Commit(aid)))
  {
    var a, w' := w.attempts[aid], Apply(w, Commit(aid));
    CommitKeepsOwn(w.e, w.nextId, a);
    forall x | x in w'.attempts && x != aid
      ensures AttemptOk(w'.e, w'.nextId, w'.attempts[x])
      ensures Apart(w'.attempts[aid], w'.attempts[x]) && Apart(w'.attempts[x], w'.attempts[aid])
    {
      assert Apart(a, w.attempts[x]) && Apart(w.attempts[x], a);
      CommitKeepsOther(w.e, w.nextId, a, w.attempts[x]);
    }
  }

  lemma CommitKeepsStore(w: World, aid: int)
    requires StoreOk(w) && AttemptsOk(w) && Enabled(w, Commit(aid))
    ensures StoreOk(Apply(w, Commit(aid)))
  {
    var a := w.attempts[aid];
    assert AttemptOk(w.e, w.nextId, a);
    CommitKeepsConsistent(w.e.db, w.nextId, a.kind, a.messageId, a.rowId, a.matched);
    RowsKeepTheirIds(w.e.db, a.StagedWrites());
  }

  lemma CommitKeepsInv(w: World, aid: int)
    requires Inv(w) && Enabled(w, Commit(aid))
    ensures Inv(Apply(w, Commit(aid)))
  {
    CommitKeepsStore(w, aid);
    CommitKeepsAttempts(w, aid);
    CommitCounts(w, aid);
  }

  lemma StepKeepsInv(w: World, s: Step)
    requires Inv(w) && Enabled(w, s)
    ensures Inv(Apply(w, s))
  {
    match s
    case Receive(messageId) => ReceiveKeepsInv(w, messageId);
    case Begin(aid, messageId) => BeginKeepsInv(w, aid, messageId);
    case Handle(aid, rowId, matched) => HandleKeepsInv(w, aid, rowId, matched);
    case Commit(aid) => CommitKeepsInv(w, aid);
    case Act(aid, o) => ActKeepsInv(w, aid, o);
    case _ => QuietStepKeepsInv(w, s);
  }

  lemma {:induction false} InvHolds(h: History)
    requires Legal(h)
    ensures Inv(After(h))
  {
    if h.Then? {
      InvHolds(h.before);
      StepKeepsInv(After(h.before), h.s);
    } else {
      forall m
        ensures CommittedOf(After(h), m) == {} && AttemptsOf(After(h), m) == {}
      {
      }
    }
  }

  // ---------- over whole runs ----------

  /**
   UNIQUE is guard enough: over every run a message has at most one job and one work goal, the
   creation audits are the rows they announce, and every row's message is classified.
   */
  lemma StoreIsConsistent(h: History)
    requires Legal(h)
    ensures Consistent(After(h).e.db, After(h).nextId)
  {
    InvHolds(h);
  }

  /** Each committed attempt leaves one classification audit, so a message has at most four. */
  lemma ClassifiedOncePerCommit(h: History, messageId: int)
    requires Legal(h)
    ensures Classifications(After(h).e.db.audits, messageId) == |CommittedOf(After(h), messageId)|
    ensures |CommittedOf(After(h), messageId)| <= 4
  {
    InvHolds(h);
    var w := After(h);
    assert CommittedOf(w, messageId) <= AttemptsOf(w, messageId);
    SubsetIsNoLarger(CommittedOf(w, messageId), AttemptsOf(w, messageId));
  }

  lemma SubsetIsNoLarger(a: set<int>, b: set<int>)
    requires a <= b
    ensures |a| <= |b|
  {
    assert b == a + (b - a);
  }

  /**
   Among all attempts of a message at most one commits as a job posting and at most one as a work goal.
   */
  lemma OneCommitPerKind(h: History, x: int, y: int)
    requires Legal(h) && x in After(h).attempts && y in After(h).attempts && x != y
    requires After(h).attempts[x].IsCommitted() && After(h).attempts[y].IsCommitted()
    requires After(h).attempts[x].messageId == After(h).attempts[y].messageId
    ensures After(h).attempts[x].kind != After(h).attempts[y].kind || After(h).attempts[x].kind.UnknownMessage?
  {
    InvHolds(h);
    var w := After(h);
    var a, b := w.attempts[x], w.attempts[y];
    assert Apart(a, b) && AttemptOk(w.e, w.nextId, a) && AttemptOk(w.e, w.nextId, b);
    OneRowPerMessage(w.e.db, w.nextId, Row(a.rowId, a.messageId), Row(b.rowId, b.messageId));
  }

  /**
   A finished job posting has its job committed and in the index or the outbox, unless both the write
   and the enqueue failed, in which case the job is committed all the same.
   */
  lemma FinishedPostingIsIndexedOrQueued(h: History, aid: int)
    requires Legal(h) && aid in After(h).attempts
    requires After(h).attempts[aid].phase.Finished? && After(h).attempts[aid].kind.JobPosting?
    ensures var e, a := After(h).e, After(h).attempts[aid];
            && Row(a.rowId, a.messageId) in e.db.jobs
            && |a.outcomes| == 1
            && (a.outcomes[0] != Failed(false, false) ==> a.rowId in e.index || a.rowId in e.db.outbox)
  {
    InvHolds(h);
    assert AttemptOk(After(h).e, After(h).nextId, After(h).attempts[aid]);
  }

  /** Once a message's row exists, no later attempt gets past the insert of another of its kind. */
  lemma RetryCannotRepeatACommit(h: History, done: int, retry: int, rowId: nat, matched: set<int>)
    requires Legal(h) && done in After(h).attempts && retry in After(h).attempts
    requires After(h).attempts[done].IsCommitted() && !After(h).attempts[done].kind.UnknownMessage?
    requires After(h).attempts[retry].messageId == After(h).attempts[done].messageId
    requires After(h).attempts[retry].kind == After(h).attempts[done].kind
    ensures !Enabled(After(h), Handle(retry, rowId, matched))
  {
    InvHolds(h);
    var w, a := After(h), After(h).attempts[done];
    assert AttemptOk(w.e, w.nextId, a);
  }

  // ---------- the uninterrupted attempt is one of the runs ----------

  predicate Extends(h: History, from: History) {
    h == from || (h.Then? && Extends(h.before, from))
  }

  /** The attempt has been classified by the handler at `i` and nothing else has moved since `h`. */
  ghost predicate JustClassified(h: History, h': History, aid: int, messageId: int, i: nat)
    requires Legal(h) && Legal(h')
  {
    var w, w' := After(h), After(h');
    && Extends(h', h) && i < |w.chain|
    && w' == w.(attempts := w.attempts[aid := Attempt(messageId, Classified, w.chain[i].Kind(), 0, {}, [])])
  }

  lemma ClassifyingIsARun(h: History, aid: int, messageId: int, result: Extraction, i: nat) returns (h': History)
    requires Legal(h) && Enabled(After(h), Begin(aid, messageId)) && FirstToAccept(After(h).chain, result, i)
    ensures Legal(h') && JustClassified(h, h', aid, messageId, i)
  {
    DispatchKindIsTheFirst(After(h).chain, result, i);
    var begun := Then(h, Begin(aid, messageId));
    h' := Then(begun, Classify(aid, result));
    assert Extends(begun, h);
  }

  /** Nobody is between inserting the row of this kind for the message and committing it. */
  ghost predicate KeyIsFree(w: World, messageId: int, kind: MessageType) {
    forall aid | aid in w.attempts && w.attempts[aid].Holding() && w.attempts[aid].messageId == messageId ::
      w.attempts[aid].kind != kind || kind.UnknownMessage?
  }

  lemma CommittingIsARun(h: History, classified: History, aid: int, messageId: int, i: nat, matched: set<int>)
    returns (h': History)
    requires Legal(h) && Legal(classified) && JustClassified(h, classified, aid, messageId, i)
    requires KeyIsFree(After(h), messageId, After(h).chain[i].Kind()) && !Duplicates(After(h).e.db, After(h).chain[i].Kind(), messageId)
    requires forall id | id in matched :: HasId(After(h).e.db.jobs, id)
    ensures Legal(h') && Extends(h', h) && aid in After(h').attempts
    ensures var w, w' := After(h), After(h');
            var kind := w.chain[i].Kind();
            && w'.attempts[aid] == Attempt(messageId, Delivering, kind, w.nextId, matched, [])
            && w'.e == w.e.(db := Committed(w.e.db, StagedFor(kind, messageId, w.nextId, matched)))
  {
    var w, kind := After(h), After(h).chain[i].Kind();
    assert Enabled(After(classified), Handle(aid, w.nextId, matched));
    var handled := Then(classified, Handle(aid, w.nextId, matched));
    assert After(handled).e == w.e;
    assert After(handled).attempts[aid] == Attempt(messageId, Staging, kind, w.nextId, matched, []);
    var recorded := Then(handled, Record(aid));
    assert After(recorded).e == w.e;
    assert After(recorded).attempts[aid] == Attempt(messageId, Recorded, kind, w.nextId, matched, []);
    h' := Then(recorded, Commit(aid));
    assert Extends(handled, h) && Extends(recorded, h);
  }

  lemma {:induction false} ActingIsARun(h: History, from: History, aid: int, outcomes: nat -> Outcome, n: nat)
    returns (h': History)
    requires Legal(h) && Extends(h, from) && aid in After(h).attempts && After(h).attempts[aid].phase.Delivering?
    requires After(h).attempts[aid].outcomes == [] && n <= |After(h).attempts[aid].Actions()|
    ensures Legal(h') && Extends(h', from) && aid in After(h').attempts
    ensures var a, a' := After(h).attempts[aid], After(h').attempts[aid];
            && a' == a.(outcomes := a'.outcomes) && |a'.outcomes| == n
            && After(h').e == PerformedAll(After(h).e, a.Actions(), outcomes, n)
  {
    if n == 0 {
      h' := h;
    } else {
      var before := ActingIsARun(h, from, aid, outcomes, n - 1);
      h' := Then(before, Act(aid, outcomes(n - 1)));
    }
  }

  /** How an attempt that ends with `r` stands in the run. */
  predicate EndsAs(r: RunResult, phase: Phase) {
    match r
    case Completed => phase.Finished?
    case Raised => phase.RolledBack?
    case Died => phase.RolledBack? || phase.Died?
  }

  lemma DispatchedAttemptIsARun(h: History, aid: int, messageId: int, i: nat, script: Script, e': Effects, r: RunResult)
    returns (h': History)
    requires Legal(h) && Enabled(After(h), Begin(aid, messageId))
    requires i < |After(h).chain| && (r != Raised ==> KeyIsFree(After(h), messageId, After(h).chain[i].Kind()))
    requires AttemptedVia(After(h).chain, i, messageId, After(h).nextId, script, After(h).e, e', r)
    ensures Legal(h') && Extends(h', h) && After(h').e == e'
    ensures aid in After(h').attempts && EndsAs(r, After(h').attempts[aid].phase)
  {
    var w := After(h);
    var result := script.classification.value;
    var classified := ClassifyingIsARun(h, aid, messageId, result, i);
    if HandlerFails(w.e.db, w.chain[i], result, messageId, script) || script.dies == Some(BeforeCommit) {
      h' := Then(classified, Fail(aid));
    } else {
      var committed := CommittingIsARun(h, classified, aid, messageId, i, script.Matched(w.e.db));
      var actions := After(committed).attempts[aid].Actions();
      var acted := ActingIsARun(committed, h, aid, script.outcomes, Lived(script, |actions|));
      h' := Then(acted, if script.dies.Some? then Die(aid) else Finish(aid));
    }
  }

  /**
   The orchestrator's uninterrupted attempt is one of the runs: whatever `PipelineOrchestrator.Run`
   may do from a reachable world is what some sequence of this attempt's steps does. Other attempts may
   stand anywhere, except that one with the same key between insert and commit would make it wait.
   */
  lemma AttemptIsARun(h: History, aid: int, messageId: int, script: Script, e': Effects, r: RunResult)
    returns (h': History)
    requires Legal(h) && Enabled(After(h), Begin(aid, messageId))
    requires script.classification.Some? && r != Raised ==>
               KeyIsFree(After(h), messageId, DispatchKind(After(h).chain, script.classification.value))
    requires Attempted(After(h).chain, messageId, After(h).nextId, script, After(h).e, e', r)
    ensures Legal(h') && Extends(h', h) && After(h').e == e'
    ensures aid in After(h').attempts && EndsAs(r, After(h').attempts[aid].phase)
  {
    if script.classification.None? {
      var begun := Then(h, Begin(aid, messageId));
      h' := Then(begun, Fail(aid));
      assert Extends(begun, h);
    } else {
      var w := After(h);
      var i: nat :| AttemptedVia(w.chain, i, messageId, w.nextId, script, w.e, e', r);
      DispatchKindIsTheFirst(w.chain, script.classification.value, i);
      h' := DispatchedAttemptIsARun(h, aid, messageId, i, script, e', r);
    }
  }

  // ---------- what never committed never happened ----------

  /** The run without the steps of one attempt. */
  function Without(h: History, aid: int): History {
    match h
    case Start(_) => h
    case Then(before, s) =>
      if !s.Receive? && s.aid == aid then Without(before, aid) else Then(Without(before, aid), s)
  }

  /** The same world to everybody but the attempt, which is not in it; it may have drawn an id. */
  ghost predicate SameWithout(w: World, w': World, aid: int) {
    w' == w.(attempts := w.attempts - {aid}, nextId := w'.nextId) && w'.nextId <= w.nextId
  }

  lemma StepWithout(w: World, w': World, aid: int, s: Step)
    requires SameWithout(w, w', aid) && Enabled(w, s) && (s.Receive? || s.aid != aid)
    ensures Enabled(w', s) && SameWithout(Apply(w, s), Apply(w', s), aid)
  {
    if s.Begin? {
      assert AttemptsOf(w', s.messageId) <= AttemptsOf(w, s.messageId);
      SubsetIsNoLarger(AttemptsOf(w', s.messageId), AttemptsOf(w, s.messageId));
    }
    assert Apply(w', s).attempts == Apply(w, s).attempts - {aid};
  }

  lemma OwnStepIsInvisible(w: World, w': World, aid: int, s: Step)
    requires SameWithout(w, w', aid) && Enabled(w, s) && !s.Receive? && s.aid == aid
    requires !Apply(w, s).attempts[aid].IsCommitted()
    ensures SameWithout(Apply(w, s), w', aid) && (aid in w.attempts ==> !w.attempts[aid].IsCommitted())
  {
    assert Apply(w, s).attempts - {aid} == w.attempts - {aid};
  }

  /** Commits are never taken back. */
  lemma StaysCommitted(w: World, aid: int, s: Step)
    requires Enabled(w, s) && aid in w.attempts && w.attempts[aid].IsCommitted()
    ensures aid in Apply(w, s).attempts && Apply(w, s).attempts[aid].IsCommitted()
  {
  }

  /**
   No effect without a commit, over whole runs: take an attempt that has not committed, whether it
   failed or still stands, out of the run, and everyone else could still have done all they did, with
   the same store, the same index, the same queue and the same replies in the end.
   */
  lemma {:induction false} UncommittedLeavesNoTrace(h: History, aid: int)
    requires Legal(h) && (aid in After(h).attempts ==> !After(h).attempts[aid].IsCommitted())
    ensures Legal(Without(h, aid)) && SameWithout(After(h), After(Without(h, aid)), aid)
    ensures After(Without(h, aid)).e == After(h).e
  {
    if h.Then? {
      var w := After(h.before);
      if aid in w.attempts && w.attempts[aid].IsCommitted() {
        StaysCommitted(w, aid, h.s);
      }
      UncommittedLeavesNoTrace(h.before, aid);
      if h.s.Receive? || h.s.aid != aid {
        StepWithout(w, After(Without(h.before, aid)), aid, h.s);
      } else {
        OwnStepIsInvisible(w, After(Without(h.before, aid)), aid, h.s);
      }
    }
  }
}
