/**
 The pipeline and the sweeps together: attempts of messages write to the vector index and the queue,
 sweeps empty the queue into the same index, all interleaved. What an attempt's action does to the
 index and the queue are steps of the queue's world.
 */
module EmbeddingRuns {
  import opened MessageStore
  import opened Pipeline
  import opened SyncQueue
  import PipelineEffects
  import P = PipelineRuns
  import Q = SyncQueueRuns

  /** `p.e.index` and `p.e.db.outbox` are what attempts have put into the index and the queue of `q`. */
  datatype World = World(p: P.World, q: Q.World)

  datatype Step = OfAttempt(s: P.Step) | OfSweep(t: Q.Step)

  /** The index and the queue after a deferred action. */
  function AfterAction(q: Q.World, action: Action, o: Outcome): Q.World {
    match action
    case UpsertEmbedding(jobId) =>
      var written := if o.TookEffect() then Q.Apply(q, Q.Upsert(jobId)) else q;
      if o.WasQueued() then Q.Apply(written, Q.Enqueue(jobId)) else written
    case SendReply(_) => q
  }

  predicate Enabled(w: World, s: Step) {
    match s
    case OfAttempt(s) => P.Enabled(w.p, s)
    case OfSweep(t) => !t.Enqueue? && !t.Upsert? && Q.Enabled(w.q, t)
  }

  function Apply(w: World, s: Step): World
    requires Enabled(w, s)
  {
    match s
    case OfAttempt(s) =>
      var q := if s.Act? then AfterAction(w.q, w.p.attempts[s.aid].Actions()[|w.p.attempts[s.aid].outcomes|], s.o) else w.q;
      World(P.Apply(w.p, s), q)
    case OfSweep(t) => World(w.p, Q.Apply(w.q, t))
  }

  datatype History = Start(chain: seq<Handler>) | Then(before: History, s: Step)

  predicate Legal(h: History)
    decreases h, 0
  {
    h.Then? ==> Legal(h.before) && Enabled(After(h.before), h.s)
  }

  function After(h: History): World
    requires Legal(h)
    decreases h, 1
  {
    match h
    case Start(chain) => World(P.After(P.Start(chain)), Q.After(Q.Start))
    case Then(before, s) => Apply(After(before), s)
  }

  lemma AfterActionIsARun(q: Q.History, action: Action, o: Outcome) returns (q': Q.History)
    requires Q.Legal(q)
    ensures Q.Legal(q') && Q.After(q') == AfterAction(Q.After(q), action, o)
  {
    q' := q;
    if action.UpsertEmbedding? && o.TookEffect() {
      q' := Q.Then(q', Q.Upsert(action.jobId));
    }
    if action.UpsertEmbedding? && o.WasQueued() {
      q' := Q.Then(q', Q.Enqueue(action.jobId));
    }
  }

  /** Seen from either side the joint run is one of that side's runs, so all they keep is kept here. */
  lemma {:induction false} ProjectsOntoRuns(h: History) returns (p: P.History, q: Q.History)
    requires Legal(h)
    ensures P.Legal(p) && P.After(p) == After(h).p
    ensures Q.Legal(q) && Q.After(q) == After(h).q
  {
    match h
    case Start(chain) =>
      p, q := P.Start(chain), Q.Start;
    case Then(before, s) =>
      p, q := ProjectsOntoRuns(before);
      var w := After(before);
      match s
      case OfAttempt(s) =>
        p := P.Then(p, s);
        if s.Act? {
          q := AfterActionIsARun(q, w.p.attempts[s.aid].Actions()[|w.p.attempts[s.aid].outcomes|], s.o);
        }
      case OfSweep(t) =>
        q := Q.Then(q, t);
  }

  // ---------- the two sides agree ----------

  /** The queue's entries are the jobs attempts queued, in order; the index holds what attempts and sweeps wrote. */
  ghost predicate Linked(w: World) {
    && |w.q.rows| == |w.p.e.db.outbox|
    && (forall id: nat | id < |w.q.rows| :: w.q.rows[id].jobId == w.p.e.db.outbox[id])
    && w.p.e.index <= w.q.index
    && (forall id | id in w.q.index :: id in w.p.e.index || id in w.p.e.db.outbox)
  }

  lemma AttemptKeepsLinks(w: World, s: P.Step)
    requires Linked(w) && P.Enabled(w.p, s)
    ensures Linked(Apply(w, OfAttempt(s)))
  {
  }

  lemma SweepKeepsLinks(w: World, t: Q.Step)
    requires Linked(w) && Q.Inv(w.q) && Enabled(w, OfSweep(t))
    ensures Linked(Apply(w, OfSweep(t)))
  {
    Q.StepEvolves(w.q, t);
    if t.TryNext? {
      var sweep, i := w.q.sweeps[t.sid], |w.q.sweeps[t.sid].writes|;
      assert Q.SweepOk(w.q, sweep);
      assert sweep.entries[i].jobId == w.p.e.db.outbox[sweep.claimed[i]];
    }
  }

  lemma {:induction false} LinksHold(h: History)
    requires Legal(h)
    ensures Linked(After(h)) && P.Inv(After(h).p) && Q.Inv(After(h).q)
  {
    var p, q := ProjectsOntoRuns(h);
    P.InvHolds(p);
    Q.InvHolds(q);
    if h.Then? {
      LinksHold(h.before);
      match h.s
      case OfAttempt(s) => AttemptKeepsLinks(After(h.before), s);
      case OfSweep(t) => SweepKeepsLinks(After(h.before), t);
    }
  }

  // ---------- from the posting to the index ----------

  /** The job waits in the queue, or its entry says why it could not be indexed. */
  ghost predicate PendingOrFailed(q: Q.World, jobId: int) {
    exists id: nat :: id < |q.rows| && q.rows[id].jobId == jobId &&
      (q.rows[id].status.Pending? || (q.rows[id].status.Failed? && q.rows[id].lastError.Some?))
  }

  lemma QueuedIsSettled(w: World, jobId: int)
    requires Linked(w) && Q.Inv(w.q) && jobId in w.p.e.db.outbox
    ensures jobId in w.q.index || PendingOrFailed(w.q, jobId)
  {
    var id: nat :| id < |w.p.e.db.outbox| && w.p.e.db.outbox[id] == jobId;
    assert Q.Settled(w.q.rows[id], w.q.index);
  }

  /**
   End to end, with sweeps interleaved: the job of a finished posting is committed, and it is in the
   index, or its queue entry is pending or failed with an error, if and only if not both its write
   and its enqueue failed. In that one case nothing ever brings it into the index or the queue.
   */
  lemma PostingIsLostExactlyWhenBothFail(h: History, aid: int)
    requires Legal(h) && aid in After(h).p.attempts
    requires After(h).p.attempts[aid].phase.Finished? && After(h).p.attempts[aid].kind.JobPosting?
    ensures var w, a := After(h), After(h).p.attempts[aid];
            && Row(a.rowId, a.messageId) in w.p.e.db.jobs && |a.outcomes| == 1
            && (a.outcomes[0] != Outcome.Failed(false, false) <==>
                a.rowId in w.q.index || PendingOrFailed(w.q, a.rowId))
  {
    LinksHold(h);
    var w, a := After(h), After(h).p.attempts[aid];
    var p, q := ProjectsOntoRuns(h);
    P.FinishedPostingIsIndexedOrQueued(p, aid);
    PipelineEffects.FinishedHasDelivered(p, aid);
    if a.rowId in w.p.e.db.outbox {
      QueuedIsSettled(w, a.rowId);
    }
    if PendingOrFailed(w.q, a.rowId) {
      var id: nat :| id < |w.q.rows| && w.q.rows[id].jobId == a.rowId;
      assert w.p.e.db.outbox[id] == a.rowId;
    }
  }

  /** Whoever wrote them, vectors and queue entries are those of committed jobs. */
  lemma OnlyCommittedJobsAreIndexed(h: History, jobId: int)
    requires Legal(h)
    requires jobId in After(h).q.index || exists id: nat :: id < |After(h).q.rows| && After(h).q.rows[id].jobId == jobId
    ensures HasId(After(h).p.e.db.jobs, jobId)
  {
    LinksHold(h);
    var p, q := ProjectsOntoRuns(h);
    PipelineEffects.JobsAreQueuedAtMostOnce(p, jobId);
  }

  predicate Extends(h: History, from: History) {
    h == from || (h.Then? && Extends(h.before, from))
  }

  lemma {:induction false} SweepsLift(h: History, q: Q.History, q': Q.History) returns (h': History)
    requires Legal(h) && Q.Legal(q) && Q.After(q) == After(h).q && Q.Legal(q') && Q.OnlySweeps(q', q)
    ensures Legal(h') && Extends(h', h) && After(h') == World(After(h).p, Q.After(q'))
  {
    if q' == q {
      h' := h;
    } else {
      var before := SweepsLift(h, q, q'.before);
      h' := Then(before, OfSweep(q'.s));
    }
  }

  lemma SweepsRunFrom(h: History, plan: seq<nat -> Write>) returns (h': History)
    requires Legal(h) && After(h).q.sweeps == map[]
    ensures Legal(h') && Extends(h', h) && After(h').p == After(h).p
    ensures After(h').q.rows == Sweeps(After(h).q.rows, plan)
  {
    var p, q := ProjectsOntoRuns(h);
    var swept := Q.SweepsAreARun(q, plan);
    h' := SweepsLift(h, q, swept);
  }

  lemma NothingPendingAfter(rows: seq<Entry>, plan: seq<nat -> Write>, id: nat)
    requires |PendingIds(rows)| <= 50 * |plan| && id < |Sweeps(rows, plan)|
    ensures !Sweeps(rows, plan)[id].status.Pending?
  {
    var rows' := Sweeps(rows, plan);
    SweepsDrainInOrder(rows, plan);
    ClaimableIsExact(rows', {}, |rows'|);
  }

  /** The job is in the index, or its queue entry says why not. */
  ghost predicate IndexedOrFailed(q: Q.World, jobId: int) {
    jobId in q.index ||
    exists id: nat :: id < |q.rows| && q.rows[id].jobId == jobId && q.rows[id].status.Failed? && q.rows[id].lastError.Some?
  }

  /**
   From any world without a live sweep, one sweep for every fifty pending entries, run one after the
   other, leaves nothing waiting: every posting queued so far is indexed or its entry says why not.
   */
  lemma SweepsSettleEveryPosting(h: History, plan: seq<nat -> Write>) returns (h': History)
    requires Legal(h) && After(h).q.sweeps == map[]
    requires |PendingIds(After(h).q.rows)| <= 50 * |plan|
    ensures Legal(h') && Extends(h', h) && After(h').p == After(h).p
    ensures forall jobId | jobId in After(h).p.e.db.outbox :: IndexedOrFailed(After(h').q, jobId)
  {
    h' := SweepsRunFrom(h, plan);
    LinksHold(h');
    var w := After(h');
    forall jobId | jobId in w.p.e.db.outbox
      ensures IndexedOrFailed(w.q, jobId)
    {
      QueuedIsSettled(w, jobId);
      if jobId !in w.q.index {
        var id: nat :| id < |w.q.rows| && w.q.rows[id].jobId == jobId &&
          (w.q.rows[id].status.Pending? || (w.q.rows[id].status.Failed? && w.q.rows[id].lastError.Some?));
        NothingPendingAfter(After(h).q.rows, plan, id);
      }
    }
  }

  lemma {:induction false} NothingFailsAnew(rows: seq<Entry>, plan: seq<nat -> Write>, id: nat)
    requires id < |rows| && forall k, i | 0 <= k < |plan| :: plan[k](i).Written?
    ensures |Sweeps(rows, plan)| == |rows| && Sweeps(rows, plan)[id].jobId == rows[id].jobId
    ensures Sweeps(rows, plan)[id].status.Failed? ==> rows[id].status.Failed?
    decreases |plan|
  {
    if plan != [] {
      var claimed := Claim(rows, {}, PINECONE_SYNC_BATCH_SIZE);
      ClaimTakesLowest(rows, {}, PINECONE_SYNC_BATCH_SIZE);
      SweptIsPointwise(rows, claimed, plan[0], |claimed|);
      assert plan[0](id).Written?;
      NothingFailsAnew(OneSweep(rows, plan[0]), plan[1..], id);
    }
  }

  /** And if their writes succeed, every job whose entry had not failed before is in the index. */
  lemma SuccessfulSweepsIndexEveryPosting(h: History, plan: seq<nat -> Write>) returns (h': History)
    requires Legal(h) && After(h).q.sweeps == map[]
    requires |PendingIds(After(h).q.rows)| <= 50 * |plan|
    requires forall k, i | 0 <= k < |plan| :: plan[k](i).Written?
    ensures Legal(h') && Extends(h', h) && After(h').p == After(h).p
    ensures forall id: nat | id < |After(h).q.rows| && !After(h).q.rows[id].status.Failed? ::
              After(h).q.rows[id].jobId in After(h').q.index
  {
    h' := SweepsRunFrom(h, plan);
    LinksHold(h');
    var rows, rows' := After(h).q.rows, After(h').q.rows;
    forall id: nat | id < |rows| && !rows[id].status.Failed?
      ensures rows[id].jobId in After(h').q.index
    {
      NothingFailsAnew(rows, plan, id);
      NothingPendingAfter(rows, plan, id);
      assert Q.Settled(rows'[id], After(h').q.index);
    }
  }
}
