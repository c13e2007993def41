/**
 Concurrent sweeps. Every step of every process is one step of the world: enqueueing, upserting
 into the index, claiming a batch (atomic, as SKIP LOCKED makes it), trying the next claimed entry
 on the sweep's own copy, and committing or crashing the sweep.
 */
module SyncQueueRuns {
  import opened SyncQueue

  /** A live sweep: its locks, the copies it marks, and what its writes did so far. */
  datatype Sweep = Sweep(claimed: seq<nat>, entries: seq<Entry>, writes: seq<Write>)

  datatype World = World(rows: seq<Entry>, sweeps: map<int, Sweep>, index: set<int>)

  datatype Step =
    | Enqueue(jobId: int)
    | Upsert(jobId: int)
    | StartSweep(sid: int)
    | TryNext(sid: int, write: Write)
    | Commit(sid: int)
    | Crash(sid: int)

  function Locked(w: World): set<nat> {
    set sid, id | sid in w.sweeps && id in w.sweeps[sid].claimed :: id
  }

  predicate Enabled(w: World, s: Step) {
    match s
    case Enqueue(_) => true
    case Upsert(_) => true
    case StartSweep(sid) => sid !in w.sweeps
    case TryNext(sid, _) =>
      sid in w.sweeps && |w.sweeps[sid].writes| < |w.sweeps[sid].claimed| == |w.sweeps[sid].entries|
    case Commit(sid) =>
      && sid in w.sweeps && |w.sweeps[sid].writes| == |w.sweeps[sid].claimed| == |w.sweeps[sid].entries|
      && InRange(w.rows, w.sweeps[sid].claimed)
    case Crash(sid) => sid in w.sweeps
  }

  function Copies(rows: seq<Entry>, claimed: seq<nat>): seq<Entry>
    requires InRange(rows, claimed)
  {
    seq(|claimed|, i requires 0 <= i < |claimed| => rows[claimed[i]])
  }

  function WrittenBack(rows: seq<Entry>, claimed: seq<nat>, entries: seq<Entry>, n: nat): (r: seq<Entry>)
    requires n <= |claimed| == |entries| && InRange(rows, claimed)
    ensures |r| == |rows|
  {
    if n == 0 then rows else WrittenBack(rows, claimed, entries, n - 1)[claimed[n - 1] := entries[n - 1]]
  }

  function Apply(w: World, s: Step): World
    requires Enabled(w, s)
  {
    match s
    case Enqueue(jobId) => w.(rows := w.rows + [Enqueued(jobId)])
    case Upsert(jobId) => w.(index := w.index + {jobId})
    case StartSweep(sid) =>
      ClaimTakesLowest(w.rows, Locked(w), PINECONE_SYNC_BATCH_SIZE);
      var claimed := Claim(w.rows, Locked(w), PINECONE_SYNC_BATCH_SIZE);
      w.(sweeps := w.sweeps[sid := Sweep(claimed, Copies(w.rows, claimed), [])])
    case TryNext(sid, write) =>
      var sweep := w.sweeps[sid];
      var i := |sweep.writes|;
      w.(sweeps := w.sweeps[sid := sweep.(entries := sweep.entries[i := Tried(sweep.entries[i], write)],
                                          writes := sweep.writes + [write])],
         index := w.index + if Reaches(write) then {sweep.entries[i].jobId} else {})
    case Commit(sid) =>
      var sweep := w.sweeps[sid];
      w.(rows := WrittenBack(w.rows, sweep.claimed, sweep.entries, |sweep.claimed|), sweeps := w.sweeps - {sid})
    case Crash(sid) => w.(sweeps := w.sweeps - {sid})
  }

  datatype History = Start | Then(before: History, s: Step)

  predicate Legal(h: History)
    decreases h, 0
  {
    h.Then? ==> Legal(h.before) && Enabled(After(h.before), h.s)
  }

  function After(h: History): World
    requires Legal(h)
    decreases h, 1
  {
    match h
    case Start => World([], map[], {})
    case Then(before, s) => Apply(After(before), s)
  }

  function Enqueues(h: History): nat {
    match h
    case Start => 0
    case Then(before, s) => Enqueues(before) + if s.Enqueue? then 1 else 0
  }

  // ---------- the invariant ----------

  /** An entry's columns agree: one attempt and an error when failed, none otherwise, indexed when synced. */
  ghost predicate Settled(e: Entry, index: set<int>) {
    match e.status
    case Pending => e.attempts == 0 && e.lastError.None?
    case Synced => e.attempts == 0 && e.lastError.None? && e.jobId in index
    case Failed => e.attempts == 1 && e.lastError.Some?
  }

  /** A live sweep holds pending rows; its copies are those rows as its writes left them. */
  ghost predicate SweepOk(w: World, sweep: Sweep) {
    && |sweep.writes| <= |sweep.claimed| == |sweep.entries| <= PINECONE_SYNC_BATCH_SIZE
    && Ascending(sweep.claimed) && InRange(w.rows, sweep.claimed)
    && (forall i | 0 <= i < |sweep.claimed| ::
          && w.rows[sweep.claimed[i]].status.Pending?
          && sweep.entries[i] ==
             if i < |sweep.writes| then Tried(w.rows[sweep.claimed[i]], sweep.writes[i]) else w.rows[sweep.claimed[i]])
    && (forall i | 0 <= i < |sweep.writes| && Reaches(sweep.writes[i]) :: sweep.entries[i].jobId in w.index)
  }

  ghost predicate Disjoint(a: seq<nat>, b: seq<nat>) {
    forall i, j | 0 <= i < |a| && 0 <= j < |b| :: a[i] != b[j]
  }

  ghost predicate Inv(w: World) {
    && (forall id: nat | id < |w.rows| :: Settled(w.rows[id], w.index))
    && (forall sid | sid in w.sweeps :: SweepOk(w, w.sweeps[sid]))
    && (forall a, b | a in w.sweeps && b in w.sweeps && a != b :: Disjoint(w.sweeps[a].claimed, w.sweeps[b].claimed))
  }

  lemma {:induction false} WrittenBackIsPointwise(rows: seq<Entry>, claimed: seq<nat>, entries: seq<Entry>, n: nat)
    requires n <= |claimed| == |entries| && InRange(rows, claimed) && Ascending(claimed)
    ensures forall i | 0 <= i < n :: WrittenBack(rows, claimed, entries, n)[claimed[i]] == entries[i]
    ensures forall id: nat | id < |rows| && id !in claimed[..n] :: WrittenBack(rows, claimed, entries, n)[id] == rows[id]
  {
    if n != 0 {
      WrittenBackIsPointwise(rows, claimed, entries, n - 1);
      assert claimed[..n] == claimed[..n - 1] + [claimed[n - 1]];
    }
  }

  /** Rows nobody touches and an index that only grows keep a sweep in order. */
  lemma SweepStaysOk(w: World, w': World, sweep: Sweep)
    requires SweepOk(w, sweep) && |w.rows| <= |w'.rows| && w.index <= w'.index
    requires forall i | 0 <= i < |sweep.claimed| :: w'.rows[sweep.claimed[i]] == w.rows[sweep.claimed[i]]
    ensures SweepOk(w', sweep)
  {
  }

  lemma OthersStayOk(w: World, w': World, except: int)
    requires Inv(w) && |w.rows| <= |w'.rows| && w.index <= w'.index
    requires forall sid | sid in w.sweeps && sid != except ::
               forall i | 0 <= i < |w.sweeps[sid].claimed| ::
                 w'.rows[w.sweeps[sid].claimed[i]] == w.rows[w.sweeps[sid].claimed[i]]
    ensures forall sid | sid in w.sweeps && sid != except :: SweepOk(w', w.sweeps[sid])
  {
    forall sid | sid in w.sweeps && sid != except
      ensures SweepOk(w', w.sweeps[sid])
    {
      SweepStaysOk(w, w', w.sweeps[sid]);
    }
  }

  lemma IsLocked(w: World, sid: int, j: nat)
    requires sid in w.sweeps && j < |w.sweeps[sid].claimed|
    ensures w.sweeps[sid].claimed[j] in Locked(w)
  {
    assert w.sweeps[sid].claimed[j] in w.sweeps[sid].claimed;
  }

  lemma StartKeepsInv(w: World, sid: int)
    requires Inv(w) && Enabled(w, StartSweep(sid))
    ensures Inv(Apply(w, StartSweep(sid)))
  {
    var w' := Apply(w, StartSweep(sid));
    var claimed := w'.sweeps[sid].claimed;
    ClaimTakesLowest(w.rows, Locked(w), PINECONE_SYNC_BATCH_SIZE);
    OthersStayOk(w, w', sid);
    forall i | 0 <= i < |claimed|
      ensures w.rows[claimed[i]].status.Pending? && claimed[i] !in Locked(w)
    {
      assert claimed[i] in claimed;
    }
    forall other, i, j | other in w.sweeps && 0 <= i < |claimed| && 0 <= j < |w.sweeps[other].claimed|
      ensures claimed[i] != w.sweeps[other].claimed[j]
    {
      IsLocked(w, other, j);
    }
  }

  lemma TryKeepsInv(w: World, sid: int, write: Write)
    requires Inv(w) && Enabled(w, TryNext(sid, write))
    ensures Inv(Apply(w, TryNext(sid, write)))
  {
    var w' := Apply(w, TryNext(sid, write));
    OthersStayOk(w, w', sid);
    assert SweepOk(w, w.sweeps[sid]);
    assert SweepOk(w', w'.sweeps[sid]);
  }

  lemma CommitKeepsInv(w: World, sid: int)
    requires Inv(w) && Enabled(w, Commit(sid))
    ensures Inv(Apply(w, Commit(sid)))
  {
    var w' := Apply(w, Commit(sid));
    var sweep := w.sweeps[sid];
    CommitDecides(w, sid);
    forall id: nat | id < |w'.rows|
      ensures Settled(w'.rows[id], w'.index)
    {
      CommitSettles(w, sid, id);
    }
    forall other, j | other in w.sweeps && other != sid && 0 <= j < |w.sweeps[other].claimed|
      ensures w'.rows[w.sweeps[other].claimed[j]] == w.rows[w.sweeps[other].claimed[j]]
    {
      var id := w.sweeps[other].claimed[j];
      assert Disjoint(w.sweeps[other].claimed, sweep.claimed);
      assert id !in sweep.claimed;
    }
    OthersStayOk(w, w', sid);
  }

  lemma EnqueueKeepsInv(w: World, jobId: int)
    requires Inv(w)
    ensures Inv(Apply(w, Enqueue(jobId)))
  {
    var w' := Apply(w, Enqueue(jobId));
    forall sid | sid in w.sweeps
      ensures SweepOk(w', w.sweeps[sid])
    {
      SweepStaysOk(w, w', w.sweeps[sid]);
    }
  }

  lemma UpsertKeepsInv(w: World, jobId: int)
    requires Inv(w)
    ensures Inv(Apply(w, Upsert(jobId)))
  {
    var w' := Apply(w, Upsert(jobId));
    forall sid | sid in w.sweeps
      ensures SweepOk(w', w.sweeps[sid])
    {
      SweepStaysOk(w, w', w.sweeps[sid]);
    }
  }

  lemma CrashKeepsInv(w: World, sid: int)
    requires Inv(w) && Enabled(w, Crash(sid))
    ensures Inv(Apply(w, Crash(sid)))
  {
    OthersStayOk(w, Apply(w, Crash(sid)), sid);
  }

  lemma StepKeepsInv(w: World, s: Step)
    requires Inv(w) && Enabled(w, s)
    ensures Inv(Apply(w, s))
  {
    match s
    case Enqueue(jobId) => EnqueueKeepsInv(w, jobId);
    case Upsert(jobId) => UpsertKeepsInv(w, jobId);
    case StartSweep(sid) => StartKeepsInv(w, sid);
    case TryNext(sid, write) => TryKeepsInv(w, sid, write);
    case Commit(sid) => CommitKeepsInv(w, sid);
    case Crash(sid) => CrashKeepsInv(w, sid);
  }

  /**
   In every reachable world, whatever the interleaving: no two live sweeps hold the same entry, held
   entries are pending, committed synced entries are in the index, and attempts count failures.
   */
  lemma {:induction false} InvHolds(h: History)
    requires Legal(h)
    ensures Inv(After(h))
  {
    if h.Then? {
      InvHolds(h.before);
      StepKeepsInv(After(h.before), h.s);
    }
  }

  // ---------- one commit, one crash ----------

  /** Committing decides exactly the claimed entries, each by its own write. */
  lemma CommitDecides(w: World, sid: int)
    requires Inv(w) && Enabled(w, Commit(sid))
    ensures var sweep, rows' := w.sweeps[sid], Apply(w, Commit(sid)).rows;
            && |rows'| == |w.rows|
            && (forall i | 0 <= i < |sweep.claimed| ::
                  rows'[sweep.claimed[i]] == Tried(w.rows[sweep.claimed[i]], sweep.writes[i]))
            && (forall id: nat | id < |w.rows| && id !in sweep.claimed :: rows'[id] == w.rows[id])
  {
    var sweep := w.sweeps[sid];
    assert SweepOk(w, sweep);
    WrittenBackIsPointwise(w.rows, sweep.claimed, sweep.entries, |sweep.claimed|);
    assert sweep.claimed[..|sweep.claimed|] == sweep.claimed;
  }

  lemma CommitSettles(w: World, sid: int, id: nat)
    requires Inv(w) && Enabled(w, Commit(sid)) && id < |w.rows|
    ensures Settled(Apply(w, Commit(sid)).rows[id], w.index)
  {
    var sweep := w.sweeps[sid];
    CommitDecides(w, sid);
    assert SweepOk(w, sweep);
    assert Settled(w.rows[id], w.index);
    if id in sweep.claimed {
      var i :| 0 <= i < |sweep.claimed| && sweep.claimed[i] == id;
      assert sweep.entries[i] == Tried(w.rows[id], sweep.writes[i]);
    }
  }

  /**
   Isolation: however its steps were interleaved, a committed sweep changes the table as one
   uninterrupted sweep of its batch would at the moment of the commit.
   */
  lemma CommitIsOneAtomicSweep(w: World, sid: int, writes: nat -> Write)
    requires Inv(w) && Enabled(w, Commit(sid))
    requires forall i | 0 <= i < |w.sweeps[sid].claimed| :: writes(w.sweeps[sid].claimed[i]) == w.sweeps[sid].writes[i]
    ensures var claimed := w.sweeps[sid].claimed;
            Apply(w, Commit(sid)).rows == Swept(w.rows, claimed, writes, |claimed|)
  {
    var sweep, rows' := w.sweeps[sid], Apply(w, Commit(sid)).rows;
    assert SweepOk(w, sweep);
    CommitDecides(w, sid);
    SweptIsPointwise(w.rows, sweep.claimed, writes, |sweep.claimed|);
    assert sweep.claimed[..|sweep.claimed|] == sweep.claimed;
    forall id: nat | id < |w.rows|
      ensures rows'[id] == Swept(w.rows, sweep.claimed, writes, |sweep.claimed|)[id]
    {
      if id in sweep.claimed {
        var i :| 0 <= i < |sweep.claimed| && sweep.claimed[i] == id;
        assert rows'[sweep.claimed[i]] == Tried(w.rows[sweep.claimed[i]], sweep.writes[i]);
      }
    }
  }

  /** A crash takes every mark back: the sweep's entries are pending again and free to be claimed. */
  lemma CrashReverts(w: World, sid: int)
    requires Inv(w) && Enabled(w, Crash(sid))
    ensures var w' := Apply(w, Crash(sid));
            && w'.rows == w.rows
            && forall id | id in w.sweeps[sid].claimed ::
                 && id < |w.rows| && w.rows[id].status.Pending?
                 && id !in Locked(w') && id in Claimable(w'.rows, Locked(w'), |w'.rows|)
  {
    var w' := Apply(w, Crash(sid));
    var claimed := w.sweeps[sid].claimed;
    assert SweepOk(w, w.sweeps[sid]);
    ClaimableIsExact(w'.rows, Locked(w'), |w'.rows|);
    forall id | id in claimed
      ensures id < |w.rows| && w.rows[id].status.Pending? && id !in Locked(w')
    {
      var i :| 0 <= i < |claimed| && claimed[i] == id;
      forall other | other in w'.sweeps
        ensures id !in w'.sweeps[other].claimed
      {
        assert Disjoint(claimed, w.sweeps[other].claimed);
      }
    }
  }

  // ---------- over whole runs ----------

  /** What no step takes back: decided entries, the jobs entries are for, and indexed vectors. */
  ghost predicate Evolves(w: World, w': World) {
    && |w.rows| <= |w'.rows| && w.index <= w'.index
    && (forall id: nat | id < |w.rows| ::
          && w'.rows[id].jobId == w.rows[id].jobId
          && (!w.rows[id].status.Pending? ==> w'.rows[id] == w.rows[id]))
  }

  lemma StepEvolves(w: World, s: Step)
    requires Inv(w) && Enabled(w, s)
    ensures Evolves(w, Apply(w, s))
  {
    if s.Commit? {
      var sweep, w' := w.sweeps[s.sid], Apply(w, s);
      CommitDecides(w, s.sid);
      assert SweepOk(w, sweep);
      forall id: nat | id < |w.rows|
        ensures w'.rows[id].jobId == w.rows[id].jobId
        ensures !w.rows[id].status.Pending? ==> w'.rows[id] == w.rows[id]
      {
        if id in sweep.claimed {
          var i :| 0 <= i < |sweep.claimed| && sweep.claimed[i] == id;
          assert w'.rows[sweep.claimed[i]] == Tried(w.rows[sweep.claimed[i]], sweep.writes[i]);
        }
      }
    }
  }

  predicate Extends(h: History, from: History) {
    h == from || (h.Then? && Extends(h.before, from))
  }

  /** A synced or failed entry never changes again, however the run goes on. */
  lemma {:induction false} DecidedEntriesAreFinal(h: History, from: History)
    requires Legal(h) && Extends(h, from)
    ensures Legal(from) && Evolves(After(from), After(h))
  {
    if h != from {
      DecidedEntriesAreFinal(h.before, from);
      InvHolds(h.before);
      StepEvolves(After(h.before), h.s);
    }
  }

  lemma {:induction false} StatusesPartition(rows: seq<Entry>)
    ensures CountOf(rows, Pending) + CountOf(rows, Synced) + CountOf(rows, Failed) == |rows|
  {
    if rows != [] {
      StatusesPartition(rows[..|rows| - 1]);
    }
  }

  /** Nothing is lost: pending, synced and failed entries together are the entries ever enqueued. */
  lemma {:induction false} EntriesAreConserved(h: History)
    requires Legal(h)
    ensures var rows := After(h).rows;
            CountOf(rows, Pending) + CountOf(rows, Synced) + CountOf(rows, Failed) == |rows| == Enqueues(h)
  {
    StatusesPartition(After(h).rows);
    if h.Then? {
      EntriesAreConserved(h.before);
    }
  }

  /** What the invariant says of the committed table alone. */
  lemma SyncedMeansIndexed(h: History)
    requires Legal(h)
    ensures var w := After(h);
            forall id: nat | id < |w.rows| ::
              && (w.rows[id].status.Synced? ==> w.rows[id].jobId in w.index)
              && w.rows[id].attempts == (if w.rows[id].status.Failed? then 1 else 0)
              && (w.rows[id].lastError.Some? <==> w.rows[id].status.Failed?)
  {
    InvHolds(h);
    var w := After(h);
    forall id: nat | id < |w.rows|
      ensures Settled(w.rows[id], w.index)
    {
    }
  }

  /** No entry is held twice, by one sweep or by two. */
  lemma NoEntryIsHeldTwice(h: History, a: int, b: int, i: nat, j: nat)
    requires Legal(h) && a in After(h).sweeps && b in After(h).sweeps
    requires i < |After(h).sweeps[a].claimed| && j < |After(h).sweeps[b].claimed|
    requires a != b || i != j
    ensures After(h).sweeps[a].claimed[i] != After(h).sweeps[b].claimed[j]
  {
    InvHolds(h);
    var w := After(h);
    assert SweepOk(w, w.sweeps[a]);
    if a != b {
      assert Disjoint(w.sweeps[a].claimed, w.sweeps[b].claimed);
    }
  }

  // ---------- the uninterrupted sweep is one of the runs ----------

  /** The run goes on from `from` with steps of sweeps alone. */
  predicate OnlySweeps(h: History, from: History) {
    h == from || (h.Then? && !h.s.Enqueue? && !h.s.Upsert? && OnlySweeps(h.before, from))
  }

  lemma {:induction false} OnlySweepsTwice(c: History, b: History, a: History)
    requires OnlySweeps(c, b) && OnlySweeps(b, a)
    ensures OnlySweeps(c, a)
  {
    if c != b {
      OnlySweepsTwice(c.before, b, a);
    }
  }

  /** In `w'` the sweep has claimed its batch of `w` and tried `n` of it, and nothing else has happened. */
  ghost predicate TriedSoFar(w: World, w': World, sid: int, writes: nat -> Write, n: nat) {
    var claimed := Claim(w.rows, Locked(w), PINECONE_SYNC_BATCH_SIZE);
    && n <= |claimed| && InRange(w.rows, claimed)
    && w'.rows == w.rows && w'.index == w.index + ReachedJobs(w.rows, claimed, writes, n)
    && sid in w'.sweeps && w'.sweeps == w.sweeps[sid := w'.sweeps[sid]]
    && w'.sweeps[sid].claimed == claimed && |w'.sweeps[sid].writes| == n
    && forall i | 0 <= i < n :: w'.sweeps[sid].writes[i] == writes(claimed[i])
  }

  lemma StartingTriesNothing(w: World, sid: int, writes: nat -> Write)
    requires Enabled(w, StartSweep(sid))
    ensures TriedSoFar(w, Apply(w, StartSweep(sid)), sid, writes, 0)
  {
    ClaimTakesLowest(w.rows, Locked(w), PINECONE_SYNC_BATCH_SIZE);
  }

  lemma TryingOneMore(w: World, w': World, sid: int, writes: nat -> Write, n: nat)
    requires TriedSoFar(w, w', sid, writes, n) && SweepOk(w', w'.sweeps[sid]) && n < |w'.sweeps[sid].claimed|
    ensures var next := TryNext(sid, writes(w'.sweeps[sid].claimed[n]));
            Enabled(w', next) && TriedSoFar(w, Apply(w', next), sid, writes, n + 1)
  {
    var id := w'.sweeps[sid].claimed[n];
    assert w'.sweeps[sid].entries[n] == w.rows[id];
  }

  lemma {:induction false} TryingIsARun(h: History, sid: int, writes: nat -> Write, n: nat) returns (h': History)
    requires Legal(h) && Enabled(After(h), StartSweep(sid))
    requires n <= |Claim(After(h).rows, Locked(After(h)), PINECONE_SYNC_BATCH_SIZE)|
    ensures Legal(h') && OnlySweeps(h', h) && TriedSoFar(After(h), After(h'), sid, writes, n)
  {
    if n == 0 {
      h' := Then(h, StartSweep(sid));
      StartingTriesNothing(After(h), sid, writes);
    } else {
      var before := TryingIsARun(h, sid, writes, n - 1);
      var w' := After(before);
      assert SweepOk(w', w'.sweeps[sid]) by {
        InvHolds(before);
      }
      TryingOneMore(After(h), w', sid, writes, n - 1);
      h' := Then(before, TryNext(sid, writes(w'.sweeps[sid].claimed[n - 1])));
      assert After(h') == Apply(w', h'.s);
    }
  }

  lemma CommittingEndsTheSweep(w: World, w': World, sid: int, writes: nat -> Write)
    requires sid !in w.sweeps && Inv(w')
    requires TriedSoFar(w, w', sid, writes, |Claim(w.rows, Locked(w), PINECONE_SYNC_BATCH_SIZE)|)
    ensures Enabled(w', Commit(sid))
    ensures var claimed := Claim(w.rows, Locked(w), PINECONE_SYNC_BATCH_SIZE);
            Apply(w', Commit(sid)) == World(Swept(w.rows, claimed, writes, |claimed|), w.sweeps, w'.index)
  {
    assert SweepOk(w', w'.sweeps[sid]);
    CommitIsOneAtomicSweep(w', sid, writes);
    assert w'.sweeps - {sid} == w.sweeps;
  }

  /**
   The sweep that runs without interference is one of the runs: from any reachable world, starting a
   sweep, trying its batch and committing leaves what `SyncQueueTable.SyncPineconeQueue` leaves.
   */
  lemma CompletedSweepIsARun(h: History, sid: int, writes: nat -> Write) returns (h': History)
    requires Legal(h) && Enabled(After(h), StartSweep(sid))
    ensures Legal(h') && OnlySweeps(h', h)
    ensures var w, w' := After(h), After(h');
            var claimed := Claim(w.rows, Locked(w), PINECONE_SYNC_BATCH_SIZE);
            && w'.sweeps == w.sweeps && InRange(w.rows, claimed)
            && w'.rows == Swept(w.rows, claimed, writes, |claimed|)
            && w'.index == w.index + ReachedJobs(w.rows, claimed, writes, |claimed|)
  {
    var claimed := Claim(After(h).rows, Locked(After(h)), PINECONE_SYNC_BATCH_SIZE);
    var tried := TryingIsARun(h, sid, writes, |claimed|);
    InvHolds(tried);
    CommittingEndsTheSweep(After(h), After(tried), sid, writes);
    h' := Then(tried, Commit(sid));
    assert After(h') == Apply(After(tried), Commit(sid));
  }

  /** And so is the sweep that crashes after `n` of its writes. */
  lemma CrashedSweepIsARun(h: History, sid: int, writes: nat -> Write, n: nat) returns (h': History)
    requires Legal(h) && Enabled(After(h), StartSweep(sid))
    requires n <= |Claim(After(h).rows, Locked(After(h)), PINECONE_SYNC_BATCH_SIZE)|
    ensures Legal(h') && OnlySweeps(h', h)
    ensures var w, w' := After(h), After(h');
            var claimed := Claim(w.rows, Locked(w), PINECONE_SYNC_BATCH_SIZE);
            && w'.sweeps == w.sweeps && InRange(w.rows, claimed)
            && w'.rows == w.rows && w'.index == w.index + ReachedJobs(w.rows, claimed, writes, n)
  {
    var tried := TryingIsARun(h, sid, writes, n);
    h' := Then(tried, Crash(sid));
    assert After(h') == Apply(After(tried), Crash(sid));
  }

  /** Sweeps one after the other, from a world in which none is live, are a run that drains the queue. */
  lemma {:induction false} SweepsAreARun(h: History, plan: seq<nat -> Write>) returns (h': History)
    requires Legal(h) && After(h).sweeps == map[]
    ensures Legal(h') && OnlySweeps(h', h) && After(h').sweeps == map[]
    ensures After(h').rows == Sweeps(After(h).rows, plan)
    decreases |plan|
  {
    if plan == [] {
      h' := h;
    } else {
      assert Locked(After(h)) == {};
      var swept := CompletedSweepIsARun(h, 0, plan[0]);
      h' := SweepsAreARun(swept, plan[1..]);
      OnlySweepsTwice(h', swept, h);
    }
  }
}
