/**
 The embedding outbox: entries waiting for, or done with, an upsert into the vector index. Entries
 are numbered in the order they were enqueued, and one sweep claims, writes and marks a batch.
 */
module SyncQueue {
  import opened Wrappers

  const PINECONE_SYNC_BATCH_SIZE: nat := 50

  datatype SyncStatus = Pending | Synced | Failed

  datatype Entry = Entry(jobId: int, status: SyncStatus, attempts: nat, lastError: Option<string>)

  /** What became of one write: a failed write may have reached the index before it raised. */
  datatype Write = Written | WriteFailed(error: string, reached: bool) | NoDescription

  const NO_DESCRIPTION_ERROR := "job has no description to embed"

  function Enqueued(jobId: int): Entry {
    Entry(jobId, Pending, 0, None)
  }

  function MarkedSynced(e: Entry): Entry {
    e.(status := Synced)
  }

  function MarkedFailed(e: Entry, error: string): Entry {
    e.(status := Failed, attempts := e.attempts + 1, lastError := Some(error))
  }

  /** The entry once its write has been tried. */
  function Tried(e: Entry, write: Write): (t: Entry)
    ensures t.jobId == e.jobId && !t.status.Pending?
    ensures t.status.Synced? <==> write.Written?
    ensures t.status.Synced? ==> t.attempts == e.attempts && t.lastError == e.lastError
    ensures t.status.Failed? ==> t.attempts == e.attempts + 1 && t.lastError.Some?
    ensures write.WriteFailed? ==> t.lastError == Some(write.error)
    ensures write.NoDescription? ==> t.lastError == Some("job has no description to embed")
  {
    match write
    case Written => MarkedSynced(e)
    case WriteFailed(error, _) => MarkedFailed(e, error)
    case NoDescription => MarkedFailed(e, NO_DESCRIPTION_ERROR)
  }

  predicate Reaches(write: Write) {
    write.Written? || (write.WriteFailed? && write.reached)
  }

  /** Pending, unlocked entries among the first `n`, lowest first. */
  function Claimable(rows: seq<Entry>, locked: set<nat>, n: nat): seq<nat>
    requires n <= |rows|
  {
    if n == 0 then []
    else
      var before := Claimable(rows, locked, n - 1);
      if rows[n - 1].status.Pending? && n - 1 !in locked then before + [n - 1] else before
  }

  function Batch(claimable: seq<nat>, limit: nat): seq<nat> {
    if |claimable| <= limit then claimable else claimable[..limit]
  }

  /** The first `limit` pending entries nobody has locked. */
  function Claim(rows: seq<Entry>, locked: set<nat>, limit: nat): seq<nat> {
    Batch(Claimable(rows, locked, |rows|), limit)
  }

  /** The rows once the first `n` claimed entries have been tried. */
  function Swept(rows: seq<Entry>, claimed: seq<nat>, writes: nat -> Write, n: nat): (swept: seq<Entry>)
    requires n <= |claimed| && InRange(rows, claimed)
    ensures |swept| == |rows|
  {
    if n == 0 then rows
    else
      var before := Swept(rows, claimed, writes, n - 1);
      var id := claimed[n - 1];
      before[id := Tried(before[id], writes(id))]
  }

  /** The jobs whose vectors the first `n` writes put into the index. */
  function ReachedJobs(rows: seq<Entry>, claimed: seq<nat>, writes: nat -> Write, n: nat): set<int>
    requires n <= |claimed| && InRange(rows, claimed)
  {
    if n == 0 then {}
    else
      var id := claimed[n - 1];
      ReachedJobs(rows, claimed, writes, n - 1) + if Reaches(writes(id)) then {rows[id].jobId} else {}
  }

  function NotWritten(claimed: seq<nat>, writes: nat -> Write, n: nat): nat
    requires n <= |claimed|
  {
    if n == 0 then 0 else NotWritten(claimed, writes, n - 1) + if writes(claimed[n - 1]).Written? then 0 else 1
  }

  predicate InRange(rows: seq<Entry>, ids: seq<nat>) {
    forall i | 0 <= i < |ids| :: ids[i] < |rows|
  }

  function CountOf(rows: seq<Entry>, status: SyncStatus): nat {
    if rows == [] then 0
    else CountOf(rows[..|rows| - 1], status) + if rows[|rows| - 1].status == status then 1 else 0
  }

  predicate Ascending(ids: seq<nat>) {
    forall i, j | 0 <= i < j < |ids| :: ids[i] < ids[j]
  }

  /** Claims are pending, unlocked, ascending and complete below `n`. */
  lemma {:induction false} ClaimableIsExact(rows: seq<Entry>, locked: set<nat>, n: nat)
    requires n <= |rows|
    ensures Ascending(Claimable(rows, locked, n))
    ensures forall id: nat :: id in Claimable(rows, locked, n) <==> id < n && rows[id].status.Pending? && id !in locked
  {
    if n != 0 {
      ClaimableIsExact(rows, locked, n - 1);
      var before := Claimable(rows, locked, n - 1);
      assert forall i | 0 <= i < |before| :: before[i] in before && before[i] < n - 1;
    }
  }

  lemma BatchByRank(all: seq<nat>, limit: nat, k: nat)
    requires Ascending(all) && k < |all|
    ensures all[k] in Batch(all, limit) <==> k < limit
  {
    if k < limit {
      assert Batch(all, limit)[k] == all[k];
    }
  }

  /**
   A claim takes the lowest-numbered pending entries nobody has locked, at most `limit` of them,
   and leaves one behind only when the batch is full.
   */
  lemma ClaimTakesLowest(rows: seq<Entry>, locked: set<nat>, limit: nat)
    ensures var claimed := Claim(rows, locked, limit);
            && Ascending(claimed) && InRange(rows, claimed) && |claimed| <= limit
            && (forall id | id in claimed :: id < |rows| && rows[id].status.Pending? && id !in locked)
            && (forall id: nat | id < |rows| && rows[id].status.Pending? && id !in locked && id !in claimed ::
                  |claimed| == limit && forall taken | taken in claimed :: taken < id)
  {
    ClaimableIsExact(rows, locked, |rows|);
    var all, claimed := Claimable(rows, locked, |rows|), Claim(rows, locked, limit);
    assert forall i | 0 <= i < |all| :: all[i] in all;
    forall id: nat | id < |rows| && rows[id].status.Pending? && id !in locked && id !in claimed
      ensures |claimed| == limit && forall taken | taken in claimed :: taken < id
    {
      var k :| 0 <= k < |all| && all[k] == id;
      BatchByRank(all, limit, k);
    }
  }

  lemma {:induction false} SweptIsPointwise(rows: seq<Entry>, claimed: seq<nat>, writes: nat -> Write, n: nat)
    requires n <= |claimed| && Ascending(claimed) && InRange(rows, claimed)
    ensures forall id: nat | id < |rows| ::
              Swept(rows, claimed, writes, n)[id] == if id in claimed[..n] then Tried(rows[id], writes(id)) else rows[id]
  {
    if n != 0 {
      SweptIsPointwise(rows, claimed, writes, n - 1);
      assert claimed[..n] == claimed[..n - 1] + [claimed[n - 1]];
      assert claimed[n - 1] !in claimed[..n - 1];
    }
  }

  lemma {:induction false} CountAfterUpdate(rows: seq<Entry>, id: nat, e: Entry, status: SyncStatus)
    requires id < |rows|
    ensures CountOf(rows[id := e], status) ==
            CountOf(rows, status) - (if rows[id].status == status then 1 else 0) + (if e.status == status then 1 else 0)
  {
    var last := |rows| - 1;
    if id < last {
      assert rows[id := e][..last] == rows[..last][id := e];
      CountAfterUpdate(rows[..last], id, e, status);
    } else {
      assert rows[id := e][..last] == rows[..last];
    }
  }

  /** What a sweep reports as failed is what it marks as failed. */
  lemma {:induction false} FailuresAreCounted(rows: seq<Entry>, claimed: seq<nat>, writes: nat -> Write, n: nat)
    requires n <= |claimed| && Ascending(claimed) && InRange(rows, claimed)
    requires forall i | 0 <= i < |claimed| :: rows[claimed[i]].status.Pending?
    ensures CountOf(Swept(rows, claimed, writes, n), Failed) == CountOf(rows, Failed) + NotWritten(claimed, writes, n)
  {
    if n != 0 {
      FailuresAreCounted(rows, claimed, writes, n - 1);
      UntriedIsUnchanged(rows, claimed, writes, n - 1);
      var before, id := Swept(rows, claimed, writes, n - 1), claimed[n - 1];
      CountAfterUpdate(before, id, Tried(before[id], writes(id)), Failed);
    }
  }

  /** The vectors a sweep leaves: those of the tried entries whose write succeeded, or failed after it had got there. */
  lemma {:induction false} ReachedJobsAreExact(rows: seq<Entry>, claimed: seq<nat>, writes: nat -> Write, n: nat,
                                               jobId: int)
    requires n <= |claimed| && InRange(rows, claimed)
    ensures jobId in ReachedJobs(rows, claimed, writes, n) <==>
              exists i | 0 <= i < n :: rows[claimed[i]].jobId == jobId &&
                (writes(claimed[i]).Written? || (writes(claimed[i]).WriteFailed? && writes(claimed[i]).reached))
  {
    if n != 0 {
      ReachedJobsAreExact(rows, claimed, writes, n - 1, jobId);
    }
  }

  lemma {:induction false} PendingAreCounted(rows: seq<Entry>, n: nat)
    requires n <= |rows|
    ensures |Claimable(rows, {}, n)| == CountOf(rows[..n], Pending)
  {
    if n != 0 {
      PendingAreCounted(rows, n - 1);
      assert rows[..n][..n - 1] == rows[..n - 1];
    }
  }

  /** The table as one process sees it, with the entries other live sweeps have locked. */
  class SyncQueueTable {
    var rows: seq<Entry>
    var locked: set<nat>
    /** Job ids present in the vector index. */
    var index: set<int>

    constructor (rows: seq<Entry>, locked: set<nat>, index: set<int>)
      ensures this.rows == rows && this.locked == locked && this.index == index
    {
      this.rows, this.locked, this.index := rows, locked, index;
    }

    method Enqueue(jobId: int) returns (id: nat)
      modifies this`rows
      ensures rows == old(rows) + [Enqueued(jobId)] && id == |old(rows)|
    {
      id := |rows|;
      rows := rows + [Enqueued(jobId)];
    }

    method CountPending() returns (n: nat)
      ensures n == |Claimable(rows, {}, |rows|)| == CountOf(rows, Pending)
    {
      n := 0;
      for id := 0 to |rows|
        invariant n == |Claimable(rows, {}, id)|
      {
        if rows[id].status.Pending? {
          n := n + 1;
        }
      }
      PendingAreCounted(rows, |rows|);
      assert rows[..|rows|] == rows;
    }

    method ClaimPending(limit: nat) returns (claimed: seq<nat>)
      ensures claimed == Claim(rows, locked, limit)
    {
      claimed := [];
      var id := 0;
      while id < |rows| && |claimed| < limit
        invariant id <= |rows| && |claimed| <= limit
        invariant claimed == Claimable(rows, locked, id)
      {
        if rows[id].status.Pending? && id !in locked {
          claimed := claimed + [id];
        }
        id := id + 1;
      }
      ClaimableExtends(rows, locked, id, |rows|);
    }

    method MarkSynced(id: nat)
      requires id < |rows|
      modifies this`rows
      ensures rows == old(rows)[id := MarkedSynced(old(rows)[id])]
    {
      rows := rows[id := rows[id].(status := Synced)];
    }

    method MarkFailed(id: nat, error: string)
      requires id < |rows|
      modifies this`rows
      ensures rows == old(rows)[id := MarkedFailed(old(rows)[id], error)]
    {
      rows := rows[id := rows[id].(status := Failed, attempts := rows[id].attempts + 1, lastError := Some(error))];
    }

    /** One claimed entry: the write, then the mark for how it went. */
    method SyncOne(id: nat, write: Write) returns (ok: bool)
      requires id < |rows|
      modifies this`rows, this`index
      ensures rows == old(rows)[id := Tried(old(rows)[id], write)] && ok == write.Written?
      ensures index == old(index) + if Reaches(write) then {old(rows)[id].jobId} else {}
    {
      if Reaches(write) {
        index := index + {rows[id].jobId};
      }
      ok := write.Written?;
      if ok {
        MarkSynced(id);
      } else {
        MarkFailed(id, if write.NoDescription? then NO_DESCRIPTION_ERROR else write.error);
      }
    }

    /** The sweep's loop over its claimed entries, as far as the process lives. */
    method SyncClaimed(claimed: seq<nat>, writes: nat -> Write, n: nat) returns (failed: nat)
      requires n <= |claimed| && Ascending(claimed) && InRange(rows, claimed)
      modifies this`rows, this`index
      ensures rows == Swept(old(rows), claimed, writes, n)
      ensures index == old(index) + ReachedJobs(old(rows), claimed, writes, n)
      ensures failed == NotWritten(claimed, writes, n)
    {
      failed := 0;
      for i := 0 to n
        invariant rows == Swept(old(rows), claimed, writes, i)
        invariant index == old(index) + ReachedJobs(old(rows), claimed, writes, i)
        invariant failed == NotWritten(claimed, writes, i)
      {
        UntriedIsUnchanged(old(rows), claimed, writes, i);
        var ok := SyncOne(claimed[i], writes(claimed[i]));
        if !ok {
          failed := failed + 1;
        }
      }
    }

    /**
     One sweep in one transaction. `writes` is what happens to each entry's upsert, and `crashAt` the
     point, if any, at which the process dies: the rollback then takes every mark back, while what
     reached the index stays there.
     */
    method SyncPineconeQueue(writes: nat -> Write, crashAt: Option<nat>) returns (failed: nat)
      modifies this`rows, this`index
      ensures var claimed := Claim(old(rows), locked, PINECONE_SYNC_BATCH_SIZE);
              var crashed := crashAt.Some? && crashAt.value <= |claimed|;
              var tried := if crashed then crashAt.value else |claimed|;
              && InRange(old(rows), claimed)
              && rows == (if crashed then old(rows) else Swept(old(rows), claimed, writes, |claimed|))
              && index == old(index) + ReachedJobs(old(rows), claimed, writes, tried)
              && failed == NotWritten(claimed, writes, tried)
              && (!crashed ==> failed == CountOf(rows, Failed) - CountOf(old(rows), Failed))
    {
      var begun := rows;
      ClaimTakesLowest(rows, locked, PINECONE_SYNC_BATCH_SIZE);
      var pending := ClaimPending(PINECONE_SYNC_BATCH_SIZE);
      if crashAt.Some? && crashAt.value <= |pending| {
        failed := SyncClaimed(pending, writes, crashAt.value);
        rows := begun;
      } else {
        failed := SyncClaimed(pending, writes, |pending|);
        assert forall i | 0 <= i < |pending| :: pending[i] in pending;
        FailuresAreCounted(begun, pending, writes, |pending|);
      }
    }
  }

  lemma UntriedIsUnchanged(rows: seq<Entry>, claimed: seq<nat>, writes: nat -> Write, i: nat)
    requires i < |claimed| && Ascending(claimed) && InRange(rows, claimed)
    ensures Swept(rows, claimed, writes, i)[claimed[i]] == rows[claimed[i]]
  {
    SweptIsPointwise(rows, claimed, writes, i);
    assert claimed[i] !in claimed[..i];
  }

  lemma {:induction false} ClaimableExtends(rows: seq<Entry>, locked: set<nat>, m: nat, n: nat)
    requires m <= n <= |rows|
    ensures Claimable(rows, locked, m) <= Claimable(rows, locked, n)
    decreases n
  {
    if m < n {
      ClaimableExtends(rows, locked, m, n - 1);
    }
  }

  // ---------- successive sweeps ----------

  function PendingIds(rows: seq<Entry>): seq<nat> {
    Claimable(rows, {}, |rows|)
  }

  /** The table after one uninterrupted sweep, and after one for each element of the plan. */
  function OneSweep(rows: seq<Entry>, writes: nat -> Write): (swept: seq<Entry>)
    ensures |swept| == |rows|
  {
    ClaimTakesLowest(rows, {}, PINECONE_SYNC_BATCH_SIZE);
    var claimed := Claim(rows, {}, PINECONE_SYNC_BATCH_SIZE);
    Swept(rows, claimed, writes, |claimed|)
  }

  function Sweeps(rows: seq<Entry>, plan: seq<nat -> Write>): seq<Entry>
    decreases |plan|
  {
    if plan == [] then rows else Sweeps(OneSweep(rows, plan[0]), plan[1..])
  }

  lemma {:induction false} PendingAfterSweep(rows: seq<Entry>, writes: nat -> Write, n: nat)
    requires n <= |rows|
    ensures var pending := Claimable(rows, {}, n);
            Claimable(OneSweep(rows, writes), {}, n) ==
            if |pending| <= PINECONE_SYNC_BATCH_SIZE then [] else pending[PINECONE_SYNC_BATCH_SIZE..]
  {
    if n != 0 {
      PendingAfterSweep(rows, writes, n - 1);
      SweepDecidesByRank(rows, writes, n - 1);
    }
  }

  /** What one sweep leaves pending: the entries with at least a batch of pending ones before them. */
  lemma SweepDecidesByRank(rows: seq<Entry>, writes: nat -> Write, id: nat)
    requires id < |rows|
    ensures OneSweep(rows, writes)[id].status.Pending? <==>
            rows[id].status.Pending? && 50 <= |Claimable(rows, {}, id)|
  {
    var claimed := Claim(rows, {}, PINECONE_SYNC_BATCH_SIZE);
    ClaimTakesLowest(rows, {}, PINECONE_SYNC_BATCH_SIZE);
    SweptIsPointwise(rows, claimed, writes, |claimed|);
    assert claimed[..|claimed|] == claimed;
    if rows[id].status.Pending? {
      ClaimedByRank(rows, id);
    }
  }

  /** A pending entry is in the batch exactly when fewer pending entries than a batch precede it. */
  lemma ClaimedByRank(rows: seq<Entry>, id: nat)
    requires id < |rows| && rows[id].status.Pending?
    ensures id in Claim(rows, {}, PINECONE_SYNC_BATCH_SIZE) <==> |Claimable(rows, {}, id)| < PINECONE_SYNC_BATCH_SIZE
  {
    var all, k := PendingIds(rows), |Claimable(rows, {}, id)|;
    ClaimableIsExact(rows, {}, |rows|);
    ClaimableExtends(rows, {}, id + 1, |rows|);
    assert all[k] == id;
    BatchByRank(all, PINECONE_SYNC_BATCH_SIZE, k);
  }

  /**
   Sweeps drain the queue in order whatever mix of writes fails: after as many sweeps as the plan
   has, exactly the entries beyond that many batches are still pending. So a queue of k pending
   entries is empty after ceil(k / 50) sweeps, and not before.
   */
  lemma {:induction false} SweepsDrainInOrder(rows: seq<Entry>, plan: seq<nat -> Write>)
    ensures var pending, reached := PendingIds(rows), 50 * |plan|;
            PendingIds(Sweeps(rows, plan)) == if |pending| <= reached then [] else pending[reached..]
    decreases |plan|
  {
    if plan != [] {
      var next := OneSweep(rows, plan[0]);
      PendingAfterSweep(rows, plan[0], |rows|);
      SweepsDrainInOrder(next, plan[1..]);
    }
  }
}
