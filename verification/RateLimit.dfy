/**
 The rolling-window rate limiter and the purge that keeps its table short. A gate inserts a row,
 counts the sender's rows in the window and rolls the insert back when there are too many.
 Instants are microseconds; the gate transactions run one after the other.
 */
module RateLimit {
  import opened Sequences

  /** One hour. */
  const RATE_LIMIT_PURGE_RETENTION: int := 3_600_000_000

  function Seconds(n: int): int { n * 1_000_000 }

  datatype RateRow = RateRow(userId: int, createdAt: int)

  datatype SmsSettings = SmsSettings(rateLimitMax: int, rateLimitWindowSeconds: int) {
    function Window(): int { Seconds(rateLimitWindowSeconds) }
  }

  /** The user's rows with a timestamp at or after `from`. */
  function CountSince(rows: seq<RateRow>, userId: int, from: int): nat {
    if rows == [] then 0
    else
      var last := rows[|rows| - 1];
      CountSince(rows[..|rows| - 1], userId, from) + if last.userId == userId && last.createdAt >= from then 1 else 0
  }

  function NotOlderThan(cutoff: int): RateRow -> bool {
    (row: RateRow) => row.createdAt >= cutoff
  }

  function Purged(rows: seq<RateRow>, cutoff: int): seq<RateRow> {
    Filter(NotOlderThan(cutoff), rows)
  }

  datatype Admission = Count(n: nat) | RateLimitExceeded(userId: int, n: nat)

  class RateLimitTable {
    var rows: seq<RateRow>

    constructor ()
      ensures rows == []
    {
      rows := [];
    }

    /** Records this message, then counts; `now` and `later` are the two readings of the clock. */
    method EnforceRateLimit(userId: int, maxMessages: int, windowSeconds: int, now: int, later: int)
      returns (admission: Admission)
      modifies this`rows
      ensures rows == old(rows) + [RateRow(userId, later)]
      ensures admission.n == CountSince(rows, userId, now - windowSeconds * 1_000_000)
      ensures admission.Count? <==> admission.n <= maxMessages
    {
      var window := now - Seconds(windowSeconds);
      rows := rows + [RateRow(userId, later)];
      var count := CountSince(rows, userId, window);
      if count > maxMessages {
        return RateLimitExceeded(userId, count);
      }
      return Count(count);
    }

    method PurgeRateLimitEntries(olderThan: int) returns (deleted: nat)
      modifies this`rows
      ensures rows == Purged(old(rows), olderThan) && deleted == |old(rows)| - |rows|
    {
      FilterKeeps(NotOlderThan(olderThan), rows);
      var kept := Purged(rows, olderThan);
      deleted := |rows| - |kept|;
      rows := kept;
    }

    /** Gate 4 of the webhook: one transaction that is rolled back on rejection. */
    method Gate(userId: int, settings: SmsSettings, now: int, later: int) returns (admitted: bool)
      modifies this`rows
      ensures admitted <==> Admits(settings, old(rows), Arrival(userId, now, later))
      ensures rows == Step(settings, old(rows), Arrival(userId, now, later))
      ensures now <= later && 0 <= settings.rateLimitWindowSeconds ==>
                (admitted <==> CountSince(old(rows), userId, now - settings.rateLimitWindowSeconds * 1_000_000)
                               < settings.rateLimitMax)
    {
      var begun := rows;
      CountAppend(rows, RateRow(userId, later), userId, now - settings.Window());
      var admission := EnforceRateLimit(userId, settings.rateLimitMax, settings.rateLimitWindowSeconds, now, later);
      if admission.RateLimitExceeded? {
        rows := begun;
        return false;
      }
      return true;
    }

    /** The hourly activity. */
    method PurgeRateLimit(settings: SmsSettings, now: int)
      modifies this`rows
      ensures rows == Step(settings, old(rows), Purge(now))
      ensures forall row :: row in rows <==> row in old(rows) && now - 3_600_000_000 <= row.createdAt
    {
      var cutoff := now - RATE_LIMIT_PURGE_RETENTION;
      FilterKeeps(NotOlderThan(cutoff), rows);
      var deleted := PurgeRateLimitEntries(cutoff);
    }
  }

  /** One serial step: a message at the gate with the two clock readings, or a purge with its one. */
  datatype Event = Arrival(userId: int, readAt: int, insertedAt: int) | Purge(at: int) {
    function First(): int { if Arrival? then readAt else at }
    function Last(): int { if Arrival? then insertedAt else at }
    function Row(): RateRow
      requires Arrival?
    {
      RateRow(userId, insertedAt)
    }
  }

  /** There is room for the message: its own row counts too, unless the window starts after it. */
  predicate Admits(s: SmsSettings, rows: seq<RateRow>, e: Event)
    requires e.Arrival?
  {
    var window := e.readAt - s.Window();
    CountSince(rows, e.userId, window) + (if window <= e.insertedAt then 1 else 0) <= s.rateLimitMax
  }

  function Step(s: SmsSettings, rows: seq<RateRow>, e: Event): seq<RateRow> {
    match e
    case Arrival(_, _, _) => if Admits(s, rows, e) then rows + [e.Row()] else rows
    case Purge(at) => Purged(rows, at - RATE_LIMIT_PURGE_RETENTION)
  }

  /** A run: the events in the order they happened, the latest outermost. */
  datatype History = Start | Then(before: History, e: Event)

  /** The table after a run. */
  function Run(s: SmsSettings, h: History): seq<RateRow> {
    match h
    case Start => []
    case Then(before, e) => Step(s, Run(s, before), e)
  }

  /** The table of a limiter that never forgets. */
  function Remembered(s: SmsSettings, h: History): seq<RateRow> {
    match h
    case Start => []
    case Then(before, e) => if e.Purge? then Remembered(s, before) else Step(s, Remembered(s, before), e)
  }

  /** Every gate reads the clock for its window before it reads it for its row. */
  predicate GatesReadInOrder(h: History) {
    h.Then? ==> GatesReadInOrder(h.before) && h.e.First() <= h.e.Last()
  }

  /** Every purge of the run read the clock no later than `at`. */
  predicate PurgesReadBy(h: History, at: int) {
    h.Then? ==> PurgesReadBy(h.before, at) && (h.e.Purge? ==> h.e.at <= at)
  }

  /**
   Events are in the order of their transactions, which is not quite that of their clock readings: a
   purge reads the clock before it deletes, and a gate before it counts. What is asked of a run is that
   gates read in order and that a purge that deleted before a gate counted read the clock at most `lag`
   after the gate did. Between events the clock may otherwise run as it likes.
   */
  predicate PurgesReadWithin(h: History, lag: int) {
    h.Then? ==>
      && PurgesReadWithin(h.before, lag)
      && (h.e.Arrival? ==> h.e.First() <= h.e.Last() && PurgesReadBy(h.before, h.e.First() + lag))
  }

  /** The clock never goes back over the run. */
  predicate Monotone(h: History) {
    h.Then? ==>
      && Monotone(h.before) && h.e.First() <= h.e.Last()
      && (h.before.Then? ==> h.before.e.Last() <= h.e.First())
  }

  /** Messages of the user admitted with a timestamp in the closed window from `from` to `to`. */
  function AdmittedIn(s: SmsSettings, h: History, userId: int, from: int, to: int): nat {
    match h
    case Start => 0
    case Then(before, e) =>
      var earlier := AdmittedIn(s, before, userId, from, to);
      if e.Arrival? && e.userId == userId && from <= e.insertedAt <= to && Admits(s, Run(s, before), e) then earlier + 1
      else earlier
  }

  lemma CountAppend(rows: seq<RateRow>, row: RateRow, userId: int, from: int)
    ensures CountSince(rows + [row], userId, from) ==
            CountSince(rows, userId, from) + if row.userId == userId && row.createdAt >= from then 1 else 0
  {
    assert (rows + [row])[..|rows|] == rows;
  }

  lemma {:induction false} CountAfterPurge(rows: seq<RateRow>, userId: int, cutoff: int, from: int)
    requires cutoff <= from
    ensures CountSince(Purged(rows, cutoff), userId, from) == CountSince(rows, userId, from)
  {
    if rows != [] {
      var init, last := rows[..|rows| - 1], rows[|rows| - 1];
      CountAfterPurge(init, userId, cutoff, from);
      assert rows == init + [last];
      FilterAppend(NotOlderThan(cutoff), init, [last]);
      assert Filter(NotOlderThan(cutoff), [last]) == if last.createdAt >= cutoff then [last] else [];
      if last.createdAt >= cutoff {
        CountAppend(Purged(init, cutoff), last, userId, from);
      } else {
        assert Purged(init, cutoff) + [] == Purged(init, cutoff);
      }
    }
  }
}
