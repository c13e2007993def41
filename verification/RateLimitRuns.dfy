/** What the rate limiter keeps over whole runs. */
module RateLimitRuns {
  import opened Wrappers
  import opened Sequences
  import opened RateLimit

  // ---------- purging ----------

  lemma {:induction false} PurgesReadByLater(h: History, at: int, later: int)
    requires PurgesReadBy(h, at) && at <= later
    ensures PurgesReadBy(h, later)
  {
    if h.Then? {
      PurgesReadByLater(h.before, at, later);
    }
  }

  /** From the latest purge's cutoff on, the purged table counts like the unpurged one. */
  lemma {:induction false} PurgedCountsLikeMemory(s: SmsSettings, h: History, lag: int, userId: int, from: int)
    requires PurgesReadWithin(h, lag) && s.Window() + lag <= RATE_LIMIT_PURGE_RETENTION
    requires PurgesReadBy(h, from + RATE_LIMIT_PURGE_RETENTION)
    ensures CountSince(Run(s, h), userId, from) == CountSince(Remembered(s, h), userId, from)
    decreases h, 0
  {
    match h
    case Start =>
    case Then(before, e) =>
      PurgedCountsLikeMemory(s, before, lag, userId, from);
      if e.Purge? {
        CountAfterPurge(Run(s, before), userId, e.at - RATE_LIMIT_PURGE_RETENTION, from);
      } else {
        SameDecision(s, before, e, lag);
        CountAppend(Run(s, before), e.Row(), userId, from);
        CountAppend(Remembered(s, before), e.Row(), userId, from);
      }
  }

  lemma {:induction false} SameDecision(s: SmsSettings, before: History, e: Event, lag: int)
    requires e.Arrival? && PurgesReadWithin(Then(before, e), lag)
    requires s.Window() + lag <= RATE_LIMIT_PURGE_RETENTION
    ensures Admits(s, Run(s, before), e) == Admits(s, Remembered(s, before), e)
    decreases before, 1
  {
    var window := e.readAt - s.Window();
    PurgesReadByLater(before, e.readAt + lag, window + RATE_LIMIT_PURGE_RETENTION);
    PurgedCountsLikeMemory(s, before, lag, e.userId, window);
  }

  /** At every message of the run, the purged limiter and the one that never forgets decide alike. */
  ghost predicate SameDecisions(s: SmsSettings, h: History) {
    h.Then? ==>
      && SameDecisions(s, h.before)
      && (h.e.Arrival? ==> Admits(s, Run(s, h.before), h.e) == Admits(s, Remembered(s, h.before), h.e))
  }

  /**
   Purging at arbitrary times is invisible while the window, with the lag between clock readings, is
   no longer than the retention.
   */
  lemma {:induction false} PurgingIsInvisible(s: SmsSettings, h: History, lag: int)
    requires PurgesReadWithin(h, lag) && s.Window() + lag <= RATE_LIMIT_PURGE_RETENTION
    ensures SameDecisions(s, h)
  {
    match h
    case Start =>
    case Then(before, e) =>
      PurgingIsInvisible(s, before, lag);
      if e.Arrival? {
        SameDecision(s, before, e, lag);
      }
  }

  /** A clock that never goes back leaves no lag. */
  lemma {:induction false} MonotoneLeavesNoLag(h: History)
    requires Monotone(h)
    ensures PurgesReadWithin(h, 0) && (h.Then? ==> PurgesReadBy(h, h.e.Last()))
  {
    if h.Then? {
      MonotoneLeavesNoLag(h.before);
      if h.before.Then? {
        PurgesReadByLater(h.before, h.before.e.Last(), h.e.First());
        PurgesReadByLater(h.before, h.before.e.Last(), h.e.Last());
      }
    }
  }

  /** A full burst at instant 0, and what a purge just after the retention makes of it. */
  function Burst(n: nat): History {
    if n == 0 then Start else Then(Burst(n - 1), Arrival(0, 0, 0))
  }

  const LATE: int := RATE_LIMIT_PURGE_RETENTION + 1

  /** The burst, the purge, and one more message whose gate read the clock at `at`. */
  function ForgottenBurst(n: nat, at: int): History {
    Then(Then(Burst(n), Purge(LATE)), Arrival(0, at, at))
  }

  function Copies(n: nat): seq<RateRow> {
    if n == 0 then [] else Copies(n - 1) + [RateRow(0, 0)]
  }

  lemma {:induction false} CountCopies(n: nat, from: int)
    ensures CountSince(Copies(n), 0, from) == if from <= 0 then n else 0
  {
    if n != 0 {
      CountAppend(Copies(n - 1), RateRow(0, 0), 0, from);
      CountCopies(n - 1, from);
    }
  }

  lemma {:induction false} CopiesArePurged(n: nat, cutoff: int)
    requires 0 < cutoff
    ensures Purged(Copies(n), cutoff) == []
  {
    if n != 0 {
      CopiesArePurged(n - 1, cutoff);
      FilterAppend(NotOlderThan(cutoff), Copies(n - 1), [RateRow(0, 0)]);
    }
  }

  /** The rows of a burst do not fill the allowance, or a negative window starts after all of them. */
  predicate HasRoom(s: SmsSettings, n: nat) {
    n <= s.rateLimitMax || (s.Window() < 0 <= s.rateLimitMax)
  }

  lemma BurstIsAdmitted(s: SmsSettings, n: nat)
    requires HasRoom(s, n + 1)
    ensures Admits(s, Copies(n), Arrival(0, 0, 0))
  {
    CountCopies(n, -s.Window());
  }

  lemma {:induction false} BurstFillsTheTable(s: SmsSettings, n: nat)
    requires HasRoom(s, n)
    ensures Run(s, Burst(n)) == Copies(n) && Remembered(s, Burst(n)) == Copies(n)
  {
    if n != 0 {
      BurstFillsTheTable(s, n - 1);
      BurstIsAdmitted(s, n - 1);
    }
  }

  lemma {:induction false} BurstIsMonotone(n: nat, lag: int)
    ensures Monotone(Burst(n)) && (n != 0 ==> Burst(n).e == Arrival(0, 0, 0))
    ensures forall at: int :: PurgesReadBy(Burst(n), at)
    ensures PurgesReadWithin(Burst(n), lag)
  {
    if n != 0 {
      BurstIsMonotone(n - 1, lag);
    }
  }

  lemma {:induction false} WholeBurstIsAdmitted(s: SmsSettings, n: nat, to: int)
    requires n <= s.rateLimitMax && 0 <= s.Window() && 0 <= to
    ensures AdmittedIn(s, Burst(n), 0, 0, to) == n
  {
    if n != 0 {
      WholeBurstIsAdmitted(s, n - 1, to);
      assert Admits(s, Run(s, Burst(n - 1)), Arrival(0, 0, 0)) by {
        BurstFillsTheTable(s, n - 1);
        BurstIsAdmitted(s, n - 1);
      }
    }
  }

  /** When the late message comes: as early as the lag allows, and not before the burst if windows are real. */
  function LateAt(s: SmsSettings, lag: int): int {
    if 0 <= s.Window() && LATE < lag then 0 else LATE - lag
  }

  function BurstSize(s: SmsSettings): nat
    requires 0 <= s.rateLimitMax
  {
    if s.Window() < 0 then s.rateLimitMax + 1 else s.rateLimitMax
  }

  /** The late message finds an empty table after the purge, and a full window without it. */
  lemma LateMessageIsForgotten(s: SmsSettings, lag: int)
    requires RATE_LIMIT_PURGE_RETENTION < s.Window() + lag && 0 <= s.rateLimitMax
    requires s.rateLimitMax == 0 ==> s.Window() < 0
    ensures var late := Arrival(0, LateAt(s, lag), LateAt(s, lag));
            Admits(s, [], late) && !Admits(s, Copies(BurstSize(s)), late)
  {
    CountCopies(BurstSize(s), LateAt(s, lag) - s.Window());
  }

  /**
   When window and lag together exceed the retention, a purge changes a decision; with a window that
   is not negative it lets one message too many through. Without a lag the clock never goes back.
   */
  lemma ForgottenBurstIsAdmitted(s: SmsSettings, lag: int)
    requires RATE_LIMIT_PURGE_RETENTION < s.Window() + lag && 0 <= s.rateLimitMax
    requires s.rateLimitMax == 0 ==> s.Window() < 0
    ensures var run := ForgottenBurst(BurstSize(s), LateAt(s, lag));
            && PurgesReadWithin(run, lag) && (lag <= 0 ==> Monotone(run)) && !SameDecisions(s, run)
            && (0 <= s.Window() ==> AdmittedIn(s, run, 0, 0, s.Window()) == s.rateLimitMax + 1)
  {
    var n := BurstSize(s);
    BurstFillsTheTable(s, n);
    BurstIsMonotone(n, lag);
    if 0 <= s.Window() {
      WholeBurstIsAdmitted(s, n, s.Window());
    }
    CopiesArePurged(n, 1);
    LateMessageIsForgotten(s, lag);
  }

  /** No message is ever admitted: the maximum is negative, or zero with a window that holds the message itself. */
  predicate AdmitsNothing(s: SmsSettings) {
    s.rateLimitMax < 0 || (s.rateLimitMax == 0 <= s.Window())
  }

  lemma {:induction false} NothingIsAdmitted(s: SmsSettings, h: History)
    requires GatesReadInOrder(h) && AdmitsNothing(s)
    ensures SameDecisions(s, h)
  {
    match h
    case Start =>
    case Then(before, e) =>
      NothingIsAdmitted(s, before);
  }

  lemma {:induction false} GatesAreInOrder(h: History, lag: int)
    requires PurgesReadWithin(h, lag)
    ensures GatesReadInOrder(h)
  {
    if h.Then? {
      GatesAreInOrder(h.before, lag);
    }
  }

  /**
   Exactly when purging never changes a decision, for any lag: when the configured window and the lag
   together are no longer than the one-hour retention, or nothing is ever admitted. The configuration
   does not check it.
   */
  lemma PurgingIsInvisibleExactlyWhenWindowFits(s: SmsSettings, lag: int)
    ensures (forall h | PurgesReadWithin(h, lag) :: SameDecisions(s, h)) <==>
            s.Window() + lag <= RATE_LIMIT_PURGE_RETENTION || AdmitsNothing(s)
  {
    if s.Window() + lag <= RATE_LIMIT_PURGE_RETENTION {
      forall h | PurgesReadWithin(h, lag)
        ensures SameDecisions(s, h)
      {
        PurgingIsInvisible(s, h, lag);
      }
    } else if AdmitsNothing(s) {
      forall h | PurgesReadWithin(h, lag)
        ensures SameDecisions(s, h)
      {
        GatesAreInOrder(h, lag);
        NothingIsAdmitted(s, h);
      }
    } else {
      ForgottenBurstIsAdmitted(s, lag);
    }
  }

  // ---------- the sliding window ----------

  function Allowance(s: SmsSettings): nat {
    if s.rateLimitMax < 0 then 0 else s.rateLimitMax
  }

  function RowsIn(rows: seq<RateRow>, userId: int, from: int, to: int): nat {
    if rows == [] then 0
    else
      var last := rows[|rows| - 1];
      RowsIn(rows[..|rows| - 1], userId, from, to)
      + if last.userId == userId && from <= last.createdAt <= to then 1 else 0
  }

  lemma {:induction false} RowsInAtMostCount(rows: seq<RateRow>, userId: int, from: int, to: int, since: int)
    requires since <= from
    ensures RowsIn(rows, userId, from, to) <= CountSince(rows, userId, since)
  {
    if rows != [] {
      RowsInAtMostCount(rows[..|rows| - 1], userId, from, to, since);
    }
  }

  lemma RowsInAppend(rows: seq<RateRow>, row: RateRow, userId: int, from: int, to: int)
    ensures RowsIn(rows + [row], userId, from, to) ==
            RowsIn(rows, userId, from, to) + if row.userId == userId && from <= row.createdAt <= to then 1 else 0
  {
    assert (rows + [row])[..|rows|] == rows;
  }

  /** A limiter that never forgets holds at most the allowance in any closed window. */
  lemma {:induction false} MemoryHoldsTheBound(s: SmsSettings, h: History, userId: int, from: int, to: int)
    requires GatesReadInOrder(h) && to <= from + s.Window()
    ensures RowsIn(Remembered(s, h), userId, from, to) <= Allowance(s)
  {
    match h
    case Start =>
    case Then(before, e) =>
      MemoryHoldsTheBound(s, before, userId, from, to);
      var rows := Remembered(s, before);
      if e.Arrival? && Admits(s, rows, e) {
        RowsInAppend(rows, e.Row(), userId, from, to);
        if e.userId == userId && from <= e.insertedAt <= to {
          RowsInAtMostCount(rows, userId, from, to, e.readAt - s.Window());
        }
      }
  }

  lemma {:induction false} AdmittedAreRemembered(s: SmsSettings, h: History, userId: int, from: int, to: int)
    requires SameDecisions(s, h)
    ensures AdmittedIn(s, h, userId, from, to) == RowsIn(Remembered(s, h), userId, from, to)
  {
    match h
    case Start =>
    case Then(before, e) =>
      AdmittedAreRemembered(s, before, userId, from, to);
      if e.Arrival? {
        RowsInAppend(Remembered(s, before), e.Row(), userId, from, to);
      }
  }

  ghost predicate BoundHolds(s: SmsSettings, h: History) {
    forall userId: int, from: int, to: int | to <= from + s.Window() ::
      AdmittedIn(s, h, userId, from, to) <= Allowance(s)
  }

  /** Any closed window of at most the configured length holds at most the allowance, whatever was purged. */
  lemma SlidingWindowBound(s: SmsSettings, h: History)
    requires GatesReadInOrder(h) && SameDecisions(s, h)
    ensures BoundHolds(s, h)
  {
    forall userId: int, from: int, to: int | to <= from + s.Window()
      ensures AdmittedIn(s, h, userId, from, to) <= Allowance(s)
    {
      MemoryHoldsTheBound(s, h, userId, from, to);
      AdmittedAreRemembered(s, h, userId, from, to);
    }
  }

  /** A negative window holds nothing to count. */
  lemma {:induction false} NegativeWindowIsEmpty(s: SmsSettings, h: History, userId: int, from: int, to: int)
    requires to < from
    ensures AdmittedIn(s, h, userId, from, to) == 0
  {
    if h.Then? {
      NegativeWindowIsEmpty(s, h.before, userId, from, to);
    }
  }

  /** The settings under which the bound holds whatever a purge with this lag does. */
  predicate PurgingIsSafe(s: SmsSettings, lag: int) {
    s.Window() + lag <= RATE_LIMIT_PURGE_RETENTION || s.rateLimitMax <= 0 || s.Window() < 0
  }

  lemma BoundHoldsWhenSafe(s: SmsSettings, h: History, lag: int)
    requires PurgesReadWithin(h, lag) && PurgingIsSafe(s, lag)
    ensures BoundHolds(s, h)
  {
    if s.Window() < 0 {
      forall userId: int, from: int, to: int | to <= from + s.Window()
        ensures AdmittedIn(s, h, userId, from, to) <= Allowance(s)
      {
        NegativeWindowIsEmpty(s, h, userId, from, to);
      }
    } else {
      GatesAreInOrder(h, lag);
      if s.Window() + lag <= RATE_LIMIT_PURGE_RETENTION {
        PurgingIsInvisible(s, h, lag);
      } else {
        NothingIsAdmitted(s, h);
      }
      SlidingWindowBound(s, h);
    }
  }

  /**
   Exactly when the bound holds over every run, for any lag: when the configured window and the lag
   together are no longer than the retention, or the maximum or the window admits nothing to count.
   */
  lemma BoundHoldsExactlyWhenWindowFits(s: SmsSettings, lag: int)
    ensures (forall h | PurgesReadWithin(h, lag) :: BoundHolds(s, h)) <==> PurgingIsSafe(s, lag)
  {
    if PurgingIsSafe(s, lag) {
      forall h | PurgesReadWithin(h, lag)
        ensures BoundHolds(s, h)
      {
        BoundHoldsWhenSafe(s, h, lag);
      }
    } else {
      ForgottenBurstIsAdmitted(s, lag);
      var run := ForgottenBurst(BurstSize(s), LateAt(s, lag));
      assert AdmittedIn(s, run, 0, 0, s.Window()) > Allowance(s);
      assert PurgesReadWithin(run, lag) && !BoundHolds(s, run);
    }
  }

  /**
   In the settings' own units, for a purge that never read the clock after a gate it precedes: no
   sender has more than the maximum admitted in any closed window of the configured seconds, in every
   run, if and only if the window is at most an hour or the maximum admits nothing.
   */
  lemma LimitHoldsExactlyUpToAnHour(s: SmsSettings)
    ensures (forall h, userId: int, from: int, to: int |
               PurgesReadWithin(h, 0) && to <= from + s.rateLimitWindowSeconds * 1_000_000 ::
               AdmittedIn(s, h, userId, from, to) <= if s.rateLimitMax < 0 then 0 else s.rateLimitMax) <==>
            s.rateLimitWindowSeconds <= 3600 || s.rateLimitMax <= 0
  {
    BoundHoldsExactlyWhenWindowFits(s, 0);
    if s.rateLimitWindowSeconds <= 3600 || s.rateLimitMax <= 0 {
      forall h, userId: int, from: int, to: int |
        PurgesReadWithin(h, 0) && to <= from + s.rateLimitWindowSeconds * 1_000_000
        ensures AdmittedIn(s, h, userId, from, to) <= if s.rateLimitMax < 0 then 0 else s.rateLimitMax
      {
        assert BoundHolds(s, h);
      }
    } else {
      ForgottenBurstIsAdmitted(s, 0);
      var run := ForgottenBurst(BurstSize(s), LateAt(s, 0));
      assert AdmittedIn(s, run, 0, 0, s.rateLimitWindowSeconds * 1_000_000) > s.rateLimitMax;
    }
  }

  /** And purging changes no decision of any such run under the same settings exactly. */
  lemma PurgingIsInvisibleExactlyUpToAnHour(s: SmsSettings)
    ensures (forall h | PurgesReadWithin(h, 0) :: SameDecisions(s, h)) <==>
            s.rateLimitWindowSeconds <= 3600 || s.rateLimitMax <= 0
  {
    PurgingIsInvisibleExactlyWhenWindowFits(s, 0);
  }

  // ---------- rejections ----------

  /** The run without its rejected messages. */
  function WithoutRejected(s: SmsSettings, h: History): History {
    match h
    case Start => Start
    case Then(before, e) =>
      if e.Arrival? && !Admits(s, Run(s, before), e) then WithoutRejected(s, before)
      else Then(WithoutRejected(s, before), e)
  }

  ghost predicate AllAdmitted(s: SmsSettings, h: History) {
    h.Then? ==> AllAdmitted(s, h.before) && (h.e.Arrival? ==> Admits(s, Run(s, h.before), h.e))
  }

  /**
   Rejected attempts leave no trace: without them the run ends in the same table and everything
   left is admitted, so retrying while blocked never extends the block.
   */
  lemma {:induction false} RejectedAttemptsLeaveNoTrace(s: SmsSettings, h: History)
    ensures Run(s, WithoutRejected(s, h)) == Run(s, h)
    ensures AllAdmitted(s, WithoutRejected(s, h))
  {
    if h.Then? {
      RejectedAttemptsLeaveNoTrace(s, h.before);
    }
  }

  // ---------- what the table holds ----------

  /** The later of two purge cutoffs. */
  function Later(a: Option<int>, cutoff: int): int {
    if a.Some? && a.value > cutoff then a.value else cutoff
  }

  /** The admitted messages no purge has reached, `later` being the highest cutoff after the run. */
  function Survivors(s: SmsSettings, h: History, later: Option<int>): seq<RateRow> {
    match h
    case Start => []
    case Then(before, Purge(at)) => Survivors(s, before, Some(Later(later, at - RATE_LIMIT_PURGE_RETENTION)))
    case Then(before, e) =>
      var earlier := Survivors(s, before, later);
      if Admits(s, Run(s, before), e) && (later.Some? ==> later.value <= e.insertedAt) then earlier + [e.Row()]
      else earlier
  }

  lemma {:induction false} PurgedTwice(rows: seq<RateRow>, first: int, second: int)
    ensures Purged(Purged(rows, first), second) == Purged(rows, if second > first then second else first)
  {
    if rows != [] {
      PurgedTwice(rows[1..], first, second);
    }
  }

  /** The table always holds exactly the admitted messages no later purge has reached, in order. */
  lemma {:induction false} TableHoldsUnpurgedAdmitted(s: SmsSettings, h: History, later: Option<int>)
    ensures Survivors(s, h, later) == if later.None? then Run(s, h) else Purged(Run(s, h), later.value)
  {
    match h
    case Start =>
    case Then(before, e) =>
      var rows := Run(s, before);
      if e.Purge? {
        var cutoff := e.at - RATE_LIMIT_PURGE_RETENTION;
        TableHoldsUnpurgedAdmitted(s, before, Some(Later(later, cutoff)));
        if later.Some? {
          PurgedTwice(rows, cutoff, later.value);
        }
      } else {
        TableHoldsUnpurgedAdmitted(s, before, later);
        if later.Some? {
          FilterAppend(NotOlderThan(later.value), rows, [e.Row()]);
        }
      }
  }

  // ---------- senders ----------

  function OfUser(userId: int): RateRow -> bool {
    (row: RateRow) => row.userId == userId
  }

  /** The run as one sender sees it: that sender's messages and the purges. */
  function OnlyUser(h: History, userId: int): History {
    match h
    case Start => Start
    case Then(before, e) =>
      if e.Arrival? && e.userId != userId then OnlyUser(before, userId) else Then(OnlyUser(before, userId), e)
  }

  lemma {:induction false} CountOfUser(rows: seq<RateRow>, userId: int, from: int)
    ensures CountSince(Filter(OfUser(userId), rows), userId, from) == CountSince(rows, userId, from)
  {
    if rows != [] {
      var init, last := rows[..|rows| - 1], rows[|rows| - 1];
      CountOfUser(init, userId, from);
      assert rows == init + [last];
      FilterAppend(OfUser(userId), init, [last]);
      if last.userId == userId {
        CountAppend(Filter(OfUser(userId), init), last, userId, from);
      } else {
        assert Filter(OfUser(userId), init) + [] == Filter(OfUser(userId), init);
      }
    }
  }

  lemma {:induction false} FiltersCommute(p: RateRow -> bool, q: RateRow -> bool, rows: seq<RateRow>)
    ensures Filter(p, Filter(q, rows)) == Filter(q, Filter(p, rows))
  {
    if rows != [] {
      FiltersCommute(p, q, rows[1..]);
    }
  }

  lemma SameDecisionOnOwnRows(s: SmsSettings, rows: seq<RateRow>, next: Event)
    requires next.Arrival?
    ensures Admits(s, rows, next) == Admits(s, Filter(OfUser(next.userId), rows), next)
  {
    var window := next.readAt - s.Window();
    CountOfUser(rows, next.userId, window);
  }

  /** A step seen by one sender: others' messages change nothing of its rows. */
  lemma OneStepForASender(s: SmsSettings, rows: seq<RateRow>, userId: int, e: Event)
    ensures Filter(OfUser(userId), Step(s, rows, e)) ==
            if e.Arrival? && e.userId != userId then Filter(OfUser(userId), rows)
            else Step(s, Filter(OfUser(userId), rows), e)
  {
    var mine := Filter(OfUser(userId), rows);
    if e.Purge? {
      FiltersCommute(OfUser(userId), NotOlderThan(e.at - RATE_LIMIT_PURGE_RETENTION), rows);
    } else {
      FilterAppend(OfUser(userId), rows, [e.Row()]);
      assert mine + [] == mine;
      if e.userId == userId {
        SameDecisionOnOwnRows(s, rows, e);
      }
    }
  }

  /**
   Senders do not affect one another: a sender's rows, and the decision on that sender's next
   message, are those of the run from which all other senders are removed.
   */
  lemma {:induction false} SendersAreIndependent(s: SmsSettings, h: History, userId: int, next: Event)
    requires next.Arrival? && next.userId == userId
    ensures Filter(OfUser(userId), Run(s, h)) == Run(s, OnlyUser(h, userId))
    ensures Admits(s, Run(s, h), next) == Admits(s, Run(s, OnlyUser(h, userId)), next)
  {
    if h.Then? {
      SendersAreIndependent(s, h.before, userId, next);
      OneStepForASender(s, Run(s, h.before), userId, h.e);
    }
    SameDecisionOnOwnRows(s, Run(s, h), next);
  }
}
