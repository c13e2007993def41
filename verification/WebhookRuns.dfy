/**
 Deliveries as concurrent requests. Two requests with one sid can both pass the idempotency gate;
 the unique index on the sid then lets only one of them store the message.
 */
module WebhookRuns {
  import opened Sequences
  import RateLimit
  import RateLimitRuns
  import opened Webhook

  datatype Phase = Arrived | Passed | Admitted | Stored | Started | Ended

  /** `admitted` and `stored` record what the request has been through; `admittedAt` is its row's timestamp. */
  datatype Request = Request(messageSid: string, userId: int, phase: Phase, admitted: bool, admittedAt: int, stored: bool)

  /** A message row, and the request whose transaction inserted it. */
  datatype StoredMessage = StoredMessage(row: MessageRow, rid: int)

  datatype World = World(
    settings: RateLimit.SmsSettings,
    gate: RateLimit.History,
    messages: seq<StoredMessage>,
    requests: map<int, Request>,
    started: seq<string>)

  datatype Step =
    | Deliver(rid: int, messageSid: string, userId: int)
    | CheckIdempotency(rid: int)
    | PassGate(rid: int, now: int, later: int)
    | PurgeTable(at: int)
    | Store(rid: int)
    | StartWorkflow(rid: int)
    | End(rid: int)

  predicate HasSid(messages: seq<StoredMessage>, messageSid: string) {
    exists m | m in messages :: m.row.messageSid == messageSid
  }

  predicate Enabled(w: World, s: Step) {
    match s
    case Deliver(rid, _, _) => rid !in w.requests
    case CheckIdempotency(rid) => rid in w.requests && w.requests[rid].phase.Arrived?
    case PassGate(rid, _, _) => rid in w.requests && w.requests[rid].phase.Passed?
    case PurgeTable(_) => true
    case Store(rid) => rid in w.requests && w.requests[rid].phase.Admitted?
    case StartWorkflow(rid) => rid in w.requests && w.requests[rid].phase.Stored?
    case End(rid) => rid in w.requests
  }

  function Moved(w: World, rid: int, r: Request): World {
    w.(requests := w.requests[rid := r])
  }

  function Apply(w: World, s: Step): World
    requires Enabled(w, s)
  {
    match s
    case Deliver(rid, messageSid, userId) => Moved(w, rid, Request(messageSid, userId, Arrived, false, 0, false))
    case CheckIdempotency(rid) =>
      var r := w.requests[rid];
      Moved(w, rid, r.(phase := if HasSid(w.messages, r.messageSid) then Ended else Passed))
    case PassGate(rid, now, later) =>
      var r := w.requests[rid];
      var e := RateLimit.Arrival(r.userId, now, later);
      var admits := RateLimit.Admits(w.settings, RateLimit.Run(w.settings, w.gate), e);
      Moved(w, rid, if admits then r.(phase := Admitted, admitted := true, admittedAt := later) else r.(phase := Ended)).(
        gate := RateLimit.Then(w.gate, e))
    case PurgeTable(at) => w.(gate := RateLimit.Then(w.gate, RateLimit.Purge(at)))
    case Store(rid) =>
      var r := w.requests[rid];
      if HasSid(w.messages, r.messageSid) then Moved(w, rid, r.(phase := Ended))
      else
        Moved(w, rid, r.(phase := Stored, stored := true)).(
          messages := w.messages + [StoredMessage(MessageRow(r.messageSid, r.userId), rid)])
    case StartWorkflow(rid) =>
      Moved(w, rid, w.requests[rid].(phase := Started)).(started := w.started + [w.requests[rid].messageSid])
    case End(rid) => Moved(w, rid, w.requests[rid].(phase := Ended))
  }

  datatype History = Start(settings: RateLimit.SmsSettings) | Then(before: History, s: Step)

  predicate Legal(h: History)
    decreases h, 0
  {
    h.Then? ==> Legal(h.before) && Enabled(After(h.before), h.s)
  }

  function After(h: History): World
    requires Legal(h)
    decreases h, 1
  {
    match h
    case Start(settings) => World(settings, RateLimit.Start, [], map[], [])
    case Then(before, s) => Apply(After(before), s)
  }

  // ---------- the invariant ----------

  /** Requests admitted for the user with a timestamp in the window. */
  function AdmittedRequests(w: World, userId: int, from: int, to: int): set<int> {
    set rid | rid in w.requests && w.requests[rid].admitted && w.requests[rid].userId == userId
              && from <= w.requests[rid].admittedAt <= to
  }

  ghost predicate RequestOk(w: World, rid: int)
    requires rid in w.requests
  {
    var r := w.requests[rid];
    && (r.phase.Arrived? || r.phase.Passed? ==> !r.admitted)
    && (r.phase.Arrived? || r.phase.Passed? || r.phase.Admitted? ==> !r.stored)
    && (r.phase.Admitted? || r.stored ==> r.admitted)
    && (r.phase.Stored? || r.phase.Started? ==> r.stored)
    && (r.stored ==> StoredMessage(MessageRow(r.messageSid, r.userId), rid) in w.messages)
    && (r.phase.Stored? ==> r.messageSid !in w.started)
    && (r.phase.Started? ==> r.messageSid in w.started)
  }

  ghost predicate MessagesDistinct(w: World) {
    && (forall i, j | 0 <= i < j < |w.messages| :: w.messages[i].row.messageSid != w.messages[j].row.messageSid)
    && (forall m | m in w.messages ::
          && m.rid in w.requests && w.requests[m.rid].stored
          && m.row == MessageRow(w.requests[m.rid].messageSid, w.requests[m.rid].userId))
  }

  ghost predicate StartsOk(w: World) {
    Distinct(w.started) && forall sid | sid in w.started :: HasSid(w.messages, sid)
  }

  ghost predicate Inv(w: World) {
    && (forall rid | rid in w.requests :: RequestOk(w, rid))
    && MessagesDistinct(w) && StartsOk(w)
    && (forall userId, from, to ::
          |AdmittedRequests(w, userId, from, to)| == RateLimit.AdmittedIn(w.settings, w.gate, userId, from, to))
  }

  lemma SameSidSameMessage(w: World, a: StoredMessage, b: StoredMessage)
    requires MessagesDistinct(w) && a in w.messages && b in w.messages && a.row.messageSid == b.row.messageSid
    ensures a == b
  {
    var i :| 0 <= i < |w.messages| && w.messages[i] == a;
    var j :| 0 <= j < |w.messages| && w.messages[j] == b;
  }

  /** A step that changes no admission keeps the count of admitted requests. */
  lemma AdmissionsStay(w: World, w': World)
    requires Inv(w) && w'.settings == w.settings
    requires forall rid | rid in w.requests ::
               && rid in w'.requests
               && w'.requests[rid].admitted == w.requests[rid].admitted && w'.requests[rid].userId == w.requests[rid].userId
               && w'.requests[rid].admittedAt == w.requests[rid].admittedAt
    requires forall rid | rid in w'.requests && rid !in w.requests :: !w'.requests[rid].admitted
    requires w'.gate == w.gate || (w'.gate.Then? && w'.gate.before == w.gate && w'.gate.e.Purge?)
    ensures forall userId, from, to ::
              |AdmittedRequests(w', userId, from, to)| == RateLimit.AdmittedIn(w'.settings, w'.gate, userId, from, to)
  {
    forall userId, from, to
      ensures AdmittedRequests(w', userId, from, to) == AdmittedRequests(w, userId, from, to)
    {
      forall rid
        ensures rid in AdmittedRequests(w', userId, from, to) <==> rid in AdmittedRequests(w, userId, from, to)
      {
        assert rid in w'.requests ==> rid in w.requests || !w'.requests[rid].admitted;
      }
    }
  }

  lemma GateCounts(w: World, rid: int, now: int, later: int, userId: int, from: int, to: int)
    requires Enabled(w, PassGate(rid, now, later)) && !w.requests[rid].admitted
    requires |AdmittedRequests(w, userId, from, to)| == RateLimit.AdmittedIn(w.settings, w.gate, userId, from, to)
    ensures var w' := Apply(w, PassGate(rid, now, later));
            |AdmittedRequests(w', userId, from, to)| == RateLimit.AdmittedIn(w'.settings, w'.gate, userId, from, to)
  {
    var w' := Apply(w, PassGate(rid, now, later));
    var counted := w'.requests[rid].admitted && w'.requests[rid].userId == userId && from <= later <= to;
    if counted {
      assert AdmittedRequests(w', userId, from, to) == AdmittedRequests(w, userId, from, to) + {rid};
    } else {
      assert AdmittedRequests(w', userId, from, to) == AdmittedRequests(w, userId, from, to);
    }
  }

  lemma GateKeepsInv(w: World, rid: int, now: int, later: int)
    requires Inv(w) && Enabled(w, PassGate(rid, now, later))
    ensures Inv(Apply(w, PassGate(rid, now, later)))
  {
    var w' := Apply(w, PassGate(rid, now, later));
    assert RequestOk(w, rid);
    forall x | x in w'.requests
      ensures RequestOk(w', x)
    {
      assert x != rid ==> RequestOk(w, x);
    }
    forall userId, from, to
      ensures |AdmittedRequests(w', userId, from, to)| == RateLimit.AdmittedIn(w'.settings, w'.gate, userId, from, to)
    {
      GateCounts(w, rid, now, later, userId, from, to);
    }
  }

  lemma StoreKeepsInv(w: World, rid: int)
    requires Inv(w) && Enabled(w, Store(rid))
    ensures Inv(Apply(w, Store(rid)))
  {
    var w' := Apply(w, Store(rid));
    var r := w.requests[rid];
    assert RequestOk(w, rid);
    AdmissionsStay(w, w');
    forall x | x in w'.requests
      ensures RequestOk(w', x)
    {
      assert x != rid ==> RequestOk(w, x);
    }
    if !HasSid(w.messages, r.messageSid) {
      forall i | 0 <= i < |w.messages|
        ensures w.messages[i].row.messageSid != r.messageSid
      {
        assert w.messages[i] in w.messages;
      }
      SidsStay(w, w');
    }
  }

  lemma SidsStay(w: World, w': World)
    requires w.messages <= w'.messages
    ensures forall sid | HasSid(w.messages, sid) :: HasSid(w'.messages, sid)
  {
    forall sid | HasSid(w.messages, sid)
      ensures HasSid(w'.messages, sid)
    {
      var m :| m in w.messages && m.row.messageSid == sid;
      assert m in w'.messages;
    }
  }

  lemma StartKeepsInv(w: World, rid: int)
    requires Inv(w) && Enabled(w, StartWorkflow(rid))
    ensures Inv(Apply(w, StartWorkflow(rid)))
  {
    var w' := Apply(w, StartWorkflow(rid));
    var r := w.requests[rid];
    assert RequestOk(w, rid);
    AdmissionsStay(w, w');
    forall x | x in w'.requests
      ensures RequestOk(w', x)
    {
      assert x != rid ==> RequestOk(w, x);
      if x != rid && w.requests[x].phase.Stored? && w.requests[x].messageSid == r.messageSid {
        SameSidSameMessage(w, StoredMessage(MessageRow(r.messageSid, r.userId), rid),
                           StoredMessage(MessageRow(w.requests[x].messageSid, w.requests[x].userId), x));
      }
    }
  }

  lemma QuietStepKeepsInv(w: World, s: Step)
    requires Inv(w) && Enabled(w, s) && (s.Deliver? || s.CheckIdempotency? || s.PurgeTable? || s.End?)
    ensures Inv(Apply(w, s))
  {
    var w' := Apply(w, s);
    AdmissionsStay(w, w');
    forall x | x in w'.requests
      ensures RequestOk(w', x)
    {
      assert x in w.requests ==> RequestOk(w, x);
    }
  }

  lemma {:induction false} InvHolds(h: History)
    requires Legal(h)
    ensures Inv(After(h))
  {
    if h.Then? {
      InvHolds(h.before);
      var w := After(h.before);
      match h.s
      case PassGate(rid, now, later) => GateKeepsInv(w, rid, now, later);
      case Store(rid) => StoreKeepsInv(w, rid);
      case StartWorkflow(rid) => StartKeepsInv(w, rid);
      case _ => QuietStepKeepsInv(w, h.s);
    } else {
      forall userId, from, to
        ensures AdmittedRequests(After(h), userId, from, to) == {}
      {
      }
    }
  }

  // ---------- over whole runs ----------

  /** However deliveries of one sid overlap, it has at most one message row and at most one workflow. */
  lemma OneMessagePerSid(h: History)
    requires Legal(h)
    ensures var w := After(h);
            && (forall i, j | 0 <= i < j < |w.messages| :: w.messages[i].row.messageSid != w.messages[j].row.messageSid)
            && Distinct(w.started)
  {
    InvHolds(h);
  }

  /** A workflow is started only once its message is stored, so its activity always finds the row. */
  lemma StartedWorkflowsFindTheirMessage(h: History, messageSid: string)
    requires Legal(h) && messageSid in After(h).started
    ensures exists m | m in After(h).messages :: m.row.messageSid == messageSid
  {
    InvHolds(h);
  }

  /** The requests whose messages are stored, for the user and admitted in the window. */
  function StoredRequests(w: World, userId: int, from: int, to: int): set<int> {
    set rid | rid in AdmittedRequests(w, userId, from, to) && w.requests[rid].stored
  }

  /**
   The limit reaches the message table: of the messages one sender has stored, whatever was delivered
   and however requests overlapped, at most the allowance were admitted in any closed window, as long
   as the window and the lag of the purge's clock are together no longer than the purge retention.
   */
  lemma StoredMessagesAreLimited(h: History, lag: int, userId: int, from: int, to: int)
    requires Legal(h) && to <= from + After(h).settings.Window()
    requires RateLimit.PurgesReadWithin(After(h).gate, lag) && RateLimitRuns.PurgingIsSafe(After(h).settings, lag)
    ensures |StoredRequests(After(h), userId, from, to)| <= RateLimitRuns.Allowance(After(h).settings)
  {
    InvHolds(h);
    var w := After(h);
    RateLimitRuns.BoundHoldsWhenSafe(w.settings, w.gate, lag);
    var admitted, stored := AdmittedRequests(w, userId, from, to), StoredRequests(w, userId, from, to);
    assert admitted == stored + (admitted - stored);
  }

  /** Every stored message was inserted by exactly one admitted request of its own. */
  lemma StoredByItsRequest(h: History, a: StoredMessage, b: StoredMessage)
    requires Legal(h) && a in After(h).messages && b in After(h).messages
    ensures var w := After(h);
            && a.rid in w.requests && w.requests[a.rid].stored && w.requests[a.rid].admitted
            && a.row == MessageRow(w.requests[a.rid].messageSid, w.requests[a.rid].userId)
            && (a.rid == b.rid ==> a == b)
  {
    InvHolds(h);
    assert RequestOk(After(h), a.rid);
  }

  predicate Extends(h: History, from: History) {
    h == from || (h.Then? && Extends(h.before, from))
  }

  /**
   A request that stored its message and died before starting the workflow is never made up for:
   later deliveries of the sid are duplicates, so no workflow for it is ever started.
   */
  lemma {:induction false} LostStartIsNotRecovered(h: History, from: History, rid: int)
    requires Legal(h) && Extends(h, from) && Legal(from)
    requires rid in After(from).requests && After(from).requests[rid].phase.Ended? && After(from).requests[rid].stored
    requires After(from).requests[rid].messageSid !in After(from).started
    ensures rid in After(h).requests && After(h).requests[rid] == After(from).requests[rid]
    ensures After(from).requests[rid].messageSid !in After(h).started
  {
    if h != from {
      LostStartIsNotRecovered(h.before, from, rid);
      InvHolds(h.before);
      var w := After(h.before);
      var r := w.requests[rid];
      assert RequestOk(w, rid);
      if h.s.StartWorkflow? {
        var other := w.requests[h.s.rid];
        assert RequestOk(w, h.s.rid);
        if other.messageSid == r.messageSid {
          SameSidSameMessage(w, StoredMessage(MessageRow(r.messageSid, r.userId), rid),
                             StoredMessage(MessageRow(other.messageSid, other.userId), h.s.rid));
        }
      }
    }
  }

  /** Some continuation of the run starts the workflow of the sid. */
  ghost predicate CanStillStart(h: History, messageSid: string)
    requires Legal(h)
  {
    exists h' :: Legal(h') && Extends(h', h) && messageSid in After(h').started
  }

  /**
   Exactly which stored messages get a workflow: some continuation starts it if and only if it is
   started already, or the request that stored the message is alive between storing and starting.
   */
  lemma StartsExactlyWhileItsRequestLives(h: History, m: StoredMessage)
    requires Legal(h) && m in After(h).messages
    ensures m.rid in After(h).requests
    ensures CanStillStart(h, m.row.messageSid) <==>
              m.row.messageSid in After(h).started || After(h).requests[m.rid].phase.Stored?
  {
    InvHolds(h);
    var w := After(h);
    assert RequestOk(w, m.rid);
    if m.row.messageSid in w.started {
      assert Extends(h, h);
    } else if w.requests[m.rid].phase.Stored? {
      var h' := Then(h, StartWorkflow(m.rid));
      assert Legal(h') && Extends(h', h) && m.row.messageSid in After(h').started;
    } else {
      forall h' | Legal(h') && Extends(h', h)
        ensures m.row.messageSid !in After(h').started
      {
        LostStartIsNotRecovered(h', h, m.rid);
      }
    }
  }

  // ---------- the uninterrupted delivery is one of the runs ----------

  function TablesOf(w: World): Tables {
    var rows := seq(|w.messages|, i requires 0 <= i < |w.messages| => w.messages[i].row);
    Tables(rows, RateLimit.Run(w.settings, w.gate), w.started)
  }

  lemma SeenIsHasSid(w: World, messageSid: string)
    ensures Seen(TablesOf(w).messages, messageSid) <==> HasSid(w.messages, messageSid)
  {
    var rows := TablesOf(w).messages;
    if HasSid(w.messages, messageSid) {
      var i :| 0 <= i < |w.messages| && w.messages[i].row.messageSid == messageSid;
      assert rows[i] in rows;
    }
    if Seen(rows, messageSid) {
      var i :| 0 <= i < |rows| && rows[i].messageSid == messageSid;
      assert w.messages[i] in w.messages;
    }
  }

  /** How a request ends for each response. */
  predicate EndsAs(response: Response, r: Request) {
    match response
    case Accepted => r.phase.Started?
    case DuplicateMessageSid => r.phase.Ended? && !r.admitted
    case RateLimitExceeded => r.phase.Ended? && !r.admitted
    case DiedUnstarted => r.phase.Ended? && r.stored
  }

  lemma AdmittedDeliveryIsARun(h: History, from: History, rid: int, dies: bool) returns (h': History)
    requires Legal(h) && Extends(h, from) && rid in After(h).requests && After(h).requests[rid].phase.Admitted?
    requires !HasSid(After(h).messages, After(h).requests[rid].messageSid)
    ensures Legal(h') && Extends(h', from) && rid in After(h').requests
    ensures EndsAs(if dies then DiedUnstarted else Accepted, After(h').requests[rid])
    ensures var w, r := After(h), After(h).requests[rid];
            TablesOf(After(h')) ==
            TablesOf(w).(messages := TablesOf(w).messages + [MessageRow(r.messageSid, r.userId)],
                         started := if dies then w.started else w.started + [r.messageSid])
  {
    var stored := Then(h, Store(rid));
    assert TablesOf(After(stored)).messages ==
           TablesOf(After(h)).messages + [MessageRow(After(h).requests[rid].messageSid, After(h).requests[rid].userId)];
    h' := Then(stored, if dies then End(rid) else StartWorkflow(rid));
    assert Extends(stored, from);
  }

  /**
   The delivery that runs without interference is one of the runs: from any reachable world, what
   `WebhookStore.ReceiveSms` does to the tables and answers is what this request's own steps do.
   */
  lemma DeliveryIsARun(h: History, rid: int, messageSid: string, arrival: RateLimit.Event, dies: bool)
    returns (h': History)
    requires Legal(h) && rid !in After(h).requests && arrival.Arrival?
    ensures Legal(h') && Extends(h', h) && rid in After(h').requests
    ensures var (tables, response) := Delivery(TablesOf(After(h)), messageSid, After(h).settings, arrival, dies);
            TablesOf(After(h')) == tables && EndsAs(response, After(h').requests[rid])
  {
    var w := After(h);
    SeenIsHasSid(w, messageSid);
    var arrived := Then(h, Deliver(rid, messageSid, arrival.userId));
    assert After(arrived).gate == w.gate && After(arrived).messages == w.messages;
    var checked := Then(arrived, CheckIdempotency(rid));
    assert After(checked).gate == w.gate && After(checked).messages == w.messages;
    assert Extends(arrived, h) && Extends(checked, h);
    if HasSid(w.messages, messageSid) {
      h' := checked;
    } else {
      var gated := Then(checked, PassGate(rid, arrival.readAt, arrival.insertedAt));
      assert Extends(gated, h) && After(gated).gate == RateLimit.Then(w.gate, arrival);
      if RateLimit.Admits(w.settings, RateLimit.Run(w.settings, w.gate), arrival) {
        h' := AdmittedDeliveryIsARun(gated, h, rid, dies);
      } else {
        h' := gated;
      }
    }
  }
}
