/** The webhook: idempotency gate, rate-limit gate, one transaction for the message, then its workflow. */
module Webhook {
  import opened Audit
  import opened Sequences
  import opened RateLimit

  datatype MessageRow = MessageRow(messageSid: string, userId: int)

  datatype AuditRow = AuditRow(messageSid: string, event: AuditEvent)

  /** How one delivery ends; a request may die after storing the message and before starting its workflow. */
  datatype Response = Accepted | DuplicateMessageSid | RateLimitExceeded | DiedUnstarted

  predicate Seen(messages: seq<MessageRow>, messageSid: string) {
    exists row | row in messages :: row.messageSid == messageSid
  }

  function ReceivedSids(audits: seq<AuditRow>): seq<string> {
    if audits == [] then []
    else
      var before, last := ReceivedSids(audits[..|audits| - 1]), audits[|audits| - 1];
      if last.event.Received? then before + [last.messageSid] else before
  }

  ghost function Sids(messages: seq<MessageRow>): seq<string> {
    seq(|messages|, i requires 0 <= i < |messages| => messages[i].messageSid)
  }

  /** A RECEIVED audit for every message and no other, and no sid twice. */
  ghost predicate MessagesOk(messages: seq<MessageRow>, audits: seq<AuditRow>) {
    ReceivedSids(audits) == Sids(messages) && Distinct(Sids(messages))
  }

  lemma AuditAppend(audits: seq<AuditRow>, row: AuditRow)
    ensures ReceivedSids(audits + [row]) == ReceivedSids(audits) + if row.event.Received? then [row.messageSid] else []
  {
    assert (audits + [row])[..|audits|] == audits;
    assert ReceivedSids(audits) + [] == ReceivedSids(audits);
  }

  /** Storing an unseen message with its RECEIVED audit keeps the tables matched. */
  lemma StoreKeepsMessagesOk(messages: seq<MessageRow>, audits: seq<AuditRow>, row: MessageRow)
    requires MessagesOk(messages, audits) && !Seen(messages, row.messageSid)
    ensures MessagesOk(messages + [row], audits + [AuditRow(row.messageSid, Received)])
  {
    AuditAppend(audits, AuditRow(row.messageSid, Received));
    assert Sids(messages + [row]) == Sids(messages) + [row.messageSid];
    forall i | 0 <= i < |messages|
      ensures Sids(messages)[i] != row.messageSid
    {
      assert messages[i] in messages;
    }
  }

  /** What deliveries change besides the audit log. */
  datatype Tables = Tables(messages: seq<MessageRow>, limits: seq<RateRow>, started: seq<string>)

  /** One uninterrupted delivery, the gates in order. */
  function Delivery(t: Tables, messageSid: string, settings: SmsSettings, arrival: Event, diesBeforeStart: bool):
      (Tables, Response)
    requires arrival.Arrival?
  {
    var limits := Step(settings, t.limits, arrival);
    var messages := t.messages + [MessageRow(messageSid, arrival.userId)];
    if Seen(t.messages, messageSid) then (t, DuplicateMessageSid)
    else if !Admits(settings, t.limits, arrival) then (t.(limits := limits), Response.RateLimitExceeded)
    else if diesBeforeStart then (Tables(messages, limits, t.started), DiedUnstarted)
    else (Tables(messages, limits, t.started + [messageSid]), Accepted)
  }

  class WebhookStore {
    const limiter: RateLimitTable
    var messages: seq<MessageRow>
    var audits: seq<AuditRow>
    /** Message sids of the workflows started. */
    var started: seq<string>

    ghost predicate Valid()
      reads this
    {
      && MessagesOk(messages, audits)
      && (forall sid | sid in started :: Seen(messages, sid))
      && Distinct(started)
    }

    constructor ()
      ensures Valid() && fresh(limiter) && messages == [] && started == []
    {
      limiter := new RateLimitTable();
      messages, audits, started := [], [], [];
    }

    method WriteAudit(messageSid: string, event: AuditEvent)
      modifies this`audits
      ensures audits == old(audits) + [AuditRow(messageSid, event)]
    {
      audits := audits + [AuditRow(messageSid, event)];
    }

    /**
     One delivery, the gates in order. A redelivery only leaves an audit row: it does not even count
     against the sender's limit. A workflow is started only for a message just stored.
     */
    method ReceiveSms(messageSid: string, userId: int, settings: SmsSettings, now: int, later: int, diesBeforeStart: bool)
      returns (response: Response)
      requires Valid()
      modifies this, limiter
      ensures Valid()
      ensures response.DuplicateMessageSid? <==> exists row | row in old(messages) :: row.messageSid == messageSid
      ensures response.DuplicateMessageSid? ==>
                && messages == old(messages) && started == old(started) && limiter.rows == old(limiter.rows)
                && audits == old(audits) + [AuditRow(messageSid, Duplicate)]
      ensures !response.DuplicateMessageSid? ==>
                && limiter.rows == Step(settings, old(limiter.rows), Arrival(userId, now, later))
                && (response.RateLimitExceeded? <==> !Admits(settings, old(limiter.rows), Arrival(userId, now, later)))
      ensures !response.DuplicateMessageSid? && now <= later && 0 <= settings.rateLimitWindowSeconds ==>
                (response.RateLimitExceeded? <==>
                 settings.rateLimitMax <=
                 CountSince(old(limiter.rows), userId, now - settings.rateLimitWindowSeconds * 1_000_000))
      ensures response.RateLimitExceeded? ==>
                && messages == old(messages) && started == old(started)
                && audits == old(audits) + [AuditRow(messageSid, RateLimited)]
      ensures response.Accepted? || response.DiedUnstarted? ==>
                && messages == old(messages) + [MessageRow(messageSid, userId)]
                && audits == old(audits) + [AuditRow(messageSid, Received)]
                && started == old(started) + (if response.Accepted? then [messageSid] else [])
                && (response.DiedUnstarted? <==> diesBeforeStart)
      ensures (Tables(messages, limiter.rows, started), response) ==
              Delivery(Tables(old(messages), old(limiter.rows), old(started)), messageSid, settings,
                       Arrival(userId, now, later), diesBeforeStart)
    {
      if Seen(messages, messageSid) {
        AuditAppend(audits, AuditRow(messageSid, Duplicate));
        WriteAudit(messageSid, Duplicate);
        return DuplicateMessageSid;
      }
      var admitted := limiter.Gate(userId, settings, now, later);
      if !admitted {
        AuditAppend(audits, AuditRow(messageSid, RateLimited));
        WriteAudit(messageSid, RateLimited);
        return Response.RateLimitExceeded;
      }
      ghost var before := messages;
      StoreKeepsMessagesOk(messages, audits, MessageRow(messageSid, userId));
      messages := messages + [MessageRow(messageSid, userId)];
      WriteAudit(messageSid, Received);
      assert forall sid | Seen(before, sid) :: Seen(messages, sid);
      if diesBeforeStart {
        return DiedUnstarted;
      }
      assert messageSid !in started;
      assert messages[|before|] in messages;
      started := started + [messageSid];
      return Accepted;
    }
  }
}
