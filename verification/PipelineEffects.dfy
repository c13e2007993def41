/**
 The effects outside the store, accounted for over whole runs: every reply, every vector and every
 queue entry is one committed attempt's own action, and every action that took effect is there.
 */
module PipelineEffects {
  import opened Wrappers
  import opened MessageStore
  import opened Pipeline
  import opened PipelineRuns
  import MatchRepository

  /** The attempt's action was this one and took effect. */
  predicate Took(a: Attempt, action: Action) {
    a.outcomes != [] && a.Actions() == [action] && a.outcomes[0].TookEffect()
  }

  /** The attempt's action was this one and was queued for the sweep. */
  predicate Deferred(a: Attempt, action: Action) {
    a.outcomes != [] && a.Actions() == [action] && a.outcomes[0].WasQueued()
  }

  function Takers(w: World, action: Action): set<int> {
    set aid | aid in w.attempts && Took(w.attempts[aid], action)
  }

  function Deferrers(w: World, action: Action): set<int> {
    set aid | aid in w.attempts && Deferred(w.attempts[aid], action)
  }

  ghost predicate Accounted(w: World) {
    && (forall reply :: multiset(w.e.replies)[reply] == |Takers(w, SendReply(reply))|)
    && (forall id :: id in w.e.index <==> 0 < |Takers(w, UpsertEmbedding(id))|)
    && (forall id :: multiset(w.e.db.outbox)[id] == |Deferrers(w, UpsertEmbedding(id))|)
  }

  predicate HasActed(w: World, aid: int) {
    aid in w.attempts && w.attempts[aid].outcomes != []
  }

  /** The attempt has done in both worlds the same, or nothing. */
  predicate SameDeeds(w: World, w': World, aid: int) {
    && (HasActed(w', aid) <==> HasActed(w, aid))
    && (HasActed(w, aid) && HasActed(w', aid) ==>
          && w'.attempts[aid].outcomes == w.attempts[aid].outcomes
          && w'.attempts[aid].Actions() == w.attempts[aid].Actions())
  }

  /** Only acting changes what attempts have done. */
  lemma OtherStepsDoNothing(w: World, s: Step, aid: int)
    requires AttemptsOk(w) && Enabled(w, s) && !s.Act?
    ensures SameDeeds(w, Apply(w, s), aid)
  {
    if aid in w.attempts {
      assert AttemptOk(w.e, w.nextId, w.attempts[aid]);
    }
  }

  lemma TakersStay(w: World, w': World, action: Action)
    requires forall aid :: SameDeeds(w, w', aid)
    ensures Takers(w', action) == Takers(w, action)
    ensures Deferrers(w', action) == Deferrers(w, action)
  {
    forall aid
      ensures aid in Takers(w', action) <==> aid in Takers(w, action)
      ensures aid in Deferrers(w', action) <==> aid in Deferrers(w, action)
    {
      assert SameDeeds(w, w', aid);
    }
  }

  lemma OtherStepsKeepAccounts(w: World, s: Step)
    requires AttemptsOk(w) && Accounted(w) && Enabled(w, s) && !s.Act?
    ensures Accounted(Apply(w, s))
  {
    var w' := Apply(w, s);
    assert w'.e.replies == w.e.replies && w'.e.index == w.e.index && w'.e.db.outbox == w.e.db.outbox;
    forall aid
      ensures SameDeeds(w, w', aid)
    {
      OtherStepsDoNothing(w, s, aid);
    }
    forall action
      ensures Takers(w', action) == Takers(w, action) && Deferrers(w', action) == Deferrers(w, action)
    {
      TakersStay(w, w', action);
    }
  }

  lemma ActingTakesItsAction(a: Attempt, o: Outcome, action: Action)
    requires |a.outcomes| < |a.Actions()|
    ensures a.Actions() == [a.Actions()[|a.outcomes|]] && !Took(a, action) && !Deferred(a, action)
    ensures var a' := a.(outcomes := a.outcomes + [o]);
            && (Took(a', action) <==> a.Actions() == [action] && o.TookEffect())
            && (Deferred(a', action) <==> a.Actions() == [action] && o.WasQueued())
  {
  }

  lemma TakersAfter(w: World, aid: int, o: Outcome, action: Action)
    requires Enabled(w, Act(aid, o))
    ensures |Takers(Apply(w, Act(aid, o)), action)| ==
            |Takers(w, action)| + if w.attempts[aid].Actions() == [action] && o.TookEffect() then 1 else 0
  {
    var w' := Apply(w, Act(aid, o));
    ActingTakesItsAction(w.attempts[aid], o, action);
    assert forall x | x != aid :: x in w'.attempts <==> x in w.attempts;
    if Took(w'.attempts[aid], action) {
      assert Takers(w', action) == Takers(w, action) + {aid};
    } else {
      assert Takers(w', action) == Takers(w, action);
    }
  }

  lemma DeferrersAfter(w: World, aid: int, o: Outcome, action: Action)
    requires Enabled(w, Act(aid, o))
    ensures |Deferrers(Apply(w, Act(aid, o)), action)| ==
            |Deferrers(w, action)| + if w.attempts[aid].Actions() == [action] && o.WasQueued() then 1 else 0
  {
    var w' := Apply(w, Act(aid, o));
    ActingTakesItsAction(w.attempts[aid], o, action);
    assert forall x | x != aid :: x in w'.attempts <==> x in w.attempts;
    if Deferred(w'.attempts[aid], action) {
      assert Deferrers(w', action) == Deferrers(w, action) + {aid};
    } else {
      assert Deferrers(w', action) == Deferrers(w, action);
    }
  }

  lemma PerformedCounts(e: Effects, action: Action, o: Outcome, reply: Reply, id: int)
    ensures var e' := Performed(e, action, o);
            && multiset(e'.replies)[reply] ==
               multiset(e.replies)[reply] + (if action == SendReply(reply) && o.TookEffect() then 1 else 0)
            && multiset(e'.db.outbox)[id] ==
               multiset(e.db.outbox)[id] + (if action == UpsertEmbedding(id) && o.WasQueued() then 1 else 0)
            && (id in e'.index <==> id in e.index || (action == UpsertEmbedding(id) && o.TookEffect()))
  {
  }

  lemma RepliesStayAccounted(w: World, aid: int, o: Outcome, reply: Reply)
    requires Enabled(w, Act(aid, o)) && multiset(w.e.replies)[reply] == |Takers(w, SendReply(reply))|
    ensures var w' := Apply(w, Act(aid, o)); multiset(w'.e.replies)[reply] == |Takers(w', SendReply(reply))|
  {
    var a := w.attempts[aid];
    ActingTakesItsAction(a, o, SendReply(reply));
    PerformedCounts(w.e, a.Actions()[|a.outcomes|], o, reply, 0);
    TakersAfter(w, aid, o, SendReply(reply));
  }

  lemma JobsStayAccounted(w: World, aid: int, o: Outcome, id: int)
    requires Enabled(w, Act(aid, o)) && multiset(w.e.db.outbox)[id] == |Deferrers(w, UpsertEmbedding(id))|
    requires id in w.e.index <==> 0 < |Takers(w, UpsertEmbedding(id))|
    ensures var w' := Apply(w, Act(aid, o));
            && multiset(w'.e.db.outbox)[id] == |Deferrers(w', UpsertEmbedding(id))|
            && (id in w'.e.index <==> 0 < |Takers(w', UpsertEmbedding(id))|)
  {
    var a := w.attempts[aid];
    ActingTakesItsAction(a, o, UpsertEmbedding(id));
    PerformedCounts(w.e, a.Actions()[|a.outcomes|], o, Reply(0, UnknownMessage), id);
    TakersAfter(w, aid, o, UpsertEmbedding(id));
    DeferrersAfter(w, aid, o, UpsertEmbedding(id));
  }

  lemma ActKeepsAccounts(w: World, aid: int, o: Outcome)
    requires Accounted(w) && Enabled(w, Act(aid, o))
    ensures Accounted(Apply(w, Act(aid, o)))
  {
    var w' := Apply(w, Act(aid, o));
    forall reply
      ensures multiset(w'.e.replies)[reply] == |Takers(w', SendReply(reply))|
    {
      RepliesStayAccounted(w, aid, o, reply);
    }
    forall id
      ensures multiset(w'.e.db.outbox)[id] == |Deferrers(w', UpsertEmbedding(id))|
      ensures id in w'.e.index <==> 0 < |Takers(w', UpsertEmbedding(id))|
    {
      JobsStayAccounted(w, aid, o, id);
    }
  }

  /**
   Nothing happens outside the store but what committed attempts did: a reply was sent as often as
   attempts sent it, a vector is in the index exactly when some attempt's write reached it, and a job
   is queued as often as attempts queued it. Attempts that have not committed have done nothing.
   */
  lemma {:induction false} EffectsAreAccounted(h: History)
    requires Legal(h)
    ensures Accounted(After(h))
    ensures forall aid | aid in After(h).attempts && After(h).attempts[aid].outcomes != [] ::
              After(h).attempts[aid].IsCommitted()
  {
    InvHolds(h);
    if h.Then? {
      EffectsAreAccounted(h.before);
      InvHolds(h.before);
      if h.s.Act? {
        ActKeepsAccounts(After(h.before), h.s.aid, h.s.o);
      } else {
        OtherStepsKeepAccounts(After(h.before), h.s);
      }
    }
  }

  lemma ThisOneOrNone(s: set<int>, x: int)
    requires forall y | y in s :: y == x
    ensures |s| == if x in s then 1 else 0
  {
    forall y | y in s
      ensures y in {x}
    {
    }
    assert s == if x in s then {x} else {};
  }

  lemma AtMostOne(s: set<int>)
    requires forall x, y | x in s && y in s :: x == y
    ensures |s| <= 1
  {
    if x :| x in s {
      ThisOneOrNone(s, x);
    } else {
      ThisOneOrNone(s, 0);
    }
  }

  /** However often a message is retried, its matches are texted at most once. */
  lemma MatchesAreTextedAtMostOnce(h: History, messageId: int)
    requires Legal(h)
    ensures multiset(After(h).e.replies)[Reply(messageId, WorkGoal)] <= 1
  {
    EffectsAreAccounted(h);
    var senders := Takers(After(h), SendReply(Reply(messageId, WorkGoal)));
    forall x, y | x in senders && y in senders
      ensures x == y
    {
      if x != y {
        OneCommitPerKind(h, x, y);
      }
    }
    AtMostOne(senders);
  }

  /** A message is answered at most once for each committed attempt, whatever the answers, so at most four times. */
  lemma AnsweredAtMostOncePerCommit(h: History, messageId: int)
    requires Legal(h)
    ensures var replies := multiset(After(h).e.replies);
            replies[Reply(messageId, WorkGoal)] + replies[Reply(messageId, UnknownMessage)] <=
            |CommittedOf(After(h), messageId)| <= 4
  {
    EffectsAreAccounted(h);
    ClassifiedOncePerCommit(h, messageId);
    var w := After(h);
    var matches := Takers(w, SendReply(Reply(messageId, WorkGoal)));
    var others := Takers(w, SendReply(Reply(messageId, UnknownMessage)));
    assert forall aid | aid in matches :: aid !in others && aid in CommittedOf(w, messageId);
    assert forall aid | aid in others :: aid in CommittedOf(w, messageId);
    SubsetIsNoLarger(matches + others, CommittedOf(w, messageId));
  }

  /** A job is queued at most once, and only committed jobs are queued or indexed. */
  lemma JobsAreQueuedAtMostOnce(h: History, jobId: int)
    requires Legal(h)
    ensures multiset(After(h).e.db.outbox)[jobId] <= 1
    ensures jobId in After(h).e.db.outbox || jobId in After(h).e.index ==> HasId(After(h).e.db.jobs, jobId)
  {
    InvHolds(h);
    EffectsAreAccounted(h);
    var w := After(h);
    var queuers := Deferrers(w, UpsertEmbedding(jobId));
    forall x, y | x in queuers && y in queuers
      ensures x == y
    {
      assert x != y ==> Apart(w.attempts[x], w.attempts[y]);
    }
    AtMostOne(queuers);
  }

  lemma OwnVectorOnly(h: History, aid: int, x: int)
    requires Legal(h) && aid in After(h).attempts && x in After(h).attempts && x != aid
    requires After(h).attempts[aid].IsCommitted() && After(h).attempts[aid].kind.JobPosting?
    ensures var w := After(h);
            var own := UpsertEmbedding(w.attempts[aid].rowId);
            !Took(w.attempts[x], own) && !Deferred(w.attempts[x], own)
  {
    InvHolds(h);
    EffectsAreAccounted(h);
    assert Apart(After(h).attempts[aid], After(h).attempts[x]);
  }

  /**
   A finished attempt has tried its one action, and what is outside says exactly how that went: the
   job's vector is there if and only if the write reached the index, its queue entry if and only if the
   enqueue committed, its match reply if and only if the send went out; a catch-all's reply counts
   once among those of its message.
   */
  lemma FinishedHasDelivered(h: History, aid: int)
    requires Legal(h) && aid in After(h).attempts && After(h).attempts[aid].phase.Finished?
    ensures var e, a := After(h).e, After(h).attempts[aid];
            && |a.outcomes| == 1
            && match a.kind
               case JobPosting =>
                 && (a.rowId in e.index <==> a.outcomes[0].TookEffect())
                 && multiset(e.db.outbox)[a.rowId] == (if a.outcomes[0].WasQueued() then 1 else 0)
               case WorkGoal =>
                 multiset(e.replies)[Reply(a.messageId, WorkGoal)] == if a.outcomes[0].TookEffect() then 1 else 0
               case UnknownMessage =>
                 var senders := Takers(After(h), SendReply(Reply(a.messageId, UnknownMessage)));
                 && multiset(e.replies)[Reply(a.messageId, UnknownMessage)] == |senders|
                 && (aid in senders <==> a.outcomes[0].TookEffect())
  {
    InvHolds(h);
    EffectsAreAccounted(h);
    var w, a := After(h), After(h).attempts[aid];
    assert AttemptOk(w.e, w.nextId, a);
    match a.kind
    case JobPosting =>
      var own := UpsertEmbedding(a.rowId);
      forall x | x in w.attempts && x != aid
        ensures !Took(w.attempts[x], own) && !Deferred(w.attempts[x], own)
      {
        OwnVectorOnly(h, aid, x);
      }
      ThisOneOrNone(Takers(w, own), aid);
      ThisOneOrNone(Deferrers(w, own), aid);
    case WorkGoal =>
      var senders := Takers(w, SendReply(Reply(a.messageId, WorkGoal)));
      forall x | x in senders
        ensures x == aid
      {
        if x != aid {
          OneCommitPerKind(h, x, aid);
        }
      }
      ThisOneOrNone(senders, aid);
    case UnknownMessage =>
  }

  // ---------- what the store holds because of which attempt ----------

  /** The attempt committed a work goal whose selection has this pair. */
  predicate Selected(a: Attempt, m: MatchRepository.MatchRow) {
    a.IsCommitted() && a.kind.WorkGoal? && m.workGoalId == a.rowId && m.jobId in a.matched
  }

  lemma StepKeepsSelections(w: World, s: Step, m: MatchRepository.MatchRow)
    requires Enabled(w, s) && (m in w.e.db.matches <==> exists aid :: aid in w.attempts && Selected(w.attempts[aid], m))
    ensures var w' := Apply(w, s);
            m in w'.e.db.matches <==> exists aid :: aid in w'.attempts && Selected(w'.attempts[aid], m)
  {
    var w' := Apply(w, s);
    forall aid | aid in w.attempts && (s.Receive? || aid != s.aid)
      ensures aid in w'.attempts && w'.attempts[aid] == w.attempts[aid]
    {
    }
    if !s.Receive? && s.aid in w.attempts {
      assert Selected(w.attempts[s.aid], m) ==> Selected(w'.attempts[s.aid], m);
      if Selected(w'.attempts[s.aid], m) && !s.Commit? {
        assert Selected(w.attempts[s.aid], m);
      }
    }
  }

  /** Over every run the match rows are exactly the selections of the committed work goals. */
  lemma {:induction false} MatchesAreTheSelections(h: History, m: MatchRepository.MatchRow)
    requires Legal(h)
    ensures m in After(h).e.db.matches <==>
              exists aid :: aid in After(h).attempts && Selected(After(h).attempts[aid], m)
  {
    if h.Then? {
      MatchesAreTheSelections(h.before, m);
      StepKeepsSelections(After(h.before), h.s, m);
    }
  }

  /** The kind of the message's last commit in the run. */
  function LastCommitted(h: History, messageId: int): Option<MessageType>
    requires Legal(h)
  {
    match h
    case Start(_) => None
    case Then(before, s) =>
      if s.Commit? && After(before).attempts[s.aid].messageId == messageId
      then Some(After(before).attempts[s.aid].kind)
      else LastCommitted(before, messageId)
  }

  /** Only the commit of an attempt of the message records a type for it. */
  lemma StepRecords(w: World, s: Step, messageId: int)
    requires AttemptsOk(w) && Enabled(w, s)
    ensures var before, after := w.e.db.messages, Apply(w, s).e.db.messages;
            if s.Commit? && w.attempts[s.aid].messageId == messageId then
              messageId in before && messageId in after && after[messageId] == Some(w.attempts[s.aid].kind)
            else if s.Receive? && s.messageId == messageId then
              messageId !in before && messageId in after && after[messageId] == None
            else
              (messageId in after <==> messageId in before)
              && (messageId in before ==> messageId in after && after[messageId] == before[messageId])
  {
    if s.Commit? {
      assert AttemptOk(w.e, w.nextId, w.attempts[s.aid]);
    }
  }

  /** A message's recorded type is the handler's of its last committed attempt, and none before the first. */
  lemma {:induction false} RecordedTypeIsTheLastCommitted(h: History, messageId: int)
    requires Legal(h)
    ensures messageId in After(h).e.db.messages ==> After(h).e.db.messages[messageId] == LastCommitted(h, messageId)
    ensures messageId !in After(h).e.db.messages ==> LastCommitted(h, messageId) == None
  {
    if h.Then? {
      RecordedTypeIsTheLastCommitted(h.before, messageId);
      InvHolds(h.before);
      StepRecords(After(h.before), h.s, messageId);
    }
  }
}
