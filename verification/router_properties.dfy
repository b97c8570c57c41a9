/** What one routed message, subscription change or teardown does, for every router state. */
module RouterProperties {
  import opened Common
  import opened Sequences
  import opened Protocol
  import opened QueueModel
  import opened RouterModel
  import QueueProperties
  import Capability

  // ---------------------------------------------------------------- enqueueing for many users

  lemma {:induction false} EnqueueAllKeeps(s: Store, lim: Limits, users: seq<UserId>, m: ServerMessage, victims: seq<seq<UserId>>)
    requires WellFormed(s) && Bounded(s, lim) && ValidEnqueues(s, lim, users, m, victims)
    ensures WellFormed(EnqueueAll(s, lim, users, m, victims).0)
    ensures Bounded(EnqueueAll(s, lim, users, m, victims).0, lim)
  {
    hide Enqueue, Bounded, WellFormed, ValidEnqueue;
    if users != [] {
      var n := |users| - 1;
      var before := EnqueueAll(s, lim, users[..n], m, victims[..n]).0;
      EnqueueAllKeeps(s, lim, users[..n], m, victims[..n]);
      QueueProperties.EnqueueWellFormed(before, lim, users[n], m, victims[n]);
      QueueProperties.EnqueueBounded(before, lim, users[n], m, victims[n]);
    }
  }

  /** A user's queue ends as an in-order part of what it was, followed by `m` if enqueued for it. */
  lemma {:induction false} EnqueueAllQueue(s: Store, lim: Limits, users: seq<UserId>, m: ServerMessage,
                                           victims: seq<seq<UserId>>, v: UserId)
    requires WellFormed(s) && Bounded(s, lim) && ValidEnqueues(s, lim, users, m, victims) && Distinct(users)
    ensures Subsequence(Queue(EnqueueAll(s, lim, users, m, victims).0, v), Queue(s, v) + if v in users then [m] else [])
  {
    hide Enqueue, Bounded, WellFormed, ValidEnqueue, Subsequence;
    if users == [] {
      SubsequenceRefl(Queue(s, v));
      assert Queue(s, v) + [] == Queue(s, v);
    } else {
      var n := |users| - 1;
      var u := users[n];
      assert users == users[..n] + [u];
      var before := EnqueueAll(s, lim, users[..n], m, victims[..n]).0;
      EnqueueAllKeeps(s, lim, users[..n], m, victims[..n]);
      EnqueueAllQueue(s, lim, users[..n], m, victims[..n], v);
      EnqueueQueue(before, lim, u, m, victims[n], v);
      var q', q := Queue(EnqueueAll(s, lim, users, m, victims).0, v), Queue(before, v);
      if v == u {
        assert Queue(s, v) + [] == Queue(s, v);
        SubsequenceSnoc(q, Queue(s, v), m);
        SubsequenceTrans(q', q + [m], Queue(s, v) + [m]);
      } else {
        assert q + [] == q;
        SubsequenceTrans(q', q, Queue(s, v) + if v in users then [m] else []);
      }
    }
  }

  lemma EnqueueQueue(s: Store, lim: Limits, u: UserId, m: ServerMessage, victims: seq<UserId>, v: UserId)
    requires WellFormed(s) && ValidEnqueue(s, lim, u, m, victims)
    ensures Subsequence(Queue(Enqueue(s, lim, u, m, victims).0, v), Queue(s, v) + if v == u then [m] else [])
  {
    hide Subsequence, WellFormed;
    assert Queue(s, v) + [] == Queue(s, v);
    if v != u {
      QueueProperties.EnqueueOthers(s, lim, u, m, victims, v);
    } else if Refuses(lim, m) {
      SubsequenceRefl(Queue(s, v));
      SubsequenceSnoc(Queue(s, v), Queue(s, v), m);
    } else {
      QueueProperties.EnqueueNewest(s, lim, u, m, victims);
    }
  }

  // ---------------------------------------------------------------- routing

  lemma {:induction false} DisconnectSlowKeeps(r: Router, slow: seq<(UserId, ConnId)>)
    ensures var r' := DisconnectSlow(r, slow);
      && r'.subscriptions == r.subscriptions && r'.anchors == r.anchors
      && r'.offline == r.offline && r'.outbox == r.outbox
  {
    if slow != [] {
      DisconnectSlowKeeps(r, slow[..|slow| - 1]);
    }
  }

  /**
   Compare-and-remove: after disconnecting a batch of slow sessions a user is still connected, on
   the same session, exactly when that very session was not in the batch. A mark left by an older
   session never removes a newer one.
   */
  lemma {:induction false} DisconnectSlowExact(r: Router, slow: seq<(UserId, ConnId)>, u: UserId)
    ensures var r' := DisconnectSlow(r, slow);
      && (u in r'.clients <==> u in r.clients && (u, r.clients[u]) !in slow)
      && (u in r'.clients ==> r'.clients[u] == r.clients[u])
  {
    if slow != [] {
      var front, last := slow[..|slow| - 1], slow[|slow| - 1];
      DisconnectSlowExact(r, front, u);
      assert slow == front + [last];
      if u in r.clients {
        assert (u, r.clients[u]) in slow <==> (u, r.clients[u]) in front || (last.0 == u && last.1 == r.clients[u]);
      }
    }
  }

  /** A stale teardown changes nothing; a current one removes exactly its own session. */
  lemma UnregisterExact(r: Router, user: UserId, conn: ConnId, u: UserId)
    ensures var r' := UnregisterClient(r, user, conn);
      && (u in r'.clients <==> u in r.clients && !(u == user && r.clients[u] == conn))
      && (u in r'.clients ==> r'.clients[u] == r.clients[u])
      && r'.subscriptions == r.subscriptions && r'.offline == r.offline
  {
  }

  /** The users whose queue the enqueues of one routed message evicted. */
  function EvictedBy(r: Router, cfg: Config, message: ServerMessage, choice: RouteChoice): set<UserId>
    requires |choice.victims| == |ToEnqueue(r, choice)|
  {
    EnqueueAll(r.offline, cfg.limits, ToEnqueue(r, choice), message, choice.victims).1
  }

  lemma RouteParts(r: Router, cfg: Config, message: ServerMessage, choice: RouteChoice)
    requires |choice.victims| == |ToEnqueue(r, choice)|
    ensures var r' := RouteMessage(r, cfg, message, choice);
      var gone := EvictedBy(r, cfg, message, choice);
      && r'.anchors == r.anchors
      && r'.outbox == r.outbox + Added(r, message, choice)
      && r'.offline == EnqueueAll(r.offline, cfg.limits, ToEnqueue(r, choice), message, choice.victims).0
      && r'.subscriptions == (if gone == {} then r.subscriptions else DropSubscriptions(r.subscriptions, gone))
  {
    hide EnqueueAll, DropSubscriptions, Enqueue, Added, SlowMarks;
    DisconnectSlowKeeps(r.(outbox := r.outbox + Added(r, message, choice)), SlowMarks(r, choice));
  }

  /** Deliveries and enqueues cover disjoint users, each once. */
  lemma FatesPartition(r: Router, message: ServerMessage, choice: RouteChoice, u: UserId)
    requires Distinct(choice.order)
    ensures u in choice.order <==>
      u in ToEnqueue(r, choice) || (u in r.clients && Delivery(u, r.clients[u], message) in Added(r, message, choice))
    ensures u in ToEnqueue(r, choice) ==> forall x :: x in Added(r, message, choice) ==> x.user != u
  {
    hide DisconnectSlow;
    WithFateFacts(r.clients, choice.full, choice.order, Sent);
    WithFateFacts(r.clients, choice.full, choice.order, Offline);
    WithFateFacts(r.clients, choice.full, choice.order, Slow);
    var sent := WithFate(r.clients, choice.full, choice.order, Sent);
    if u in sent {
      var i :| 0 <= i < |sent| && sent[i] == u;
      assert Added(r, message, choice)[i] == Delivery(u, r.clients[u], message);
    }
  }

  lemma FatesDistinct(r: Router, message: ServerMessage, choice: RouteChoice)
    requires Distinct(choice.order)
    ensures Distinct(Added(r, message, choice)) && Distinct(ToEnqueue(r, choice))
    ensures forall x :: x in Added(r, message, choice) ==>
      x.user in r.clients && x == Delivery(x.user, r.clients[x.user], message)
  {
    WithFateFacts(r.clients, choice.full, choice.order, Sent);
    WithFateFacts(r.clients, choice.full, choice.order, Offline);
    WithFateFacts(r.clients, choice.full, choice.order, Slow);
    DistinctConcat(WithFate(r.clients, choice.full, choice.order, Offline),
                   WithFate(r.clients, choice.full, choice.order, Slow));
    var sent := WithFate(r.clients, choice.full, choice.order, Sent);
    forall x | x in Added(r, message, choice)
      ensures x.user in r.clients && x == Delivery(x.user, r.clients[x.user], message)
    {
      var i :| 0 <= i < |sent| && Added(r, message, choice)[i] == x;
      assert sent[i] in sent;
    }
  }

  /**
   Every recipient is served exactly once: it is sent the message on its live session, or handed
   to the offline queue, never both and never twice; and nobody else is.
   */
  lemma RouteServesEachOnce(r: Router, cfg: Config, doc: DocId, from: UserId, message: ServerMessage, choice: RouteChoice)
    requires ValidChoice(r, cfg, doc, from, message, choice)
    requires |choice.victims| == |ToEnqueue(r, choice)|
    ensures RouteMessage(r, cfg, message, choice).outbox == r.outbox + Added(r, message, choice)
    ensures Distinct(Added(r, message, choice)) && Distinct(ToEnqueue(r, choice))
    ensures forall u :: u in ToEnqueue(r, choice) ==> forall x :: x in Added(r, message, choice) ==> x.user != u
    ensures forall u :: (
      IsRecipient(r, cfg, doc, from, message, u)
      <==> u in ToEnqueue(r, choice)
           || (u in r.clients && Delivery(u, r.clients[u], message) in Added(r, message, choice)))
  {
    hide ValidEnqueues, EnqueueAll, IsRecipient, RouteMessage, Added, ToEnqueue;
    RouteParts(r, cfg, message, choice);
    FatesDistinct(r, message, choice);
    forall u
      ensures u in ToEnqueue(r, choice) ==> forall x :: x in Added(r, message, choice) ==> x.user != u
      ensures IsRecipient(r, cfg, doc, from, message, u)
        <==> u in ToEnqueue(r, choice)
             || (u in r.clients && Delivery(u, r.clients[u], message) in Added(r, message, choice))
    {
      FatesPartition(r, message, choice, u);
    }
  }

  lemma DistinctConcat<T>(a: seq<T>, b: seq<T>)
    requires Distinct(a) && Distinct(b) && forall x :: x in a ==> x !in b
    ensures Distinct(a + b)
  {
    forall i, j | 0 <= i < j < |a + b|
      ensures (a + b)[i] != (a + b)[j]
    {
      if i < |a| && |a| <= j {
        assert a[i] in a && b[j - |a|] in b;
      }
    }
  }

  // ---------------------------------------------------------------- what each user gets

  /** Everything routed that was put on `u`'s channels, in order; session notices are not counted. */
  function SentTo(outbox: seq<Delivery>, u: UserId): seq<ServerMessage> {
    if outbox == [] then []
    else
      var x := outbox[|outbox| - 1];
      SentTo(outbox[..|outbox| - 1], u) + if x.user == u && !x.message.Error? then [x.message] else []
  }

  lemma {:induction false} SentConcat(a: seq<Delivery>, b: seq<Delivery>, u: UserId)
    ensures SentTo(a + b, u) == SentTo(a, u) + SentTo(b, u)
    decreases |b|
  {
    if b == [] {
      assert a + b == a;
    } else {
      assert (a + b)[..|a + b| - 1] == a + b[..|b| - 1];
      SentConcat(a, b[..|b| - 1], u);
    }
  }

  lemma {:induction false} SentDeliveries(clients: map<UserId, ConnId>, users: seq<UserId>, message: ServerMessage, u: UserId)
    requires Distinct(users) && !message.Error? && forall v :: v in users ==> v in clients
    ensures SentTo(Deliveries(clients, users, message), u) == if u in users then [message] else []
  {
    if users != [] {
      var front, last := users[..|users| - 1], users[|users| - 1];
      assert users == front + [last];
      SentDeliveries(clients, front, message, u);
      assert Deliveries(clients, users, message)[..|front|] == Deliveries(clients, front, message);
    }
  }

  /**
   What a route does for one user, copy for copy. A recipient whose channel takes the message gets
   exactly one copy there; an offline or slow recipient gets at most one in its queue, behind an
   in-order part of what was there; anybody else gets nothing, whatever it already holds.
   */
  lemma RouteTouchesOnlyRecipients(r: Router, cfg: Config, doc: DocId, from: UserId, message: ServerMessage,
                                   choice: RouteChoice, u: UserId)
    requires WellFormed(r.offline) && Bounded(r.offline, cfg.limits) && !message.Error?
    requires ValidChoice(r, cfg, doc, from, message, choice)
    requires |choice.victims| == |ToEnqueue(r, choice)|
    ensures var r', served := RouteMessage(r, cfg, message, choice), IsRecipient(r, cfg, doc, from, message, u);
      var live := FateOf(r.clients, choice.full, u) == Sent;
      && SentTo(r'.outbox, u) == SentTo(r.outbox, u) + (if served && live then [message] else [])
      && Subsequence(Queue(r'.offline, u), Queue(r.offline, u) + if served && !live then [message] else [])
  {
    hide EnqueueAll, IsRecipient, Bounded, WellFormed, Queue, RouteMessage, ValidEnqueues, Subsequence;
    var queued := ToEnqueue(r, choice);
    RouteParts(r, cfg, message, choice);
    WithFateFacts(r.clients, choice.full, choice.order, Sent);
    WithFateFacts(r.clients, choice.full, choice.order, Offline);
    WithFateFacts(r.clients, choice.full, choice.order, Slow);
    SentConcat(r.outbox, Added(r, message, choice), u);
    SentDeliveries(r.clients, WithFate(r.clients, choice.full, choice.order, Sent), message, u);
    FatesDistinct(r, message, choice);
    assert ValidEnqueues(r.offline, cfg.limits, queued, message, choice.victims);
    EnqueueAllQueue(r.offline, cfg.limits, queued, message, choice.victims, u);
  }

  /** A route ends exactly the sessions of recipients whose channel was full. */
  lemma RouteSessions(r: Router, cfg: Config, doc: DocId, from: UserId, message: ServerMessage,
                      choice: RouteChoice, u: UserId)
    requires ValidChoice(r, cfg, doc, from, message, choice)
    requires |choice.victims| == |ToEnqueue(r, choice)|
    ensures var r' := RouteMessage(r, cfg, message, choice);
      var cutOff := IsRecipient(r, cfg, doc, from, message, u) && FateOf(r.clients, choice.full, u) == Slow;
      && (u in r'.clients <==> u in r.clients && !cutOff)
      && (u in r'.clients ==> r'.clients[u] == r.clients[u])
  {
    hide EnqueueAll, IsRecipient, ValidEnqueues, DropSubscriptions;
    DisconnectSlowExact(r.(outbox := r.outbox + Added(r, message, choice)), SlowMarks(r, choice), u);
    WithFateFacts(r.clients, choice.full, choice.order, Slow);
    var slow := WithFate(r.clients, choice.full, choice.order, Slow);
    if u in slow {
      var i :| 0 <= i < |slow| && slow[i] == u;
      assert SlowMarks(r, choice)[i] == (u, r.clients[u]);
    }
  }

  /** Users evicted while routing keep no subscription anywhere; all others keep exactly theirs. */
  lemma RouteDropsEvicted(r: Router, cfg: Config, message: ServerMessage, choice: RouteChoice, d: DocId, u: UserId)
    requires |choice.victims| == |ToEnqueue(r, choice)|
    ensures var subs' := RouteMessage(r, cfg, message, choice).subscriptions;
      && (IsSubscribed(subs', u, d) <==>
            IsSubscribed(r.subscriptions, u, d) && u !in EvictedBy(r, cfg, message, choice))
      && (IsSubscribed(subs', u, d) ==> subs'[d][u] == r.subscriptions[d][u])
  {
    hide RouteMessage, EvictedBy;
    RouteParts(r, cfg, message, choice);
    var gone := EvictedBy(r, cfg, message, choice);
    if IsSubscribed(r.subscriptions, u, d) && u !in gone {
      assert u in r.subscriptions[d] - gone;
    }
  }

  lemma {:induction false} EnqueueAllSparesUntracked(
    s: Store, lim: Limits, users: seq<UserId>, m: ServerMessage, victims: seq<seq<UserId>>, v: UserId)
    requires WellFormed(s) && Bounded(s, lim) && ValidEnqueues(s, lim, users, m, victims)
    requires v !in users && Queue(s, v) == []
    ensures v !in EnqueueAll(s, lim, users, m, victims).1
    ensures Queue(EnqueueAll(s, lim, users, m, victims).0, v) == []
  {
    hide Enqueue, Bounded, WellFormed, ValidEnqueue, Queue;
    if users != [] {
      var n := |users| - 1;
      assert users == users[..n] + [users[n]];
      EnqueueAllKeeps(s, lim, users[..n], m, victims[..n]);
      EnqueueAllSparesUntracked(s, lim, users[..n], m, victims[..n], v);
      QueueProperties.EnqueueSparesUntracked(
        EnqueueAll(s, lim, users[..n], m, victims[..n]).0, lim, users[n], m, victims[n], v);
    }
  }

  /**
   A live user whose channel takes what it is sent, or who is the sender, loses nothing to a route:
   it has nothing queued, so it is never the evicted one, and it keeps its session and every
   subscription with its authorization.
   */
  lemma LiveUserKept(r: Router, cfg: Config, doc: DocId, from: UserId, message: ServerMessage,
                     choice: RouteChoice, u: UserId, d: DocId)
    requires WellFormed(r.offline) && Bounded(r.offline, cfg.limits)
    requires ValidChoice(r, cfg, doc, from, message, choice)
    requires |choice.victims| == |ToEnqueue(r, choice)|
    requires u in r.clients && Queue(r.offline, u) == [] && (u == from || r.clients[u] !in choice.full)
    ensures var r' := RouteMessage(r, cfg, message, choice);
      && u !in EvictedBy(r, cfg, message, choice)
      && u in r'.clients && r'.clients[u] == r.clients[u]
      && (IsSubscribed(r'.subscriptions, u, d) <==> IsSubscribed(r.subscriptions, u, d))
      && (IsSubscribed(r.subscriptions, u, d) ==> r'.subscriptions[d][u] == r.subscriptions[d][u])
  {
    hide EnqueueAll, WellFormed, Bounded, Queue, RouteMessage, ValidEnqueues;
    WithFateFacts(r.clients, choice.full, choice.order, Offline);
    WithFateFacts(r.clients, choice.full, choice.order, Slow);
    assert u !in ToEnqueue(r, choice);
    assert ValidEnqueues(r.offline, cfg.limits, ToEnqueue(r, choice), message, choice.victims);
    EnqueueAllSparesUntracked(r.offline, cfg.limits, ToEnqueue(r, choice), message, choice.victims, u);
    RouteSessions(r, cfg, doc, from, message, choice, u);
    RouteDropsEvicted(r, cfg, message, choice, d, u);
  }

  /** Everybody the queue would have to track at once to serve `users` as well. */
  ghost function Tracked(s: Store, users: seq<UserId>): set<UserId> {
    s.queues.Keys + set u | u in users
  }

  lemma TrackedSnoc(s: Store, users: seq<UserId>, u: UserId)
    ensures Tracked(s, users + [u]) == Tracked(s, users) + {u}
    ensures |Tracked(s, users)| <= |Tracked(s, users + [u])|
  {
    QueueProperties.SubsetSize(Tracked(s, users), Tracked(s, users + [u]));
  }

  lemma {:induction false} EnqueueAllWithRoom(
    s: Store, lim: Limits, users: seq<UserId>, m: ServerMessage, victims: seq<seq<UserId>>)
    requires WellFormed(s) && Bounded(s, lim) && ValidEnqueues(s, lim, users, m, victims)
    requires |Tracked(s, users)| <= lim.maxUsers
    ensures EnqueueAll(s, lim, users, m, victims).1 == {}
    ensures EnqueueAll(s, lim, users, m, victims).0.queues.Keys <= Tracked(s, users)
  {
    hide Enqueue, Bounded, WellFormed, ValidEnqueue, Tracked;
    if users == [] {
      TrackedNone(s);
    } else {
      var n := |users| - 1;
      var before := EnqueueAll(s, lim, users[..n], m, victims[..n]).0;
      assert users == users[..n] + [users[n]];
      TrackedSnoc(s, users[..n], users[n]);
      EnqueueAllKeeps(s, lim, users[..n], m, victims[..n]);
      EnqueueAllWithRoom(s, lim, users[..n], m, victims[..n]);
      QueueProperties.SubsetSize(before.queues.Keys + {users[n]}, Tracked(s, users));
      QueueProperties.EnqueueWithRoom(before, lim, users[n], m, victims[n]);
    }
  }

  lemma TrackedNone(s: Store)
    ensures Tracked(s, []) == s.queues.Keys
  {
  }

  /** A route for whose queued recipients the user cap has room takes nobody's subscription. */
  lemma RoomEvictsNobody(r: Router, cfg: Config, doc: DocId, from: UserId, message: ServerMessage, choice: RouteChoice)
    requires WellFormed(r.offline) && Bounded(r.offline, cfg.limits)
    requires ValidChoice(r, cfg, doc, from, message, choice)
    requires |choice.victims| == |ToEnqueue(r, choice)|
    requires |Tracked(r.offline, ToEnqueue(r, choice))| <= cfg.limits.maxUsers
    ensures EvictedBy(r, cfg, message, choice) == {}
    ensures RouteMessage(r, cfg, message, choice).subscriptions == r.subscriptions
  {
    hide EnqueueAll, WellFormed, Bounded, RouteMessage, ValidEnqueues;
    assert ValidEnqueues(r.offline, cfg.limits, ToEnqueue(r, choice), message, choice.victims);
    EnqueueAllWithRoom(r.offline, cfg.limits, ToEnqueue(r, choice), message, choice.victims);
    RouteParts(r, cfg, message, choice);
  }

  // ---------------------------------------------------------------- subscribing

  /**
   A subscribe is accepted exactly for a current subscriber or when both caps leave room; it then
   states that one user's authorization for that one document anew, and touches nothing else.
   */
  lemma SubscribeExact(r: Router, cfg: Config, user: UserId, doc: DocId, auth: Option<u64>, u: UserId, d: DocId)
    ensures var (r', accepted) := Subscribe(r, cfg, user, doc, auth);
      && (accepted <==>
            || IsSubscribed(r.subscriptions, user, doc)
            || (doc in r.subscriptions && |r.subscriptions[doc]| < cfg.maxSubscribersPerDoc)
            || (doc !in r.subscriptions && |r.subscriptions| < cfg.maxDocuments && 0 < cfg.maxSubscribersPerDoc))
      && (IsSubscribed(r'.subscriptions, u, d) <==>
            IsSubscribed(r.subscriptions, u, d) || (accepted && u == user && d == doc))
      && (IsSubscribed(r'.subscriptions, u, d) ==>
            r'.subscriptions[d][u] == if accepted && u == user && d == doc then auth else r.subscriptions[d][u])
  {
    var none: map<UserId, Option<u64>> := map[];
    assert |none| == 0;
  }

  /** An unsubscribe ends exactly one user's subscription to one document. */
  lemma UnsubscribeExact(r: Router, user: UserId, doc: DocId, u: UserId, d: DocId)
    ensures var subs' := Unsubscribe(r, user, doc).subscriptions;
      && (IsSubscribed(subs', u, d) <==> IsSubscribed(r.subscriptions, u, d) && !(u == user && d == doc))
      && (IsSubscribed(subs', u, d) ==> subs'[d][u] == r.subscriptions[d][u])
  {
    if IsSubscribed(r.subscriptions, u, d) && d == doc && u != user {
      assert u in r.subscriptions[doc] - {user};
    }
  }

  // ---------------------------------------------------------------- structure

  /** No document keeps an empty member map. */
  ghost predicate NoEmptyDocument(r: Router) {
    forall d :: d in r.subscriptions ==> r.subscriptions[d] != map[]
  }

  /** Both subscription caps and the anchor cap hold. */
  ghost predicate WithinCaps(r: Router, cfg: Config) {
    && |r.subscriptions| <= cfg.maxDocuments
    && (forall d :: d in r.subscriptions ==> |r.subscriptions[d]| <= cfg.maxSubscribersPerDoc)
    && |r.anchors| <= cfg.maxDocuments
  }

  /**
   A subscribe leaves an empty member map behind exactly when the per-document cap is zero and the
   document is new and still fits; with a positive cap it never does.
   */
  lemma SubscribeNoEmptyExact(r: Router, cfg: Config, user: UserId, doc: DocId, auth: Option<u64>)
    requires NoEmptyDocument(r)
    ensures NoEmptyDocument(Subscribe(r, cfg, user, doc, auth).0) <==>
      !(cfg.maxSubscribersPerDoc == 0 && doc !in r.subscriptions && |r.subscriptions| < cfg.maxDocuments)
  {
    var r' := Subscribe(r, cfg, user, doc, auth).0;
    if cfg.maxSubscribersPerDoc == 0 && doc !in r.subscriptions && |r.subscriptions| < cfg.maxDocuments {
      assert r'.subscriptions[doc] == map[];
    } else if doc in r'.subscriptions {
      if doc !in r.subscriptions {
        assert user in r'.subscriptions[doc];
      } else if r'.subscriptions[doc] != r.subscriptions[doc] {
        assert user in r'.subscriptions[doc];
      }
    }
  }

  lemma SubscribeWithinCaps(r: Router, cfg: Config, user: UserId, doc: DocId, auth: Option<u64>)
    requires WithinCaps(r, cfg)
    ensures WithinCaps(Subscribe(r, cfg, user, doc, auth).0, cfg)
  {
    var subs := r.subscriptions;
    var members := if doc in subs then subs[doc] else map[];
    if doc in subs || |subs| < cfg.maxDocuments {
      assert members == map[] || |members| <= cfg.maxSubscribersPerDoc;
      if user in members || |members| < cfg.maxSubscribersPerDoc {
        MemberAdded(members, user, auth);
        PutWithinCaps(r, cfg, doc, members[user := auth]);
      } else {
        PutWithinCaps(r, cfg, doc, members);
      }
    }
  }

  lemma MemberAdded(members: map<UserId, Option<u64>>, user: UserId, auth: Option<u64>)
    ensures |members[user := auth]| == if user in members then |members| else |members| + 1
  {
    AddKey(members.Keys, user);
    assert members[user := auth].Keys == members.Keys + {user};
  }

  lemma PutWithinCaps(r: Router, cfg: Config, doc: DocId, members: map<UserId, Option<u64>>)
    requires WithinCaps(r, cfg) && |members| <= cfg.maxSubscribersPerDoc
    requires doc in r.subscriptions || |r.subscriptions| < cfg.maxDocuments
    ensures WithinCaps(r.(subscriptions := r.subscriptions[doc := members]), cfg)
  {
    AddKey(r.subscriptions.Keys, doc);
    assert r.subscriptions[doc := members].Keys == r.subscriptions.Keys + {doc};
  }

  lemma AddKey<T>(s: set<T>, x: T)
    ensures |s + {x}| == if x in s then |s| else |s| + 1
  {
    if x in s {
      assert s + {x} == s;
    }
  }

  lemma UnsubscribeKeeps(r: Router, user: UserId, doc: DocId)
    requires NoEmptyDocument(r)
    ensures NoEmptyDocument(Unsubscribe(r, user, doc))
  {
  }

  lemma UnsubscribeWithinCaps(r: Router, cfg: Config, user: UserId, doc: DocId)
    requires WithinCaps(r, cfg)
    ensures WithinCaps(Unsubscribe(r, user, doc), cfg)
  {
    if doc in r.subscriptions {
      var members := r.subscriptions[doc] - {user};
      assert members.Keys == r.subscriptions[doc].Keys - {user};
      QueueProperties.SubsetSize(members.Keys, r.subscriptions[doc].Keys);
      QueueProperties.SubsetSize(Unsubscribe(r, user, doc).subscriptions.Keys, r.subscriptions.Keys);
    }
  }

  lemma DropSubscriptionsWithinCaps(r: Router, cfg: Config, gone: set<UserId>)
    requires WithinCaps(r, cfg)
    ensures WithinCaps(r.(subscriptions := DropSubscriptions(r.subscriptions, gone)), cfg)
  {
    var subs' := DropSubscriptions(r.subscriptions, gone);
    QueueProperties.SubsetSize(subs'.Keys, r.subscriptions.Keys);
    forall d | d in subs'
      ensures |subs'[d]| <= cfg.maxSubscribersPerDoc
    {
      QueueProperties.SubsetSize(subs'[d].Keys, r.subscriptions[d].Keys);
    }
  }

  lemma RouteWithinCaps(r: Router, cfg: Config, message: ServerMessage, choice: RouteChoice)
    requires |choice.victims| == |ToEnqueue(r, choice)| && WithinCaps(r, cfg)
    ensures WithinCaps(RouteMessage(r, cfg, message, choice), cfg)
  {
    hide RouteMessage, EvictedBy, DropSubscriptions;
    RouteParts(r, cfg, message, choice);
    DropSubscriptionsWithinCaps(r, cfg, EvictedBy(r, cfg, message, choice));
  }

  /** A route prunes every document that loses its last member. */
  lemma RouteNoEmpty(r: Router, cfg: Config, message: ServerMessage, choice: RouteChoice)
    requires |choice.victims| == |ToEnqueue(r, choice)| && NoEmptyDocument(r)
    ensures NoEmptyDocument(RouteMessage(r, cfg, message, choice))
  {
    hide RouteMessage, EvictedBy;
    RouteParts(r, cfg, message, choice);
  }

  lemma SetAnchorWithinCaps(r: Router, cfg: Config, doc: DocId, epoch: u64, key: Capability.PublicKey)
    requires WithinCaps(r, cfg)
    ensures WithinCaps(SetAnchor(r, cfg, doc, epoch, key).0, cfg)
  {
    var r' := SetAnchor(r, cfg, doc, epoch, key).0;
    if doc in r'.anchors {
      assert r'.anchors.Keys == r.anchors.Keys + {doc};
    }
  }
}
