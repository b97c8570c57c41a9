/**
 What the relay must do, written over connections, identities, subscriptions and anchors: who is
 served, what is stored, and that nothing is refused or lost without the stated reason.
 */
module RelayDelivery {
  import opened Common
  import opened Sequences
  import opened Protocol
  import opened QueueModel
  import opened Capability
  import opened RouterModel
  import opened RelayModel
  import opened RouterProperties
  import opened RelayProperties
  import QueueProperties
  import QueueDelivery

  // ---------------------------------------------------------------- serving

  /** `m` was served to exactly `eligible`, each once: live users at once, the others through the queue. */
  ghost predicate Serves(r: Router, cfg: Config, r': Router, choice: RouteChoice, m: ServerMessage, eligible: UserId -> bool) {
    var queued := ToEnqueue(r, choice);
    && (forall u :: SentTo(r'.outbox, u)
          == SentTo(r.outbox, u) + if eligible(u) && u in r.clients && r.clients[u] !in choice.full then [m] else [])
    && (forall u :: u in queued <==> eligible(u) && (u in r.clients ==> r.clients[u] in choice.full))
    && Distinct(queued)
    && |choice.victims| == |queued|
    && r'.offline == EnqueueAll(r.offline, cfg.limits, queued, m, choice.victims).0
  }

  /** The stored grant of `u` for `doc` is the one the anchor has now. */
  predicate GrantIsCurrent(r: Router, u: UserId, doc: DocId) {
    && doc in r.anchors && doc in r.subscriptions && u in r.subscriptions[doc]
    && r.subscriptions[doc][u] == Some(r.anchors[doc].epoch)
  }

  /** The connection speaks for a user that may publish content to the document. */
  predicate MayPublish(r: Relay, cfg: Config, conn: ConnId, doc: DocId) {
    && conn in r.users && |doc.utf8| <= 256
    && (cfg.requireSubscribeAuthz ==> GrantIsCurrent(r.router, r.users[conn], doc))
  }

  /** What is routed at all, written out. */
  lemma RoutedExact(r: Relay, cfg: Config, ev: Event)
    ensures ev.SendUpdate? ==> (Routed(r, cfg, ev).Some? <==> MayPublish(r, cfg, ev.conn, ev.doc))
    ensures ev.SendHandshake? ==>
      (Routed(r, cfg, ev).Some? <==> ev.conn in r.users && |ev.doc.utf8| <= 256 && |ev.payload| <= 262144)
  {
  }

  lemma RouteServes(r: Router, cfg: Config, doc: DocId, from: UserId, m: ServerMessage, choice: RouteChoice,
                    eligible: UserId -> bool)
    requires WellFormed(r.offline) && Bounded(r.offline, cfg.limits) && !m.Error?
    requires ValidChoice(r, cfg, doc, from, m, choice) && |choice.victims| == |ToEnqueue(r, choice)|
    requires forall u :: eligible(u) <==> IsRecipient(r, cfg, doc, from, m, u)
    ensures Serves(r, cfg, RouteMessage(r, cfg, m, choice), choice, m, eligible)
  {
    hide RouteMessage, EnqueueAll, IsRecipient, WellFormed, Bounded, ValidEnqueues, Queue;
    RouteParts(r, cfg, m, choice);
    FatesDistinct(r, m, choice);
    WithFateFacts(r.clients, choice.full, choice.order, Offline);
    WithFateFacts(r.clients, choice.full, choice.order, Slow);
    forall u
      ensures SentTo(RouteMessage(r, cfg, m, choice).outbox, u)
        == SentTo(r.outbox, u) + if eligible(u) && u in r.clients && r.clients[u] !in choice.full then [m] else []
    {
      RouteTouchesOnlyRecipients(r, cfg, doc, from, m, choice, u);
    }
  }

  /**
   Content reaches every authorized subscriber. An update from a user that may publish is relayed
   unchanged, under the sender's name, to exactly the other subscribers whose stored grant is the
   anchor's current epoch (all other subscribers when authorization is off), each once.
   */
  lemma ContentReachesEveryAuthorized(r: Relay, cfg: Config, ev: Event)
    requires QueueSound(r, cfg) && Legal(r, cfg, ev) && ev.SendUpdate? && MayPublish(r, cfg, ev.conn, ev.doc)
    ensures var sender := r.users[ev.conn];
      var q, q' := r.router, Step(r, cfg, ev).router;
      Serves(q, cfg, q', ev.choice, YrsUpdate(ev.doc, sender, ev.encrypted, ev.epoch),
        u =>
          && u != sender && ev.doc in q.subscriptions && u in q.subscriptions[ev.doc]
          && (cfg.requireSubscribeAuthz ==> GrantIsCurrent(q, u, ev.doc)))
  {
    hide WellFormed, Bounded, ValidEnqueues, Step, RouteMessage, Serves, EnqueueAll;
    var sender, q := r.users[ev.conn], r.router;
    var m := YrsUpdate(ev.doc, sender, ev.encrypted, ev.epoch);
    assert Routed(r, cfg, ev) == Some(m);
    PublishRoutes(r, cfg, ev);
    RouteServes(q, cfg, ev.doc, sender, m, ev.choice,
      u =>
        && u != sender && ev.doc in q.subscriptions && u in q.subscriptions[ev.doc]
        && (cfg.requireSubscribeAuthz ==> GrantIsCurrent(q, u, ev.doc)));
  }

  /** From anybody else an update changes nothing. */
  lemma ContentRefused(r: Relay, cfg: Config, ev: Event)
    requires ev.SendUpdate? && !MayPublish(r, cfg, ev.conn, ev.doc)
    ensures Step(r, cfg, ev) == r
  {
    hide RouteMessage, ToEnqueue;
  }

  /** A handshake frame within the bounds is relayed unchanged to every other subscriber, each once. */
  lemma HandshakeReachesAll(r: Relay, cfg: Config, ev: Event)
    requires QueueSound(r, cfg) && Legal(r, cfg, ev) && ev.SendHandshake?
    requires ev.conn in r.users && |ev.doc.utf8| <= 256 && |ev.payload| <= 262144
    ensures var sender := r.users[ev.conn];
      var q, q' := r.router, Step(r, cfg, ev).router;
      Serves(q, cfg, q', ev.choice, MlsHandshake(ev.doc, sender, ev.payload, ev.messageType),
        u => u != sender && ev.doc in q.subscriptions && u in q.subscriptions[ev.doc])
  {
    hide WellFormed, Bounded, ValidEnqueues, Step, RouteMessage, Serves, EnqueueAll;
    var sender, q := r.users[ev.conn], r.router;
    var m := MlsHandshake(ev.doc, sender, ev.payload, ev.messageType);
    assert Routed(r, cfg, ev) == Some(m);
    PublishRoutes(r, cfg, ev);
    RouteServes(q, cfg, ev.doc, sender, m, ev.choice,
      u => u != sender && ev.doc in q.subscriptions && u in q.subscriptions[ev.doc]);
  }

  lemma HandshakeRefused(r: Relay, cfg: Config, ev: Event)
    requires ev.SendHandshake? && (ev.conn !in r.users || |ev.doc.utf8| > 256 || |ev.payload| > 262144)
    ensures Step(r, cfg, ev) == r
  {
    hide RouteMessage, ToEnqueue;
  }

  // ---------------------------------------------------------------- queueing for many

  /** Each user of the list found room when its turn came. */
  ghost predicate RoomForAll(s: Store, lim: Limits, users: seq<UserId>, m: ServerMessage, victims: seq<seq<UserId>>)
    requires |victims| == |users|
  {
    users == [] ||
    var n := |users| - 1;
    && RoomForAll(s, lim, users[..n], m, victims[..n])
    && QueueDelivery.HasRoom(EnqueueAll(s, lim, users[..n], m, victims[..n]).0, lim, users[n], m)
  }

  /** With room for all, everybody on the list gets the message appended, and nobody is evicted. */
  lemma {:induction false} EnqueueAllLosesNothing(
    s: Store, lim: Limits, users: seq<UserId>, m: ServerMessage, victims: seq<seq<UserId>>, v: UserId)
    requires WellFormed(s) && Bounded(s, lim) && ValidEnqueues(s, lim, users, m, victims) && Distinct(users)
    requires |victims| == |users| && RoomForAll(s, lim, users, m, victims)
    ensures EnqueueAll(s, lim, users, m, victims).1 == {}
    ensures Queue(EnqueueAll(s, lim, users, m, victims).0, v) == Queue(s, v) + if v in users then [m] else []
  {
    hide Enqueue, ValidEnqueue, WellFormed, Bounded, Queue, QueueDelivery.HasRoom, Distinct;
    NilRight(Queue(s, v));
    if users != [] {
      var n := |users| - 1;
      DistinctSplit(users);
      EnqueueAllKeeps(s, lim, users[..n], m, victims[..n]);
      EnqueueAllLosesNothing(s, lim, users[..n], m, victims[..n], v);
      QueueDelivery.EnqueueLosesNothing(EnqueueAll(s, lim, users[..n], m, victims[..n]).0, lim, users[n], m, victims[n]);
    }
  }

  lemma NilRight<T>(q: seq<T>)
    ensures q + [] == q
  {
  }

  lemma DistinctSplit(users: seq<UserId>)
    requires users != [] && Distinct(users)
    ensures var n := |users| - 1;
      && Distinct(users[..n]) && users[n] !in users[..n]
      && forall v :: v in users <==> v in users[..n] || v == users[n]
  {
    assert users == users[..|users| - 1] + [users[|users| - 1]];
  }

  /** The collected users are exactly those some enqueue of the list reported as evicted. */
  lemma {:induction false} EnqueueAllCollects(
    s: Store, lim: Limits, users: seq<UserId>, m: ServerMessage, victims: seq<seq<UserId>>, v: UserId)
    requires |victims| == |users|
    ensures v in EnqueueAll(s, lim, users, m, victims).1 <==> exists i :: EvictedAt(s, lim, users, m, victims, v, i)
  {
    hide Enqueue;
    if users != [] {
      var n := |users| - 1;
      EnqueueAllCollects(s, lim, users[..n], m, victims[..n], v);
      forall i | 0 <= i < n
        ensures EvictedAt(s, lim, users, m, victims, v, i) <==> EvictedAt(s, lim, users[..n], m, victims[..n], v, i)
      {
        assert users[..n][..i] == users[..i] && victims[..n][..i] == victims[..i];
      }
      var out := Enqueue(EnqueueAll(s, lim, users[..n], m, victims[..n]).0, lim, users[n], m, victims[n]).1;
      assert EvictedAt(s, lim, users, m, victims, v, n) <==> out.evictedUser == Some(v);
      if i :| EvictedAt(s, lim, users, m, victims, v, i) && i != n {
        assert EvictedAt(s, lim, users[..n], m, victims[..n], v, i);
      }
      if i :| EvictedAt(s, lim, users[..n], m, victims[..n], v, i) {
        assert EvictedAt(s, lim, users, m, victims, v, i);
      }
    }
  }

  ghost predicate EvictedAt(s: Store, lim: Limits, users: seq<UserId>, m: ServerMessage, victims: seq<seq<UserId>>,
                            v: UserId, i: int)
    requires |victims| == |users|
  {
    && 0 <= i < |users|
    && Enqueue(EnqueueAll(s, lim, users[..i], m, victims[..i]).0, lim, users[i], m, victims[i]).1.evictedUser == Some(v)
  }

  // ---------------------------------------------------------------- nothing lost without pressure

  /** Whatever the event routes into the queue finds room there. */
  ghost predicate Roomy(r: Relay, cfg: Config, ev: Event) {
    Routed(r, cfg, ev).Some? && |ev.choice.victims| == |ToEnqueue(r.router, ev.choice)| ==>
      RoomForAll(r.router.offline, cfg.limits, ToEnqueue(r.router, ev.choice), Routed(r, cfg, ev).value, ev.choice.victims)
  }

  /** Without pressure a route adds its message for every recipient, behind everything it already has. */
  lemma RoomyRouteReceived(r: Relay, cfg: Config, ev: Event, u: UserId)
    requires QueueSound(r, cfg) && Legal(r, cfg, ev) && Routed(r, cfg, ev).Some? && Roomy(r, cfg, ev)
    ensures Received(Step(r, cfg, ev), u) == Received(r, u) + NewFor(r, cfg, ev, u)
  {
    hide RouteMessage, EnqueueAll, ValidEnqueues, Queue, WellFormed, Bounded, SentTo, Step, RoomForAll, IsRecipient, Added;
    var message, q, choice := Routed(r, cfg, ev).value, r.router, ev.choice;
    PublishRoutes(r, cfg, ev);
    RouteParts(q, cfg, message, choice);
    FatesDistinct(q, message, choice);
    WithFateFacts(q.clients, choice.full, choice.order, Offline);
    WithFateFacts(q.clients, choice.full, choice.order, Slow);
    RouteTouchesOnlyRecipients(q, cfg, ev.doc, r.users[ev.conn], message, choice, u);
    EnqueueAllLosesNothing(q.offline, cfg.limits, ToEnqueue(q, choice), message, choice.victims, u);
    Interleave(SentTo(q.outbox, u), Queue(q.offline, u), NewFor(r, cfg, ev, u));
    NilRight(SentTo(q.outbox, u));
    NilRight(Queue(q.offline, u));
  }

  lemma Interleave<T>(sent: seq<T>, queued: seq<T>, arriving: seq<T>)
    ensures sent + (queued + arriving) == (sent + queued) + arriving
    ensures queued == [] ==> (sent + arriving) + queued == (sent + queued) + arriving
  {
  }

  lemma {:induction false} HandedOverAll(user: UserId, conn: ConnId, drained: seq<ServerMessage>)
    requires forall x :: x in drained ==> !x.Error?
    ensures SentTo(HandOver(user, conn, drained), user) == drained
  {
    hide SentTo, HandOver;
    if drained == [] {
      NothingHandedOver(user, conn, user);
    } else {
      var front, last := drained[..|drained| - 1], drained[|drained| - 1];
      HandedOverAll(user, conn, front);
      assert drained == front + [last];
      HandOverSnoc(user, conn, front, last);
      SentSnoc(HandOver(user, conn, front), Delivery(user, conn, last), user);
    }
  }

  lemma IdentifyLosesNothing(r: Relay, cfg: Config, ev: Event, u: UserId)
    requires QueueSound(r, cfg) && ev.Identify? && AcceptsIdentify(ev.user, ev.authenticated)
    requires forall x :: x in Queue(r.router.offline, ev.user) ==> !x.Error?
    ensures Received(Step(r, cfg, ev), u) == Received(r, u)
  {
    hide WellFormed, Bounded, Drain, Queue, HandOver;
    var registered := RegisterClient(r.router, ev.user, ev.conn, true, ev.notified).0;
    var drained := Drain(r.router.offline, ev.user).1;
    QueueProperties.DrainFacts(r.router.offline, ev.user);
    SentConcat(registered.outbox, HandOver(ev.user, ev.conn, drained), u);
    HandedOver(ev.user, ev.conn, drained, u);
    HandedOverAll(ev.user, ev.conn, drained);
    assert SentTo(registered.outbox, u) == SentTo(r.router.outbox, u);
    NilRight(SentTo(r.router.outbox, u));
    NilRight(SentTo(r.router.outbox, u) + drained);
  }

  lemma {:induction false} RoutedNoErrors(cfg: Config, evs: seq<Event>, u: UserId)
    ensures forall x :: x in RoutedTo(cfg, evs, u) ==> !x.Error?
  {
    hide Run, IsRecipient;
    if evs != [] {
      RoutedNoErrors(cfg, evs[..|evs| - 1], u);
    }
  }

  /** Only routed messages are ever queued, never a session notice. */
  lemma QueuesNoErrors(cfg: Config, evs: seq<Event>, u: UserId)
    requires ValidRun(cfg, evs)
    ensures forall x :: x in Queue(Run(cfg, evs).router.offline, u) ==> !x.Error?
  {
    hide Run, RoutedTo, Queue, SentTo;
    var received := Received(Run(cfg, evs), u);
    RelayFifo(cfg, evs, u);
    RoutedNoErrors(cfg, evs, u);
    forall x | x in Queue(Run(cfg, evs).router.offline, u)
      ensures !x.Error?
    {
      assert x in received;
      SubsequenceCopies(received, RoutedTo(cfg, evs, u), x);
      assert multiset(received)[x] > 0;
      assert x in RoutedTo(cfg, evs, u);
    }
  }

  ghost predicate RoomyRun(cfg: Config, evs: seq<Event>) {
    evs == [] || (RoomyRun(cfg, evs[..|evs| - 1]) && Roomy(Run(cfg, evs[..|evs| - 1]), cfg, evs[|evs| - 1]))
  }

  /**
   Nothing is lost without pressure: over any run in which whatever was queued found room, what a
   user was sent followed by what is queued for it is exactly what was routed to it, in order.
   */
  lemma {:induction false} RelayLossless(cfg: Config, evs: seq<Event>, u: UserId)
    requires ValidRun(cfg, evs) && RoomyRun(cfg, evs)
    ensures Received(Run(cfg, evs), u) == RoutedTo(cfg, evs, u)
  {
    if evs != [] {
      hide Step, Legal, NewFor, Roomy, Received, QueueSound;
      var before, ev := evs[..|evs| - 1], evs[|evs| - 1];
      RelayLossless(cfg, before, u);
      RunQueueSound(cfg, before);
      RoomyStepReceived(cfg, before, ev, u);
    }
  }

  lemma RoomyStepReceived(cfg: Config, before: seq<Event>, ev: Event, u: UserId)
    requires ValidRun(cfg, before) && QueueSound(Run(cfg, before), cfg)
    requires Legal(Run(cfg, before), cfg, ev) && Roomy(Run(cfg, before), cfg, ev)
    ensures Received(Step(Run(cfg, before), cfg, ev), u)
      == Received(Run(cfg, before), u) + NewFor(Run(cfg, before), cfg, ev, u)
  {
    hide Run, ValidRun, QueueSound, Legal, RouteMessage, EnqueueAll, ToEnqueue, Subscribe, Unsubscribe, SetAnchor, Queue, Drain,
      AuthorizeSubscribe, SentTo, AcceptsDocKey, RegisterClient, UnregisterClient, RoomForAll, HandOver;
    var r := Run(cfg, before);
    NilRight(Received(r, u));
    if Routed(r, cfg, ev).Some? {
      RoomyRouteReceived(r, cfg, ev, u);
    } else if ev.Identify? && AcceptsIdentify(ev.user, ev.authenticated) {
      QueuesNoErrors(cfg, before, ev.user);
      IdentifyLosesNothing(r, cfg, ev, u);
    }
  }

  // ---------------------------------------------------------------- subscribing

  /** Whether the caps leave room for `user` on `doc`, or it is there already. */
  predicate HasSeat(r: Router, cfg: Config, user: UserId, doc: DocId) {
    if doc in r.subscriptions then
      user in r.subscriptions[doc] || |r.subscriptions[doc]| < cfg.maxSubscribersPerDoc
    else |r.subscriptions| < cfg.maxDocuments && 0 < cfg.maxSubscribersPerDoc
  }

  /** The capability names this user and document at the anchor's epoch, unexpired, signed by the anchor's key. */
  predicate CapabilityProves(r: Router, cap: SubscribeCapability, user: UserId, doc: DocId, now: u64) {
    && doc in r.anchors
    && cap.userId == user && cap.docId == doc && cap.epoch == r.anchors[doc].epoch && now <= cap.expiry
    && cap.signature == Signed(r.anchors[doc].verifyingKey, SigningBytes(user, doc, cap.epoch, cap.expiry))
  }

  /** Whether the subscribe presents a capability that does not check out while authorization is on. */
  predicate CapabilityFails(r: Router, cfg: Config, capability: Option<SubscribeCapability>, user: UserId, doc: DocId, now: u64) {
    cfg.requireSubscribeAuthz && capability.Some? && !CapabilityProves(r, capability.value, user, doc, now)
  }

  lemma AuthorizeExact(r: Router, user: UserId, doc: DocId, capability: Option<SubscribeCapability>, now: u64)
    ensures AuthorizeSubscribe(r, user, doc, capability, now)
      == if capability.None? then Ok(None)
         else if CapabilityProves(r, capability.value, user, doc, now) then Ok(Some(r.anchors[doc].epoch))
         else Err(Unauthorized)
  {
    hide SigningBytes;
  }

  lemma SeatExact(r: Router, cfg: Config, user: UserId, doc: DocId, auth: Option<u64>)
    ensures Subscribe(r, cfg, user, doc, auth).1 <==> HasSeat(r, cfg, user, doc)
  {
    SubscribeExact(r, cfg, user, doc, auth, user, doc);
  }

  /**
   What a subscribe stores. Without a capability, or with authorization off, it is accepted for the
   handshake only; with a capability that proves membership, for content at the anchor's epoch;
   with any other capability it is refused and stores nothing.
   */
  lemma SubscribeOutcome(r: Relay, cfg: Config, ev: Event)
    requires ev.SubscribeTo? && ev.conn in r.users && |ev.doc.utf8| <= 256 && HasSeat(r.router, cfg, r.users[ev.conn], ev.doc)
    ensures var user := r.users[ev.conn];
      var subs' := Step(r, cfg, ev).router.subscriptions;
      var bare := !cfg.requireSubscribeAuthz || ev.capability.None?;
      && (bare ==> ev.doc in subs' && user in subs'[ev.doc] && subs'[ev.doc][user] == None)
      && (!bare && CapabilityProves(r.router, ev.capability.value, user, ev.doc, ev.now) ==>
            ev.doc in subs' && user in subs'[ev.doc] && subs'[ev.doc][user] == Some(r.router.anchors[ev.doc].epoch))
      && (!bare && !CapabilityProves(r.router, ev.capability.value, user, ev.doc, ev.now) ==> Step(r, cfg, ev) == r)
  {
    hide SigningBytes;
    var none: map<UserId, Option<u64>> := map[];
    assert |none| == 0;
  }

  /** From an unidentified connection, for an overlong id, or without a seat, nobody becomes a subscriber. */
  lemma SubscribeRefused(r: Relay, cfg: Config, ev: Event, u: UserId, d: DocId)
    requires ev.SubscribeTo?
    requires ev.conn !in r.users || |ev.doc.utf8| > 256 || !HasSeat(r.router, cfg, r.users[ev.conn], ev.doc)
    ensures var subs, subs' := r.router.subscriptions, Step(r, cfg, ev).router.subscriptions;
      && (IsSubscribed(subs', u, d) <==> IsSubscribed(subs, u, d))
      && (IsSubscribed(subs', u, d) ==> subs'[d][u] == subs[d][u])
  {
    hide SigningBytes, AuthorizeSubscribe;
    var none: map<UserId, Option<u64>> := map[];
    assert |none| == 0;
  }

  // ---------------------------------------------------------------- registering

  /** What a registration must bring: the self-proof always, the old key's proof and a higher epoch for a rotation. */
  predicate RegistrationProven(r: Relay, cfg: Config, ev: Event)
    requires ev.RegisterDocKey?
  {
    && ev.conn in r.users && |ev.doc.utf8| <= 256 && |ev.publicKey| == 32
    && ev.proof == Signed(ev.publicKey, RegisterProofBytes(ev.doc, ev.epoch))
    && (if ev.doc in r.router.anchors then
          && ev.epoch > r.router.anchors[ev.doc].epoch
          && ev.rotationProof
               == Signed(r.router.anchors[ev.doc].verifyingKey, RotationProofBytes(ev.doc, ev.epoch, ev.publicKey))
        else |r.router.anchors| < cfg.maxDocuments && ev.epoch <= 1_000_000)
  }

  lemma ProvenExact(r: Relay, cfg: Config, ev: Event)
    requires ev.RegisterDocKey?
    ensures AcceptsDocKey(r, cfg, ev) <==> RegistrationProven(r, cfg, ev)
  {
    hide RegisterProofBytes, RotationProofBytes;
  }

  /** A registration stores its key exactly when it is proven, and otherwise changes nothing. */
  lemma RegistrationExact(r: Relay, cfg: Config, ev: Event)
    requires ev.RegisterDocKey?
    ensures Step(r, cfg, ev) == if RegistrationProven(r, cfg, ev)
      then r.(router := r.router.(anchors := r.router.anchors[ev.doc := DocAnchor(ev.epoch, ev.publicKey)])) else r
  {
    hide RegisterProofBytes, RotationProofBytes;
  }

  // ---------------------------------------------------------------- sessions

  /** An Identify with a bad token or an overlong id changes nothing. */
  lemma IdentifyRefused(r: Relay, cfg: Config, ev: Event)
    requires ev.Identify? && (!ev.authenticated || |ev.user.utf8| > 256)
    ensures Step(r, cfg, ev) == r
  {
  }

  /** Taking a session over tells exactly the replaced one, and closes exactly it; nobody else's session moves. */
  lemma TakeoverExact(r: Router, user: UserId, conn: ConnId, allowTakeover: bool, notified: bool)
    ensures var (r', registered) := RegisterClient(r, user, conn, allowTakeover, notified);
      var stale := user in r.clients && r.clients[user] != conn;
      && (registered <==> allowTakeover || !stale)
      && (!registered ==> r' == r)
      && (registered ==> r'.clients == r.clients[user := conn])
      && r'.closed == r.closed + (if registered && stale then {r.clients[user]} else {})
      && r'.outbox == r.outbox
           + (if registered && stale && notified then [Delivery(user, r.clients[user], Error(SessionReplaced))] else [])
  {
    assert r.outbox + [] == r.outbox;
  }

  /** A batch of slow marks closes exactly the marked connections that were still their user's session. */
  lemma {:induction false} DisconnectSlowCloses(r: Router, slow: seq<(UserId, ConnId)>)
    ensures forall c :: (c in DisconnectSlow(r, slow).closed
      <==> c in r.closed || exists u :: u in r.clients && r.clients[u] == c && (u, c) in slow)
  {
    if slow != [] {
      var front, last := slow[..|slow| - 1], slow[|slow| - 1];
      assert slow == front + [last];
      DisconnectSlowCloses(r, front);
      DisconnectSlowExact(r, front, last.0);
    }
  }

  /** An unsubscribe takes one subscription and touches nothing else. */
  lemma UnsubscribeStep(r: Relay, cfg: Config, ev: Event, u: UserId, d: DocId)
    requires ev.UnsubscribeFrom?
    ensures var r' := Step(r, cfg, ev);
      var own := ev.conn in r.users && u == r.users[ev.conn] && d == ev.doc;
      && r' == r.(router := r.router.(subscriptions := r'.router.subscriptions))
      && (IsSubscribed(r'.router.subscriptions, u, d) <==> IsSubscribed(r.router.subscriptions, u, d) && !own)
      && (IsSubscribed(r'.router.subscriptions, u, d) ==>
            r'.router.subscriptions[d][u] == r.router.subscriptions[d][u])
  {
    hide Unsubscribe;
    if ev.conn in r.users {
      UnsubscribeExact(r.router, r.users[ev.conn], ev.doc, u, d);
    }
  }
}
