/**
 The message router of crates/collab-relay/src/routing.rs: maps updated in place and the loops that
 fan a message out. Which channels are full is the environment's answer to each `send`, passed in
 as `full`. Each method is proved to do exactly what `RouterModel` says of its state.
 */
module Routing {
  import opened Common
  import opened Sequences
  import opened Protocol
  import opened QueueModel
  import opened RouterModel
  import opened Storage
  import Capability
  import RouterProperties

  class MessageRouter {
    const config: Config
    const offline: OfflineQueue
    var subscriptions: Subscriptions
    var anchors: map<DocId, DocAnchor>
    var clients: map<UserId, ConnId>
    /** Everything put on a client's channel, and every session told to close. */
    var outbox: seq<Delivery>
    var closed: set<ConnId>

    ghost function State(): Router
      reads this, offline
    {
      Router(subscriptions, anchors, clients, offline.Contents(), outbox, closed)
    }

    ghost predicate Valid()
      reads this, offline
    {
      offline.Valid() && offline.limits == config.limits
    }

    constructor (config: Config)
      ensures Valid() && State() == EMPTY_ROUTER && this.config == config
      ensures fresh(offline)
    {
      this.config := config;
      offline := new OfflineQueue(config.limits);
      subscriptions, anchors, clients := map[], map[], map[];
      outbox, closed := [], {};
    }

    method SetAnchor(doc: DocId, epoch: u64, key: Capability.PublicKey) returns (accepted: bool)
      requires Valid()
      modifies this
      ensures Valid()
      ensures (State(), accepted) == RouterModel.SetAnchor(old(State()), config, doc, epoch, key)
    {
      accepted := if doc in anchors then epoch > anchors[doc].epoch else AcceptFirstAnchor(epoch, |anchors|);
      if accepted {
        anchors := anchors[doc := DocAnchor(epoch, key)];
      }
    }

    predicate AcceptFirstAnchor(epoch: u64, currentLen: nat) {
      currentLen < config.maxDocuments && epoch <= MAX_INITIAL_ANCHOR_EPOCH
    }

    method RegisterClient(user: UserId, conn: ConnId, allowTakeover: bool, notified: bool) returns (registered: bool)
      requires Valid()
      modifies this
      ensures Valid()
      ensures (State(), registered) == RouterModel.RegisterClient(old(State()), user, conn, allowTakeover, notified)
    {
      var stale := user in clients && clients[user] != conn;
      if stale && !allowTakeover {
        return false;
      }
      if stale {
        if notified {
          outbox := outbox + [Delivery(user, clients[user], Error(SessionReplaced))];
        }
        closed := closed + {clients[user]};
      }
      clients := clients[user := conn];
      registered := true;
    }

    method UnregisterClient(user: UserId, conn: ConnId)
      requires Valid()
      modifies this
      ensures Valid()
      ensures State() == RouterModel.UnregisterClient(old(State()), user, conn)
    {
      if user in clients && clients[user] == conn {
        clients := clients - {user};
      }
    }

    method DrainOffline(user: UserId) returns (drained: seq<ServerMessage>)
      requires Valid()
      modifies offline
      ensures Valid()
      ensures drained == Drain(old(State()).offline, user).1
      ensures State() == old(State()).(offline := Drain(old(State()).offline, user).0)
    {
      drained := offline.Drain(user);
    }

    method Subscribe(user: UserId, doc: DocId, auth: Option<u64>) returns (accepted: bool)
      requires Valid()
      modifies this
      ensures Valid()
      ensures (State(), accepted) == RouterModel.Subscribe(old(State()), config, user, doc, auth)
    {
      hide OfflineQueue.Valid, OfflineQueue.Contents;
      if doc in subscriptions && user in subscriptions[doc] {
        subscriptions := subscriptions[doc := subscriptions[doc][user := auth]];
        return true;
      }
      if doc !in subscriptions && |subscriptions| >= config.maxDocuments {
        return false;
      }
      var members := if doc in subscriptions then subscriptions[doc] else map[];
      subscriptions := subscriptions[doc := members];
      if |members| >= config.maxSubscribersPerDoc {
        return false;
      }
      subscriptions := subscriptions[doc := members[user := auth]];
      assert subscriptions == old(subscriptions)[doc := members[user := auth]];
      accepted := true;
    }

    method Unsubscribe(user: UserId, doc: DocId)
      requires Valid()
      modifies this
      ensures Valid()
      ensures State() == RouterModel.Unsubscribe(old(State()), user, doc)
    {
      if doc !in subscriptions {
        return;
      }
      hide OfflineQueue.Valid, OfflineQueue.Contents;
      var members := subscriptions[doc] - {user};
      subscriptions := subscriptions[doc := members];
      if members == map[] {
        subscriptions := subscriptions - {doc};
        PutThenRemove(old(subscriptions), doc, members);
      }
    }

    predicate PublisherAuthorized(user: UserId, doc: DocId)
      reads this
    {
      if !config.requireSubscribeAuthz then true
      else if doc !in anchors then false
      else
        && doc in subscriptions
        && user in subscriptions[doc]
        && subscriptions[doc][user] == Some(anchors[doc].epoch)
    }

    /** The eligible subscribers in the order the member map happens to iterate, or `None`. */
    method Recipients(doc: DocId, from: UserId, message: ServerMessage) returns (result: Option<seq<UserId>>)
      requires Valid()
      ensures result.None? ==> forall u :: !IsRecipient(State(), config, doc, from, message, u)
      ensures result.Some? ==> Distinct(result.value)
      ensures result.Some? ==> forall u :: u in result.value <==> IsRecipient(State(), config, doc, from, message, u)
      ensures forall u :: (
        (result.Some? && u in result.value)
        <==>
        && doc in subscriptions && u in subscriptions[doc] && u != from
        && (config.requireSubscribeAuthz && message.YrsUpdate? ==>
              doc in anchors && subscriptions[doc][u] == Some(anchors[doc].epoch)))
    {
      var gated := config.requireSubscribeAuthz && message.YrsUpdate?;
      if gated && doc !in anchors {
        return None;
      }
      var authorized := if gated then Some(anchors[doc].epoch) else None;
      if doc !in subscriptions {
        return None;
      }
      var members := subscriptions[doc];
      var order: seq<UserId> := [];
      var rest := members.Keys;
      while rest != {}
        invariant rest <= members.Keys
        invariant Distinct(order)
        invariant forall u :: u in order <==>
          u in members && u !in rest && u != from && (!gated || members[u] == authorized)
      {
        var id :| id in rest;
        rest := rest - {id};
        if id != from && (!gated || members[id] == authorized) {
          order := order + [id];
        }
      }
      result := Some(order);
    }

    method FanOut(subscribers: seq<UserId>, message: ServerMessage, full: set<ConnId>)
      returns (sent: nat, absent: seq<UserId>, slow: seq<(UserId, ConnId)>)
      requires Valid()
      modifies `outbox
      ensures Valid()
      ensures var choice := RouteChoice(subscribers, full, []);
        && State() == old(State()).(outbox := old(outbox) + Added(old(State()), message, choice))
        && sent == |Added(old(State()), message, choice)|
        && absent == WithFate(clients, full, subscribers, Offline)
        && slow == SlowMarks(old(State()), choice)
    {
      hide OfflineQueue.Valid, OfflineQueue.Contents, Added, SlowMarks, WithFate;
      sent, absent, slow := 0, [], [];
      ghost var s := State();
      var i := 0;
      FanOutNone(s, message, full);
      assert subscribers[..0] == [] && outbox + [] == outbox;
      while i < |subscribers|
        invariant i <= |subscribers|
        invariant outbox == old(outbox) + Added(s, message, RouteChoice(subscribers[..i], full, []))
        invariant sent == |Added(s, message, RouteChoice(subscribers[..i], full, []))|
        invariant absent == WithFate(clients, full, subscribers[..i], Offline)
        invariant slow == SlowMarks(s, RouteChoice(subscribers[..i], full, []))
      {
        var id := subscribers[i];
        assert subscribers[..i + 1] == subscribers[..i] + [id];
        ghost var added := Added(s, message, RouteChoice(subscribers[..i], full, []));
        FanOutStep(s, message, full, subscribers[..i], id);
        if id in clients {
          if clients[id] !in full {
            outbox := outbox + [Delivery(id, clients[id], message)];
            Regroup(old(outbox), added, [Delivery(id, clients[id], message)]);
            sent := sent + 1;
          } else {
            slow := slow + [(id, clients[id])];
          }
        } else {
          absent := absent + [id];
        }
        i := i + 1;
      }
      assert subscribers[..i] == subscribers;
    }

    method DisconnectSlow(slow: seq<(UserId, ConnId)>)
      requires Valid()
      modifies `clients, `closed
      ensures Valid()
      ensures State() == RouterModel.DisconnectSlow(old(State()), slow)
    {
      hide OfflineQueue.Valid, OfflineQueue.Contents;
      var i := 0;
      while i < |slow|
        invariant i <= |slow|
        invariant State() == RouterModel.DisconnectSlow(old(State()), slow[..i])
      {
        var (user, conn) := slow[i];
        assert slow[..i + 1][..i] == slow[..i];
        if user in clients && clients[user] == conn {
          clients := clients - {user};
          closed := closed + {conn};
        }
        i := i + 1;
      }
      assert slow[..i] == slow;
    }

    /** Remove `users` from every member map, dropping documents left without members. */
    method DropSubscriptions(users: seq<UserId>)
      requires Valid()
      modifies `subscriptions
      ensures Valid()
      ensures subscriptions == RouterModel.DropSubscriptions(old(subscriptions), set u | u in users)
    {
      hide OfflineQueue.Valid, OfflineQueue.Contents;
      var gone := set u | u in users;
      var kept: Subscriptions := map[];
      var rest := subscriptions.Keys;
      while rest != {}
        invariant rest <= subscriptions.Keys
        invariant forall d :: d in kept <==>
          d in subscriptions && d !in rest && subscriptions[d] - gone != map[]
        invariant forall d :: d in kept ==> kept[d] == subscriptions[d] - gone
      {
        var doc :| doc in rest;
        rest := rest - {doc};
        var members := subscriptions[doc] - gone;
        if members != map[] {
          kept := kept[doc := members];
        }
      }
      subscriptions := kept;
    }

    /** Enqueue for every offline and slow recipient, collecting the users evicted on the way. */
    method EnqueueAll(users: seq<UserId>, message: ServerMessage)
      returns (evicted: seq<UserId>, ghost victims: seq<seq<UserId>>)
      requires Valid()
      modifies offline
      ensures Valid()
      ensures ValidEnqueues(old(offline.Contents()), config.limits, users, message, victims)
      ensures var all := RouterModel.EnqueueAll(old(offline.Contents()), config.limits, users, message, victims);
        offline.Contents() == all.0 && (set u | u in evicted) == all.1
    {
      hide OfflineQueue.Valid, QueueModel.Enqueue, QueueModel.ValidEnqueue;
      evicted, victims := [], [];
      ghost var s := offline.Contents();
      var i := 0;
      while i < |users|
        invariant i <= |users| && |victims| == i
        invariant offline.Valid()
        invariant ValidEnqueues(s, config.limits, users[..i], message, victims)
        invariant offline.Contents() == RouterModel.EnqueueAll(s, config.limits, users[..i], message, victims).0
        invariant (set u | u in evicted) == RouterModel.EnqueueAll(s, config.limits, users[..i], message, victims).1
      {
        var out, picked := offline.Enqueue(users[i], message);
        ghost var before := victims;
        victims := victims + [picked];
        assert users[..i + 1][..i] == users[..i] && victims[..i] == before;
        if out.evictedUser.Some? {
          evicted := evicted + [out.evictedUser.value];
        }
        i := i + 1;
      }
      assert users[..i] == users;
    }

    /** The sending half of a route: fan out, cut off slow consumers, and list whom to queue for. */
    method Deliver(order: seq<UserId>, message: ServerMessage, full: set<ConnId>)
      returns (sent: nat, toQueue: seq<UserId>)
      requires Valid()
      modifies `outbox, `clients, `closed
      ensures Valid()
      ensures var s, choice := old(State()), RouteChoice(order, full, []);
        && State() == RouterModel.DisconnectSlow(s.(outbox := s.outbox + Added(s, message, choice)), SlowMarks(s, choice))
        && sent == |Added(s, message, choice)|
        && toQueue == ToEnqueue(s, choice)
    {
      hide RouterModel.DisconnectSlow, OfflineQueue.Contents;
      ghost var s := State();
      var absent, slow;
      sent, absent, slow := FanOut(order, message, full);
      if slow != [] {
        DisconnectSlow(slow);
      } else {
        DisconnectNone(State());
      }
      toQueue := absent + seq(|slow|, i requires 0 <= i < |slow| => slow[i].0);
      assert toQueue == ToEnqueue(s, RouteChoice(order, full, []));
    }

    /** Route a message to the eligible subscribers of `doc`, returning how many were sent it directly. */
    method RouteMessage(doc: DocId, from: UserId, message: ServerMessage, full: set<ConnId>)
      returns (sent: nat, ghost choice: RouteChoice)
      requires Valid()
      modifies this, offline
      ensures Valid()
      ensures choice.full == full && ValidChoice(old(State()), config, doc, from, message, choice)
      ensures |choice.victims| == |ToEnqueue(old(State()), choice)|
      ensures State() == RouterModel.RouteMessage(old(State()), config, message, choice)
      ensures sent == |Added(old(State()), message, choice)|
    {
      hide RouterModel.EnqueueAll, RouterModel.DropSubscriptions, RouterModel.DisconnectSlow, IsRecipient,
        ValidEnqueues, OfflineQueue.Contents, Distinct, RouterModel.RouteMessage;
      ghost var s := State();
      var recipients := Recipients(doc, from, message);
      assert State() == s;
      if recipients.None? {
        NobodyToServe(s, config, doc, from, message, full);
        return 0, RouteChoice([], full, []);
      }
      var toQueue;
      sent, toQueue := Deliver(recipients.value, message, full);
      ghost var s2 := State();
      var evicted, victims := EnqueueAll(toQueue, message);
      choice := RouteChoice(recipients.value, full, victims);
      assert ToEnqueue(s, choice) == toQueue;
      VictimsPerUser(s.offline, config.limits, toQueue, message, victims);
      ghost var gone := set u | u in evicted;
      if evicted != [] {
        assert evicted[0] in gone;
        DropSubscriptions(evicted);
      }
      assert evicted == [] ==> gone == {};
      RouteIs(s, config, message, choice, s2, State());
    }
  }

  lemma PutThenRemove(subs: Subscriptions, doc: DocId, members: map<UserId, Option<u64>>)
    ensures subs[doc := members] - {doc} == subs - {doc}
  {
  }

  lemma DisconnectNone(r: Router)
    ensures RouterModel.DisconnectSlow(r, []) == r
  {
  }

  /** The stages of a route compose to the model's route. */
  lemma RouteIs(s: Router, cfg: Config, message: ServerMessage, choice: RouteChoice, s2: Router, s': Router)
    requires |choice.victims| == |ToEnqueue(s, choice)|
    requires s2 == RouterModel.DisconnectSlow(s.(outbox := s.outbox + Added(s, message, choice)), SlowMarks(s, choice))
    requires var all := RouterModel.EnqueueAll(s.offline, cfg.limits, ToEnqueue(s, choice), message, choice.victims);
      s' == s2.(
        offline := all.0,
        subscriptions :=
          if all.1 == {} then s2.subscriptions else RouterModel.DropSubscriptions(s2.subscriptions, all.1))
    ensures s' == RouterModel.RouteMessage(s, cfg, message, choice)
  {
    RouterProperties.DisconnectSlowKeeps(s.(outbox := s.outbox + Added(s, message, choice)), SlowMarks(s, choice));
  }

  lemma VictimsPerUser(s: Store, lim: Limits, users: seq<UserId>, m: ServerMessage, victims: seq<seq<UserId>>)
    requires ValidEnqueues(s, lim, users, m, victims)
    ensures |victims| == |users|
  {
  }

  lemma FanOutNone(s: Router, message: ServerMessage, full: set<ConnId>)
    ensures var none := RouteChoice([], full, []);
      Added(s, message, none) == [] && SlowMarks(s, none) == [] && WithFate(s.clients, full, [], Offline) == []
  {
  }

  lemma Regroup<T>(a: seq<T>, b: seq<T>, c: seq<T>)
    ensures (a + b) + c == a + (b + c)
  {
  }

  lemma FanOutStep(s: Router, message: ServerMessage, full: set<ConnId>, front: seq<UserId>, id: UserId)
    ensures var before, after := RouteChoice(front, full, []), RouteChoice(front + [id], full, []);
      && Added(s, message, after) == Added(s, message, before)
           + (if FateOf(s.clients, full, id) == Sent then [Delivery(id, s.clients[id], message)] else [])
      && SlowMarks(s, after) == SlowMarks(s, before)
           + (if FateOf(s.clients, full, id) == Slow then [(id, s.clients[id])] else [])
      && WithFate(s.clients, full, front + [id], Offline) == WithFate(s.clients, full, front, Offline)
           + (if FateOf(s.clients, full, id) == Offline then [id] else [])
  {
    assert (front + [id])[..|front|] == front;
  }

  lemma NobodyToServe(s: Router, cfg: Config, doc: DocId, from: UserId, message: ServerMessage, full: set<ConnId>)
    requires forall u :: !IsRecipient(s, cfg, doc, from, message, u)
    ensures var none := RouteChoice([], full, []);
      && ToEnqueue(s, none) == [] && Added(s, message, none) == []
      && ValidChoice(s, cfg, doc, from, message, none)
      && RouterModel.RouteMessage(s, cfg, message, none) == s
  {
  }
}
