/** Safety of the relay over whole runs: who can receive or publish content, and how anchors move. */
module RelayProperties {
  import opened Common
  import opened Sequences
  import opened Protocol
  import opened QueueModel
  import opened Capability
  import opened RouterModel
  import opened RelayModel
  import opened RouterProperties
  import QueueProperties

  // ---------------------------------------------------------------- invariants of every run

  /** The queue's bookkeeping and limits hold, and nothing is queued for a user with a live session. */
  ghost predicate QueueSound(r: Relay, cfg: Config) {
    && WellFormed(r.router.offline) && Bounded(r.router.offline, cfg.limits)
    && (forall u :: u in r.router.clients ==> Queue(r.router.offline, u) == [])
  }

  /** What a publishing step does to the router, when it routes at all. */
  lemma PublishRoutes(r: Relay, cfg: Config, ev: Event)
    requires Legal(r, cfg, ev) && Routed(r, cfg, ev).Some?
    ensures var message := Routed(r, cfg, ev).value;
      && |ev.choice.victims| == |ToEnqueue(r.router, ev.choice)|
      && Step(r, cfg, ev) == r.(router := RouteMessage(r.router, cfg, message, ev.choice))
      && message.docId == ev.doc && message.from == r.users[ev.conn]
  {
    hide RouteMessage, EnqueueAll, ToEnqueue, Deliveries;
  }

  lemma StepQueueSound(r: Relay, cfg: Config, ev: Event)
    requires QueueSound(r, cfg) && Legal(r, cfg, ev)
    ensures QueueSound(Step(r, cfg, ev), cfg)
  {
    hide WellFormed, Bounded, RouteMessage, EnqueueAll, ToEnqueue, ValidEnqueues, Subscribe, Unsubscribe, SetAnchor, Drain,
      AcceptsDocKey, AuthorizeSubscribe, Queue;
    if Routed(r, cfg, ev).Some? {
      RouteQueueSound(r, cfg, ev);
    } else if ev.Identify? {
      QueueProperties.DrainBounded(r.router.offline, cfg.limits, ev.user);
      QueueProperties.DrainFacts(r.router.offline, ev.user);
    }
  }

  lemma RouteQueueSound(r: Relay, cfg: Config, ev: Event)
    requires QueueSound(r, cfg) && Legal(r, cfg, ev) && Routed(r, cfg, ev).Some?
    ensures QueueSound(Step(r, cfg, ev), cfg)
  {
    hide WellFormed, Bounded, RouteMessage, EnqueueAll, ToEnqueue, ValidEnqueues, Queue, Step;
    PublishRoutes(r, cfg, ev);
    var message, q, q' := Routed(r, cfg, ev).value, r.router, Step(r, cfg, ev).router;
    RouteParts(q, cfg, message, ev.choice);
    FatesDistinct(q, message, ev.choice);
    EnqueueAllKeeps(q.offline, cfg.limits, ToEnqueue(q, ev.choice), message, ev.choice.victims);
    forall u | u in q'.clients
      ensures Queue(q'.offline, u) == []
    {
      RouteSessions(q, cfg, ev.doc, r.users[ev.conn], message, ev.choice, u);
      RouteTouchesOnlyRecipients(q, cfg, ev.doc, r.users[ev.conn], message, ev.choice, u);
      assert Queue(q.offline, u) + [] == [];
    }
  }

  lemma {:induction false} RunQueueSound(cfg: Config, evs: seq<Event>)
    requires ValidRun(cfg, evs)
    ensures QueueSound(Run(cfg, evs), cfg)
  {
    hide Step, Legal;
    if evs == [] {
      assert Run(cfg, evs).router.offline == EMPTY;
    } else {
      RunQueueSound(cfg, evs[..|evs| - 1]);
      StepQueueSound(Run(cfg, evs[..|evs| - 1]), cfg, evs[|evs| - 1]);
    }
  }

  /** The document, subscriber and anchor caps hold in every run, under every configuration. */
  lemma {:induction false} RunWithinCaps(cfg: Config, evs: seq<Event>)
    requires ValidRun(cfg, evs)
    ensures WithinCaps(Run(cfg, evs).router, cfg)
  {
    hide Step, Legal;
    if evs != [] {
      RunWithinCaps(cfg, evs[..|evs| - 1]);
      StepWithinCaps(Run(cfg, evs[..|evs| - 1]), cfg, evs[|evs| - 1]);
    }
  }

  lemma StepWithinCaps(r: Relay, cfg: Config, ev: Event)
    requires Legal(r, cfg, ev) && WithinCaps(r.router, cfg)
    ensures WithinCaps(Step(r, cfg, ev).router, cfg)
  {
    hide RouteMessage, EnqueueAll, ToEnqueue, ValidEnqueues, Subscribe, Unsubscribe, SetAnchor, Drain, WithinCaps;
    var q := r.router;
    match ev
    case SubscribeTo(conn, doc, capability, now) =>
      if conn in r.users {
        var auth := if cfg.requireSubscribeAuthz
          then AuthorizeSubscribe(q, r.users[conn], doc, capability, now) else Ok(None);
        if auth.Ok? {
          SubscribeWithinCaps(q, cfg, r.users[conn], doc, auth.value);
        }
      }
    case UnsubscribeFrom(conn, doc) =>
      if conn in r.users {
        UnsubscribeWithinCaps(q, cfg, r.users[conn], doc);
      }
    case RegisterDocKey(_, doc, epoch, key, _, _) =>
      if AcceptsDocKey(r, cfg, ev) {
        SetAnchorWithinCaps(q, cfg, doc, epoch, key);
      }
    case Identify(_, _, _, _) => SameCaps(q, Step(r, cfg, ev).router, cfg);
    case Teardown(_) => SameCaps(q, Step(r, cfg, ev).router, cfg);
    case _ =>
      if Routed(r, cfg, ev).Some? {
        PublishRoutes(r, cfg, ev);
        RouteWithinCaps(q, cfg, Routed(r, cfg, ev).value, ev.choice);
      }
  }

  lemma SameCaps(q: Router, q': Router, cfg: Config)
    requires WithinCaps(q, cfg) && q'.subscriptions == q.subscriptions && q'.anchors == q.anchors
    ensures WithinCaps(q', cfg)
  {
  }

  /** With a positive subscriber cap no document keeps an empty member map. */
  lemma {:induction false} RunStructure(cfg: Config, evs: seq<Event>)
    requires ValidRun(cfg, evs) && cfg.maxSubscribersPerDoc > 0
    ensures NoEmptyDocument(Run(cfg, evs).router)
  {
    hide Step, Legal;
    if evs != [] {
      RunStructure(cfg, evs[..|evs| - 1]);
      StepStructure(Run(cfg, evs[..|evs| - 1]), cfg, evs[|evs| - 1]);
    }
  }

  lemma StepStructure(r: Relay, cfg: Config, ev: Event)
    requires Legal(r, cfg, ev) && cfg.maxSubscribersPerDoc > 0 && NoEmptyDocument(r.router)
    ensures NoEmptyDocument(Step(r, cfg, ev).router)
  {
    hide RouteMessage, EnqueueAll, ToEnqueue, ValidEnqueues, Subscribe, SetAnchor, Drain;
    if ev.SubscribeTo? && ev.conn in r.users {
      var auth := if cfg.requireSubscribeAuthz
        then AuthorizeSubscribe(r.router, r.users[ev.conn], ev.doc, ev.capability, ev.now) else Ok(None);
      if auth.Ok? {
        SubscribeNoEmptyExact(r.router, cfg, r.users[ev.conn], ev.doc, auth.value);
      }
    } else if Routed(r, cfg, ev).Some? {
      PublishRoutes(r, cfg, ev);
      RouteNoEmpty(r.router, cfg, Routed(r, cfg, ev).value, ev.choice);
    }
  }

  // ---------------------------------------------------------------- grants

  /**
   `u`'s last accepted Subscribe for `d` in the run and the authorization it was granted, unless
   `u` has unsubscribed from `d` since.
   */
  function LastGrant(cfg: Config, evs: seq<Event>, u: UserId, d: DocId): Option<Option<u64>> {
    if evs == [] then None
    else
      var before, ev := evs[..|evs| - 1], evs[|evs| - 1];
      var r := Run(cfg, before);
      if GrantsTo(r, cfg, ev, u, d) then Granted(r, cfg, ev)
      else if EndsGrant(r, ev, u, d) then None
      else LastGrant(cfg, before, u, d)
  }

  predicate EndsGrant(r: Relay, ev: Event, u: UserId, d: DocId) {
    ev.UnsubscribeFrom? && ev.doc == d && ev.conn in r.users && r.users[ev.conn] == u
  }

  predicate GrantsTo(r: Relay, cfg: Config, ev: Event, u: UserId, d: DocId) {
    ev.SubscribeTo? && ev.doc == d && ev.conn in r.users && r.users[ev.conn] == u && Granted(r, cfg, ev).Some?
  }

  /** At position `j` a capability naming `u` and `d` verified against `d`'s anchor, then at epoch `e`. */
  ghost predicate CapabilityVerifiedAt(cfg: Config, evs: seq<Event>, j: nat, u: UserId, d: DocId, e: u64) {
    && j < |evs|
    && var r, ev := Run(cfg, evs[..j]), evs[j];
    && ev.SubscribeTo? && ev.doc == d && ev.capability.Some?
    && ev.conn in r.users && r.users[ev.conn] == u
    && d in r.router.anchors && r.router.anchors[d].epoch == e
    && VerifyCapability(ev.capability.value, r.router.anchors[d].verifyingKey, u, d, e, ev.now).Ok?
  }

  /** A content grant at epoch `e` always goes back to a capability that verified at that epoch. */
  lemma {:induction false} GrantMeansVerified(cfg: Config, evs: seq<Event>, u: UserId, d: DocId, e: u64)
    requires LastGrant(cfg, evs, u, d) == Some(Some(e))
    ensures exists j: nat :: CapabilityVerifiedAt(cfg, evs, j, u, d, e)
  {
    hide Run, Subscribe, VerifyCapability;
    var before, ev := evs[..|evs| - 1], evs[|evs| - 1];
    if GrantsTo(Run(cfg, before), cfg, ev, u, d) {
      assert CapabilityVerifiedAt(cfg, evs, |evs| - 1, u, d, e);
    } else {
      GrantMeansVerified(cfg, before, u, d, e);
      var j: nat :| CapabilityVerifiedAt(cfg, before, j, u, d, e);
      assert evs[..j] == before[..j];
      assert CapabilityVerifiedAt(cfg, evs, j, u, d, e);
    }
  }

  /** Every stored subscription is the one the user's last accepted Subscribe was granted. */
  ghost predicate SubscriptionsAreGrants(cfg: Config, evs: seq<Event>) {
    forall u, d :: IsSubscribed(Run(cfg, evs).router.subscriptions, u, d) ==>
      LastGrant(cfg, evs, u, d) == Some(Run(cfg, evs).router.subscriptions[d][u])
  }

  /** One step changes a subscription only by dropping it or by granting it anew; an unsubscribe ends it. */
  lemma StepSubscription(r: Relay, cfg: Config, ev: Event, u: UserId, d: DocId)
    requires Legal(r, cfg, ev) && IsSubscribed(Step(r, cfg, ev).router.subscriptions, u, d)
    ensures var state := Step(r, cfg, ev).router.subscriptions[d][u];
      if GrantsTo(r, cfg, ev, u, d) then Granted(r, cfg, ev) == Some(state)
      else !EndsGrant(r, ev, u, d) && IsSubscribed(r.router.subscriptions, u, d) && r.router.subscriptions[d][u] == state
  {
    hide RouteMessage, EnqueueAll, ToEnqueue, ValidEnqueues, SetAnchor, Drain, AuthorizeSubscribe,
      RegisterClient, UnregisterClient, AcceptsDocKey, Subscribe, Unsubscribe;
    if ev.SubscribeTo? && ev.conn in r.users {
      var auth := if cfg.requireSubscribeAuthz
        then AuthorizeSubscribe(r.router, r.users[ev.conn], ev.doc, ev.capability, ev.now) else Ok(None);
      if auth.Ok? {
        SubscribeExact(r.router, cfg, r.users[ev.conn], ev.doc, auth.value, u, d);
      }
    } else if ev.UnsubscribeFrom? && ev.conn in r.users {
      UnsubscribeExact(r.router, r.users[ev.conn], ev.doc, u, d);
    } else if Routed(r, cfg, ev).Some? {
      PublishRoutes(r, cfg, ev);
      RouteDropsEvicted(r.router, cfg, Routed(r, cfg, ev).value, ev.choice, d, u);
    }
  }

  lemma {:induction false} RunSubscriptionsAreGrants(cfg: Config, evs: seq<Event>)
    requires ValidRun(cfg, evs)
    ensures SubscriptionsAreGrants(cfg, evs)
  {
    hide Step, Legal, Granted, GrantsTo, EndsGrant;
    if evs != [] {
      var before, ev := evs[..|evs| - 1], evs[|evs| - 1];
      RunSubscriptionsAreGrants(cfg, before);
      forall u, d | IsSubscribed(Run(cfg, evs).router.subscriptions, u, d)
        ensures LastGrant(cfg, evs, u, d) == Some(Run(cfg, evs).router.subscriptions[d][u])
      {
        StepSubscription(Run(cfg, before), cfg, ev, u, d);
      }
    }
  }

  // ---------------------------------------------------------------- content safety

  /**
   `m` was routed at position `i`, to `u`, when both ends were subscribed and the last grants of
   both, not given up since, matched the anchor.
   */
  ghost predicate RoutedAt(cfg: Config, evs: seq<Event>, i: nat, u: UserId, m: ServerMessage) {
    && i < |evs|
    && var r, ev := Run(cfg, evs[..i]), evs[i];
    && ev.SendUpdate? && Routed(r, cfg, ev) == Some(m)
    && m.docId in r.router.anchors
    && var authorized := Some(Some(r.router.anchors[m.docId].epoch));
    && m.from != u
    && IsSubscribed(r.router.subscriptions, m.from, m.docId) && IsSubscribed(r.router.subscriptions, u, m.docId)
    && LastGrant(cfg, evs[..i], m.from, m.docId) == authorized
    && LastGrant(cfg, evs[..i], u, m.docId) == authorized
  }

  /** Everything `u` was ever sent or still has queued, oldest first. */
  function Received(r: Relay, u: UserId): seq<ServerMessage> {
    SentTo(r.router.outbox, u) + Queue(r.router.offline, u)
  }

  function Copies(r: Relay, u: UserId, m: ServerMessage): nat {
    multiset(Received(r, u))[m]
  }

  /** What one event routes to `u`. */
  function NewFor(r: Relay, cfg: Config, ev: Event, u: UserId): seq<ServerMessage> {
    var message := Routed(r, cfg, ev);
    if message.Some? && IsRecipient(r.router, cfg, ev.doc, r.users[ev.conn], message.value, u) then [message.value] else []
  }

  /** Everything the run routed to `u` as a recipient, in order. */
  function RoutedTo(cfg: Config, evs: seq<Event>, u: UserId): seq<ServerMessage> {
    if evs == [] then []
    else RoutedTo(cfg, evs[..|evs| - 1], u) + NewFor(Run(cfg, evs[..|evs| - 1]), cfg, evs[|evs| - 1], u)
  }

  /** One event adds at most what it routes to `u`, after everything else. */
  lemma StepReceived(r: Relay, cfg: Config, ev: Event, u: UserId)
    requires QueueSound(r, cfg) && Legal(r, cfg, ev)
    ensures Subsequence(Received(Step(r, cfg, ev), u), Received(r, u) + NewFor(r, cfg, ev, u))
  {
    hide RouteMessage, EnqueueAll, ToEnqueue, ValidEnqueues, Subscribe, Unsubscribe, SetAnchor, Queue, Drain,
      WellFormed, Bounded, AuthorizeSubscribe, Subsequence, SentTo, AcceptsDocKey;
    if Routed(r, cfg, ev).Some? {
      RouteReceived(r, cfg, ev, u);
    } else {
      assert Received(r, u) + [] == Received(r, u);
      if ev.Identify? && AcceptsIdentify(ev.user, ev.authenticated) {
        IdentifyReceived(r, cfg, ev, u);
      } else {
        SubsequenceRefl(Received(r, u));
      }
    }
  }

  lemma RouteReceived(r: Relay, cfg: Config, ev: Event, u: UserId)
    requires QueueSound(r, cfg) && Legal(r, cfg, ev) && Routed(r, cfg, ev).Some?
    ensures Subsequence(Received(Step(r, cfg, ev), u), Received(r, u) + NewFor(r, cfg, ev, u))
  {
    hide RouteMessage, EnqueueAll, ToEnqueue, ValidEnqueues, Queue, WellFormed, Bounded, Subsequence, SentTo, Step;
    PublishRoutes(r, cfg, ev);
    var message, q, q' := Routed(r, cfg, ev).value, r.router, Step(r, cfg, ev).router;
    RouteTouchesOnlyRecipients(q, cfg, ev.doc, r.users[ev.conn], message, ev.choice, u);
    var sent, queued, arriving := SentTo(q.outbox, u), Queue(q.offline, u), NewFor(r, cfg, ev, u);
    if FateOf(q.clients, ev.choice.full, u) == Sent {
      assert Queue(q'.offline, u) == [] by {
        assert queued + [] == [];
        QueueProperties.SubsequenceLength(Queue(q'.offline, u), []);
      }
      assert Received(Step(r, cfg, ev), u) == sent + arriving == Received(r, u) + arriving;
      SubsequenceRefl(sent + arriving);
    } else {
      assert sent + [] == sent;
      SubsequencePrepend(sent, Queue(q'.offline, u), queued + arriving);
      assert sent + (queued + arriving) == Received(r, u) + arriving;
    }
  }

  /** Identifying only moves a user's queued messages onto its own channel. */
  lemma IdentifyReceived(r: Relay, cfg: Config, ev: Event, u: UserId)
    requires QueueSound(r, cfg) && ev.Identify? && AcceptsIdentify(ev.user, ev.authenticated)
    ensures Subsequence(Received(Step(r, cfg, ev), u), Received(r, u))
  {
    hide WellFormed, Bounded, Drain, Queue, Subsequence;
    var r' := Step(r, cfg, ev);
    var registered := RegisterClient(r.router, ev.user, ev.conn, true, ev.notified).0;
    var drained := Drain(r.router.offline, ev.user).1;
    var deliveries := HandOver(ev.user, ev.conn, drained);
    QueueProperties.DrainFacts(r.router.offline, ev.user);
    SentConcat(registered.outbox, deliveries, u);
    assert SentTo(registered.outbox, u) == SentTo(r.router.outbox, u);
    HandedOver(ev.user, ev.conn, drained, u);
    var sent, queued := SentTo(r.router.outbox, u), Queue(r.router.offline, u);
    if u == ev.user {
      assert Received(r', u) == sent + SentTo(deliveries, u);
      SubsequencePrepend(sent, SentTo(deliveries, u), queued);
    } else {
      assert Received(r', u) == sent + queued;
      SubsequenceRefl(sent + queued);
    }
  }

  lemma HandOverSnoc(user: UserId, conn: ConnId, drained: seq<ServerMessage>, last: ServerMessage)
    ensures HandOver(user, conn, drained + [last]) == HandOver(user, conn, drained) + [Delivery(user, conn, last)]
  {
  }

  lemma SentSnoc(outbox: seq<Delivery>, x: Delivery, u: UserId)
    ensures SentTo(outbox + [x], u) == SentTo(outbox, u) + if x.user == u && !x.message.Error? then [x.message] else []
  {
    assert (outbox + [x])[..|outbox|] == outbox;
  }

  lemma {:induction false} HandedOver(user: UserId, conn: ConnId, drained: seq<ServerMessage>, u: UserId)
    ensures if u == user then Subsequence(SentTo(HandOver(user, conn, drained), u), drained)
      else SentTo(HandOver(user, conn, drained), u) == []
  {
    hide SentTo, HandOver, Subsequence;
    if drained == [] {
      NothingHandedOver(user, conn, u);
    } else {
      var front, last := drained[..|drained| - 1], drained[|drained| - 1];
      HandedOver(user, conn, front, u);
      assert drained == front + [last];
      HandOverSnoc(user, conn, front, last);
      SentSnoc(HandOver(user, conn, front), Delivery(user, conn, last), u);
      var sent := SentTo(HandOver(user, conn, front), u);
      if u == user {
        SubsequenceSnoc(sent, front, last);
        assert sent + [] == sent;
      }
    }
  }

  lemma NothingHandedOver(user: UserId, conn: ConnId, u: UserId)
    ensures SentTo(HandOver(user, conn, []), u) == [] && Subsequence<ServerMessage>([], [])
  {
  }

  /**
   The relay loses but never repeats, reorders or invents: over any run, what a user was sent
   followed by what is still queued for it is an in-order part of what was routed to it.
   */
  lemma {:induction false} RelayFifo(cfg: Config, evs: seq<Event>, u: UserId)
    requires ValidRun(cfg, evs)
    ensures Subsequence(Received(Run(cfg, evs), u), RoutedTo(cfg, evs, u))
  {
    hide Step, Legal, NewFor, Subsequence;
    if evs == [] {
      assert Received(EMPTY_RELAY, u) == [];
      SubsequenceRefl(Received(EMPTY_RELAY, u));
    } else {
      var before, ev := evs[..|evs| - 1], evs[|evs| - 1];
      var r := Run(cfg, before);
      RelayFifo(cfg, before, u);
      RunQueueSound(cfg, before);
      StepReceived(r, cfg, ev, u);
      SubsequenceRefl(NewFor(r, cfg, ev, u));
      SubsequenceConcat(Received(r, u), RoutedTo(cfg, before, u), NewFor(r, cfg, ev, u), NewFor(r, cfg, ev, u));
      SubsequenceTrans(Received(Run(cfg, evs), u), Received(r, u) + NewFor(r, cfg, ev, u), RoutedTo(cfg, evs, u));
    }
  }

  /** One event adds at most one copy of a message to what a user received, and only by routing it to that user. */
  lemma StepCopies(r: Relay, cfg: Config, ev: Event, u: UserId, m: ServerMessage)
    requires QueueSound(r, cfg) && Legal(r, cfg, ev)
    ensures Copies(Step(r, cfg, ev), u, m) <= Copies(r, u, m) + if NewFor(r, cfg, ev, u) == [m] then 1 else 0
  {
    hide Step, Legal, Subsequence, QueueSound, Received;
    StepReceived(r, cfg, ev, u);
    SubsequenceCopies(Received(Step(r, cfg, ev), u), Received(r, u) + NewFor(r, cfg, ev, u), m);
  }

  /** The positions of the run at which `m` was legitimately routed to `u`. */
  ghost function AuthorizedRoutings(cfg: Config, evs: seq<Event>, u: UserId, m: ServerMessage): set<nat> {
    set i: nat | i < |evs| && RoutedAt(cfg, evs, i, u, m)
  }

  /**
   Content safety, copy for copy. With subscribe authorization on, a user never holds more copies
   of a content message, sent or still queued, than there were moments at which that message was
   routed while its sender and that user were both subscribed, and the last accepted Subscribe of
   each, not given up since, carried a capability verified at the epoch the document's anchor had
   at that very moment.
   */
  lemma {:induction false} ContentSafety(cfg: Config, evs: seq<Event>, u: UserId, m: ServerMessage)
    requires cfg.requireSubscribeAuthz && ValidRun(cfg, evs) && m.YrsUpdate?
    ensures Copies(Run(cfg, evs), u, m) <= |AuthorizedRoutings(cfg, evs, u, m)|
  {
    hide Step, Legal, RoutedAt, NewFor, QueueSound;
    if evs == [] {
      assert Received(EMPTY_RELAY, u) == [];
    } else {
      var before, ev := evs[..|evs| - 1], evs[|evs| - 1];
      ContentSafety(cfg, before, u, m);
      RunQueueSound(cfg, before);
      StepCopies(Run(cfg, before), cfg, ev, u, m);
      if NewFor(Run(cfg, before), cfg, ev, u) == [m] {
        NewIsAuthorized(cfg, evs, |evs| - 1, u, m);
      }
      RoutingsGrow(cfg, evs, u, m);
    }
  }

  lemma RoutingsGrow(cfg: Config, evs: seq<Event>, u: UserId, m: ServerMessage)
    requires evs != []
    ensures |AuthorizedRoutings(cfg, evs, u, m)|
      == |AuthorizedRoutings(cfg, evs[..|evs| - 1], u, m)| + if RoutedAt(cfg, evs, |evs| - 1, u, m) then 1 else 0
  {
    hide RoutedAt;
    var before, n := evs[..|evs| - 1], |evs| - 1;
    var was, now := AuthorizedRoutings(cfg, before, u, m), AuthorizedRoutings(cfg, evs, u, m);
    forall i: nat | i < n
      ensures i in was <==> i in now
    {
      RoutedAtPrefix(cfg, evs, n, i, u, m);
    }
    assert now == if RoutedAt(cfg, evs, n, u, m) then was + {n} else was;
  }

  lemma RoutedAtPrefix(cfg: Config, evs: seq<Event>, n: nat, i: nat, u: UserId, m: ServerMessage)
    requires i < n <= |evs|
    ensures RoutedAt(cfg, evs[..n], i, u, m) <==> RoutedAt(cfg, evs, i, u, m)
  {
    hide Run, Routed, LastGrant;
    assert evs[..n][..i] == evs[..i];
  }

  /** Content routed to a recipient is routed while both ends' last grants match the anchor. */
  lemma NewIsAuthorized(cfg: Config, evs: seq<Event>, i: nat, u: UserId, m: ServerMessage)
    requires i < |evs| && cfg.requireSubscribeAuthz && ValidRun(cfg, evs[..i])
    requires m.YrsUpdate? && NewFor(Run(cfg, evs[..i]), cfg, evs[i], u) == [m]
    ensures RoutedAt(cfg, evs, i, u, m)
  {
    hide Run, LastGrant;
    RunSubscriptionsAreGrants(cfg, evs[..i]);
  }

  // ---------------------------------------------------------------- anchors

  predicate AnchorsDoc(r: Relay, cfg: Config, ev: Event, d: DocId) {
    ev.RegisterDocKey? && ev.doc == d && AcceptsDocKey(r, cfg, ev)
  }

  /** Every anchor the run ever stored for `d`, oldest first. */
  function AnchorHistory(cfg: Config, evs: seq<Event>, d: DocId): seq<DocAnchor> {
    if evs == [] then []
    else
      var before, ev := evs[..|evs| - 1], evs[|evs| - 1];
      AnchorHistory(cfg, before, d)
        + if AnchorsDoc(Run(cfg, before), cfg, ev, d) then [DocAnchor(ev.epoch, ev.publicKey)] else []
  }

  lemma StepAnchor(r: Relay, cfg: Config, ev: Event, d: DocId)
    ensures var anchors' := Step(r, cfg, ev).router.anchors;
      if AnchorsDoc(r, cfg, ev, d) then d in anchors' && anchors'[d] == DocAnchor(ev.epoch, ev.publicKey)
      else (d in anchors' <==> d in r.router.anchors) && (d in anchors' ==> anchors'[d] == r.router.anchors[d])
  {
    hide RouteMessage, EnqueueAll, ToEnqueue, Subscribe, Unsubscribe, Drain, AuthorizeSubscribe;
    if Step(r, cfg, ev) != r && (ev.SendUpdate? || ev.SendHandshake?) {
      RouteParts(r.router, cfg, Routed(r, cfg, ev).value, ev.choice);
    }
  }

  lemma OnlyRegistrationAnchors(r: Relay, cfg: Config, ev: Event)
    requires !ev.RegisterDocKey?
    ensures Step(r, cfg, ev).router.anchors == r.router.anchors
  {
    hide RouteMessage, EnqueueAll, ToEnqueue, Subscribe, Unsubscribe, Drain, AuthorizeSubscribe;
    if Step(r, cfg, ev) != r && (ev.SendUpdate? || ev.SendHandshake?) {
      RouteParts(r.router, cfg, Routed(r, cfg, ev).value, ev.choice);
    }
  }

  /** An event of the run registered `new` for `d`, self-signed by `new` and authorized by `old`. */
  ghost predicate RotationSigned(evs: seq<Event>, d: DocId, old_: DocAnchor, next: DocAnchor) {
    exists ev :: ev in evs && ev.RegisterDocKey? && ev.doc == d
      && ev.rotationProof == Signed(old_.verifyingKey, RotationProofBytes(d, next.epoch, next.verifyingKey))
      && ev.proof == Signed(next.verifyingKey, RegisterProofBytes(d, next.epoch))
  }

  /** The stored anchor is the last of the history, and the first one was within the initial ceiling. */
  lemma {:induction false} AnchorStored(cfg: Config, evs: seq<Event>, d: DocId)
    ensures var h := AnchorHistory(cfg, evs, d);
      && (d in Run(cfg, evs).router.anchors <==> h != [])
      && (h != [] ==> Run(cfg, evs).router.anchors[d] == h[|h| - 1] && h[0].epoch <= MAX_INITIAL_ANCHOR_EPOCH)
  {
    hide Step, AcceptsDocKey;
    if evs != [] {
      var before, ev := evs[..|evs| - 1], evs[|evs| - 1];
      AnchorStored(cfg, before, d);
      StepAnchor(Run(cfg, before), cfg, ev, d);
      if AnchorsDoc(Run(cfg, before), cfg, ev, d) {
        AcceptedEpoch(Run(cfg, before), cfg, ev, d);
      }
    }
  }

  lemma AcceptedEpoch(r: Relay, cfg: Config, ev: Event, d: DocId)
    requires AnchorsDoc(r, cfg, ev, d)
    ensures |ev.publicKey| == 32
    ensures if d in r.router.anchors then ev.epoch > r.router.anchors[d].epoch else ev.epoch <= MAX_INITIAL_ANCHOR_EPOCH
  {
  }

  ghost predicate Increasing(h: seq<DocAnchor>) {
    forall i, j :: 0 <= i < j < |h| ==> h[i].epoch < h[j].epoch
  }

  lemma IncreasingSnoc(h: seq<DocAnchor>, a: DocAnchor)
    requires Increasing(h) && (h != [] ==> h[|h| - 1].epoch < a.epoch)
    ensures Increasing(h + [a])
  {
  }

  lemma {:induction false} AnchorsIncrease(cfg: Config, evs: seq<Event>, d: DocId)
    ensures Increasing(AnchorHistory(cfg, evs, d))
  {
    hide Run, AcceptsDocKey;
    if evs != [] {
      var before, ev := evs[..|evs| - 1], evs[|evs| - 1];
      var h := AnchorHistory(cfg, before, d);
      AnchorsIncrease(cfg, before, d);
      AnchorStored(cfg, before, d);
      if AnchorsDoc(Run(cfg, before), cfg, ev, d) {
        AcceptedEpoch(Run(cfg, before), cfg, ev, d);
        IncreasingSnoc(h, DocAnchor(ev.epoch, ev.publicKey));
      } else {
        assert h + [] == h;
      }
    }
  }

  /** Each later anchor of `h` was authorized by the one before it. */
  ghost predicate Chained(evs: seq<Event>, d: DocId, h: seq<DocAnchor>) {
    forall i :: 0 < i < |h| ==> RotationSigned(evs, d, h[i - 1], h[i])
  }

  lemma {:induction false} AnchorsChained(cfg: Config, evs: seq<Event>, d: DocId)
    ensures Chained(evs, d, AnchorHistory(cfg, evs, d))
  {
    hide Run, RotationSigned, AcceptsDocKey;
    if evs != [] {
      var before, ev := evs[..|evs| - 1], evs[|evs| - 1];
      var h, h' := AnchorHistory(cfg, before, d), AnchorHistory(cfg, evs, d);
      AnchorsChained(cfg, before, d);
      AnchorStored(cfg, before, d);
      assert evs == before + [ev];
      forall i | 0 < i < |h'|
        ensures RotationSigned(evs, d, h'[i - 1], h'[i])
      {
        if i < |h| {
          RotationSignedLater(before, ev, d, h[i - 1], h[i]);
        } else {
          AcceptedRotationSigned(Run(cfg, before), cfg, evs, d, h[|h| - 1]);
        }
      }
    }
  }

  /** An event of the run registered `a` for `d` with a proof made by `a`'s own key. */
  ghost predicate SelfProved(evs: seq<Event>, d: DocId, a: DocAnchor) {
    exists ev :: ev in evs && ev.RegisterDocKey? && ev.doc == d
      && ev.epoch == a.epoch && ev.publicKey == a.verifyingKey
      && ev.proof == Signed(a.verifyingKey, RegisterProofBytes(d, a.epoch))
  }

  lemma {:induction false} AnchorsSelfProved(cfg: Config, evs: seq<Event>, d: DocId)
    ensures forall i :: 0 <= i < |AnchorHistory(cfg, evs, d)| ==> SelfProved(evs, d, AnchorHistory(cfg, evs, d)[i])
  {
    hide Run, SelfProved, AcceptsDocKey;
    if evs != [] {
      var before, ev := evs[..|evs| - 1], evs[|evs| - 1];
      var h, h' := AnchorHistory(cfg, before, d), AnchorHistory(cfg, evs, d);
      AnchorsSelfProved(cfg, before, d);
      assert evs == before + [ev];
      forall i | 0 <= i < |h'|
        ensures SelfProved(evs, d, h'[i])
      {
        if i < |h| {
          SelfProvedLater(before, ev, d, h[i]);
        } else {
          AcceptedSelfProved(Run(cfg, before), cfg, evs, d);
        }
      }
    }
  }

  lemma SelfProvedLater(before: seq<Event>, ev: Event, d: DocId, a: DocAnchor)
    requires SelfProved(before, d, a)
    ensures SelfProved(before + [ev], d, a)
  {
  }

  lemma AcceptedSelfProved(r: Relay, cfg: Config, evs: seq<Event>, d: DocId)
    requires evs != [] && AnchorsDoc(r, cfg, evs[|evs| - 1], d)
    ensures var ev := evs[|evs| - 1]; SelfProved(evs, d, DocAnchor(ev.epoch, ev.publicKey))
  {
    assert evs[|evs| - 1] in evs;
  }

  /**
   Anchor chain. In every run a document's anchors have strictly increasing epochs starting at or
   below the initial ceiling, the last of them is the stored one, every one of them, the first
   included, came with a proof made by its own key for this document and epoch, and every later
   key was signed, for this document and epoch, by the key it replaced.
   */
  lemma AnchorChain(cfg: Config, evs: seq<Event>, d: DocId)
    ensures var h := AnchorHistory(cfg, evs, d);
      && (d in Run(cfg, evs).router.anchors <==> h != [])
      && (h != [] ==> Run(cfg, evs).router.anchors[d] == h[|h| - 1] && h[0].epoch <= MAX_INITIAL_ANCHOR_EPOCH)
      && (forall i, j :: 0 <= i < j < |h| ==> h[i].epoch < h[j].epoch)
      && (forall i :: 0 <= i < |h| ==> SelfProved(evs, d, h[i]))
      && (forall i :: 0 < i < |h| ==> RotationSigned(evs, d, h[i - 1], h[i]))
  {
    hide Run, AnchorHistory, RotationSigned, SelfProved;
    AnchorStored(cfg, evs, d);
    AnchorsIncrease(cfg, evs, d);
    AnchorsSelfProved(cfg, evs, d);
    AnchorsChained(cfg, evs, d);
  }

  lemma RotationSignedLater(before: seq<Event>, ev: Event, d: DocId, old_: DocAnchor, next: DocAnchor)
    requires RotationSigned(before, d, old_, next)
    ensures RotationSigned(before + [ev], d, old_, next)
  {
  }

  lemma AcceptedRotationSigned(r: Relay, cfg: Config, evs: seq<Event>, d: DocId, old_: DocAnchor)
    requires evs != [] && AnchorsDoc(r, cfg, evs[|evs| - 1], d)
    requires d in r.router.anchors && r.router.anchors[d] == old_
    ensures var ev := evs[|evs| - 1]; RotationSigned(evs, d, old_, DocAnchor(ev.epoch, ev.publicKey))
  {
    assert evs[|evs| - 1] in evs;
  }

  /** Once stored, an anchor stays and its epoch never goes back. */
  lemma {:induction false} AnchorEpochMonotone(cfg: Config, evs: seq<Event>, p: nat, d: DocId)
    requires p <= |evs| && d in Run(cfg, evs[..p]).router.anchors
    ensures d in Run(cfg, evs).router.anchors
    ensures Run(cfg, evs[..p]).router.anchors[d].epoch <= Run(cfg, evs).router.anchors[d].epoch
  {
    hide Step;
    if p == |evs| {
      assert evs[..p] == evs;
    } else {
      var before := evs[..|evs| - 1];
      assert before[..p] == evs[..p];
      AnchorEpochMonotone(cfg, before, p, d);
      StepAnchor(Run(cfg, before), cfg, evs[|evs| - 1], d);
    }
  }

  lemma {:induction false} ValidPrefix(cfg: Config, evs: seq<Event>, i: nat)
    requires i <= |evs| && ValidRun(cfg, evs)
    ensures ValidRun(cfg, evs[..i])
    ensures i < |evs| ==> Legal(Run(cfg, evs[..i]), cfg, evs[i]) && Run(cfg, evs[..i + 1]) == Step(Run(cfg, evs[..i]), cfg, evs[i])
  {
    hide Step, Legal;
    if i == |evs| {
      assert evs[..i] == evs;
    } else {
      var before := evs[..|evs| - 1];
      assert before[..i] == evs[..i] && evs[..i + 1][..i] == evs[..i];
      ValidPrefix(cfg, before, i);
      if i + 1 < |evs| {
        assert before[..i + 1] == evs[..i + 1];
      } else {
        assert before == evs[..i] && evs[..i + 1] == evs;
      }
    }
  }

  /**
   A rotation revokes. Once `d`'s anchor has moved past `e`, at every later position: content for
   `d` from a connection whose user was last granted `e` is not routed at all; and a user last
   granted `e` is no recipient of content for `d` and gains no copy of any, whatever it held.
   */
  lemma RotationRevokes(cfg: Config, evs: seq<Event>, p: nat, i: nat, d: DocId, e: u64, u: UserId, m: ServerMessage)
    requires cfg.requireSubscribeAuthz && ValidRun(cfg, evs) && p <= i < |evs|
    requires d in Run(cfg, evs[..p]).router.anchors && Run(cfg, evs[..p]).router.anchors[d].epoch > e
    requires LastGrant(cfg, evs[..i], u, d) == Some(Some(e)) && m.YrsUpdate? && m.docId == d
    ensures var r, ev := Run(cfg, evs[..i]), evs[i];
      && (ev.SendUpdate? && ev.doc == d && ev.conn in r.users && r.users[ev.conn] == u ==> Routed(r, cfg, ev).None?)
      && !IsRecipient(r.router, cfg, d, m.from, m, u)
      && Copies(Run(cfg, evs[..i + 1]), u, m) <= Copies(r, u, m)
  {
    hide Run, LastGrant, Step, Legal, QueueSound, Copies;
    ValidPrefix(cfg, evs, i);
    assert evs[..i][..p] == evs[..p];
    AnchorEpochMonotone(cfg, evs[..i], p, d);
    RunSubscriptionsAreGrants(cfg, evs[..i]);
    RunQueueSound(cfg, evs[..i]);
    StepCopies(Run(cfg, evs[..i]), cfg, evs[i], u, m);
  }

  // ---------------------------------------------------------------- live users

  /** The event routes past a live user `u`: it is the sender, or its channel takes what it is sent. */
  predicate ChannelTakes(r: Relay, cfg: Config, ev: Event, u: UserId) {
    Routed(r, cfg, ev).Some? && u in r.router.clients ==>
      r.users[ev.conn] == u || r.router.clients[u] !in ev.choice.full
  }

  /**
   A live user whose channel takes what it is sent keeps every subscription it does not give up
   itself: no traffic of others evicts it.
   */
  lemma LiveUserKeepsSubscriptions(r: Relay, cfg: Config, ev: Event, u: UserId, d: DocId)
    requires QueueSound(r, cfg) && Legal(r, cfg, ev)
    requires u in r.router.clients && ChannelTakes(r, cfg, ev, u)
    requires !EndsGrant(r, ev, u, d) && IsSubscribed(r.router.subscriptions, u, d)
    ensures IsSubscribed(Step(r, cfg, ev).router.subscriptions, u, d)
  {
    hide RouteMessage, EnqueueAll, ToEnqueue, ValidEnqueues, SetAnchor, Drain, AuthorizeSubscribe, WellFormed, Bounded, Queue,
      RegisterClient, UnregisterClient, AcceptsDocKey, Subscribe, Unsubscribe;
    if ev.SubscribeTo? && ev.conn in r.users {
      var auth := if cfg.requireSubscribeAuthz
        then AuthorizeSubscribe(r.router, r.users[ev.conn], ev.doc, ev.capability, ev.now) else Ok(None);
      if auth.Ok? {
        SubscribeExact(r.router, cfg, r.users[ev.conn], ev.doc, auth.value, u, d);
      }
    } else if ev.UnsubscribeFrom? && ev.conn in r.users {
      UnsubscribeExact(r.router, r.users[ev.conn], ev.doc, u, d);
    } else if Routed(r, cfg, ev).Some? {
      PublishRoutes(r, cfg, ev);
      LiveUserKept(r.router, cfg, ev.doc, r.users[ev.conn], Routed(r, cfg, ev).value, ev.choice, u, d);
    }
  }

  /** Its session lives on too, until it is torn down or taken over. */
  lemma LiveUserKeepsSession(r: Relay, cfg: Config, ev: Event, u: UserId)
    requires QueueSound(r, cfg) && Legal(r, cfg, ev)
    requires u in r.router.clients && ChannelTakes(r, cfg, ev, u)
    requires !(ev.Teardown? && ev.conn == r.router.clients[u]) && !(ev.Identify? && ev.user == u)
    ensures u in Step(r, cfg, ev).router.clients && Step(r, cfg, ev).router.clients[u] == r.router.clients[u]
  {
    hide RouteMessage, EnqueueAll, ToEnqueue, ValidEnqueues, SetAnchor, Drain, AuthorizeSubscribe, WellFormed, Bounded, Queue,
      AcceptsDocKey, Subscribe, Unsubscribe;
    if Routed(r, cfg, ev).Some? {
      PublishRoutes(r, cfg, ev);
      LiveUserKept(r.router, cfg, ev.doc, r.users[ev.conn], Routed(r, cfg, ev).value, ev.choice, u, ev.doc);
    }
  }

  // ---------------------------------------------------------------- handshakes and sessions

  /**
   Handshake traffic is never gated: an accepted handshake goes to every other subscriber,
   whatever its grant, each exactly once, on the wire or through the offline queue.
   */
  lemma HandshakeReachesEverySubscriber(r: Relay, cfg: Config, ev: Event)
    requires ev.SendHandshake? && Legal(r, cfg, ev) && Routed(r, cfg, ev).Some?
    ensures var message := Routed(r, cfg, ev).value;
      var added := Added(r.router, message, ev.choice);
      && Step(r, cfg, ev).router.outbox == r.router.outbox + added
      && Distinct(added) && Distinct(ToEnqueue(r.router, ev.choice))
    ensures var message := Routed(r, cfg, ev).value;
      forall u :: (
        IsSubscribed(r.router.subscriptions, u, ev.doc) && u != r.users[ev.conn]
        <==> u in ToEnqueue(r.router, ev.choice)
             || (u in r.router.clients
                 && Delivery(u, r.router.clients[u], message) in Added(r.router, message, ev.choice)))
  {
    hide RouteMessage, Added, ToEnqueue, Step;
    PublishRoutes(r, cfg, ev);
    RouteServesEachOnce(r.router, cfg, ev.doc, r.users[ev.conn], Routed(r, cfg, ev).value, ev.choice);
  }

  /**
   Identifying makes this connection the user's session and hands over its whole queue, in order
   and once: afterwards nothing is queued for it, and every other queue is as before.
   */
  lemma IdentifyHandsOver(r: Relay, cfg: Config, conn: ConnId, user: UserId, notified: bool, v: UserId)
    requires WellFormed(r.router.offline) && |user.utf8| <= 256
    ensures var r', q := Step(r, cfg, Identify(conn, user, true, notified)), Queue(r.router.offline, user);
      && r'.users == r.users[conn := user]
      && user in r'.router.clients && r'.router.clients[user] == conn
      && Queue(r'.router.offline, user) == []
      && (v != user ==> Queue(r'.router.offline, v) == Queue(r.router.offline, v))
      && |r'.router.outbox| >= |r.router.outbox| + |q|
      && (forall i :: 0 <= i < |q| ==>
            r'.router.outbox[|r'.router.outbox| - |q| + i] == Delivery(user, conn, q[i]))
      && (user in r.router.clients && r.router.clients[user] != conn ==> r.router.clients[user] in r'.router.closed)
      && r'.router.clients == r.router.clients[user := conn]
      && r'.router.subscriptions == r.router.subscriptions && r'.router.anchors == r.router.anchors
  {
    hide WellFormed, Drain, Queue;
    QueueProperties.DrainFacts(r.router.offline, user);
  }

  /** A teardown removes no session but the one of the connection being torn down. */
  lemma TeardownExact(r: Relay, cfg: Config, conn: ConnId, u: UserId)
    ensures var r' := Step(r, cfg, Teardown(conn));
      && (u in r'.router.clients <==>
            u in r.router.clients && !(conn in r.users && u == r.users[conn] && r.router.clients[u] == conn))
      && (u in r'.router.clients ==> r'.router.clients[u] == r.router.clients[u])
      && r'.users == r.users - {conn}
      && r' == r.(users := r'.users, router := r.router.(clients := r'.router.clients))
  {
    if conn in r.users {
      UnregisterExact(r.router, r.users[conn], conn, u);
    }
  }
}
