/**
 The handlers of crates/collab-relay/src/relay.rs. Each takes the connection it runs on, changes
 the router and the connection's identity in place, and returns what it replies on that
 connection. Each is proved to be exactly one step of `RelayModel`.
 */
module RelayServer {
  import opened Common
  import opened Protocol
  import opened QueueModel
  import opened Capability
  import opened RouterModel
  import opened RelayModel
  import opened Routing
  import opened RelayDelivery

  class RelayServer {
    const router: MessageRouter
    const authToken: Option<seq<byte>>
    /** The identity each connection last established (its local `user_id`). */
    var users: map<ConnId, UserId>

    ghost function State(): Relay
      reads this, router, router.offline
    {
      Relay(router.State(), users)
    }

    ghost predicate Valid()
      reads this, router, router.offline
    {
      router.Valid()
    }

    constructor (config: Config, authToken: Option<seq<byte>>)
      ensures Valid() && State() == EMPTY_RELAY
      ensures router.config == config && this.authToken == authToken
    {
      router := new MessageRouter(config);
      this.authToken := authToken;
      users := map[];
    }

    predicate TokenAccepted(token: Option<seq<byte>>) {
      authToken.None? || token == authToken
    }

    /** Authenticate, take the session over, then hand over whatever was queued. */
    method HandleIdentify(conn: ConnId, uid: UserId, token: Option<seq<byte>>, notified: bool)
      returns (replies: seq<ServerMessage>)
      requires Valid()
      modifies this, router, router.offline
      ensures Valid()
      ensures State() == Step(old(State()), router.config, Identify(conn, uid, TokenAccepted(token), notified))
      ensures authToken.Some? && token != authToken ==> replies == [Error(Unauthorized)]
      ensures (authToken.None? || token == authToken) && |uid.utf8| > 256 ==> replies == [Error(LimitExceeded)]
      ensures (authToken.None? || token == authToken) && |uid.utf8| <= 256 ==>
        replies == [ServerMessage.Identified(uid)] + Queue(old(State()).router.offline, uid)
    {
      if !TokenAccepted(token) {
        return [Error(Unauthorized)];
      }
      if |uid.utf8| > MAX_ID_LEN {
        return [Error(LimitExceeded)];
      }
      var registered := router.RegisterClient(uid, conn, true, notified);
      if !registered {
        return [Error(Unauthorized)];
      }
      users := users[conn := uid];
      replies := [ServerMessage.Identified(uid)];
      var drained := router.DrainOffline(uid);
      router.outbox := router.outbox + HandOver(uid, conn, drained);
      replies := replies + drained;
    }

    method AuthorizeSubscribe(uid: UserId, doc: DocId, capability: Option<SubscribeCapability>, now: u64)
      returns (result: Result<Option<u64>, ErrorCode>)
      requires Valid()
      ensures result == RelayModel.AuthorizeSubscribe(State().router, uid, doc, capability, now)
      ensures result
        == if capability.None? then Ok(None)
           else if CapabilityProves(State().router, capability.value, uid, doc, now) then Ok(Some(router.anchors[doc].epoch))
           else Err(Unauthorized)
    {
      hide CapabilityProves;
      AuthorizeExact(State().router, uid, doc, capability, now);
      if capability.None? {
        return Ok(None);
      }
      if doc !in router.anchors {
        return Err(Unauthorized);
      }
      var anchor := router.anchors[doc];
      if VerifyCapability(capability.value, anchor.verifyingKey, uid, doc, anchor.epoch, now).Err? {
        return Err(Unauthorized);
      }
      return Ok(Some(anchor.epoch));
    }

    method HandleSubscribe(conn: ConnId, doc: DocId, capability: Option<SubscribeCapability>, now: u64)
      returns (replies: seq<ServerMessage>)
      requires Valid()
      modifies router
      ensures Valid()
      ensures State() == Step(old(State()), router.config, SubscribeTo(conn, doc, capability, now))
      ensures conn !in old(users) ==> replies == [Error(NotIdentified)]
      ensures conn in old(users) && |doc.utf8| > 256 ==> replies == [Error(LimitExceeded)]
      ensures conn in old(users) && |doc.utf8| <= 256 ==>
        var was, user := old(State()).router, old(users)[conn];
        replies == [
          if CapabilityFails(was, router.config, capability, user, doc, now) then Error(Unauthorized)
          else if HasSeat(was, router.config, user, doc) then Subscribed(doc)
          else Error(LimitExceeded)]
    {
      hide RouterModel.Subscribe, RelayModel.AuthorizeSubscribe, HasSeat, CapabilityProves;
      if conn !in users {
        return [Error(NotIdentified)];
      }
      if !ValidDocId(doc) {
        return [Error(LimitExceeded)];
      }
      var auth := None;
      AuthorizeExact(State().router, users[conn], doc, capability, now);
      if router.config.requireSubscribeAuthz {
        var result := AuthorizeSubscribe(users[conn], doc, capability, now);
        if result.Err? {
          return [Error(Unauthorized)];
        }
        auth := result.value;
      }
      SeatExact(State().router, router.config, users[conn], doc, auth);
      var accepted := router.Subscribe(users[conn], doc, auth);
      replies := if accepted then [Subscribed(doc)] else [Error(LimitExceeded)];
    }

    /** Accepting is silent; every refusal is answered, an unproven key or epoch with `Unauthorized`. */
    method HandleRegisterDocKey(conn: ConnId, doc: DocId, epoch: u64, publicKey: seq<byte>,
                                proof: Signature, rotationProof: Signature)
      returns (replies: seq<ServerMessage>)
      requires Valid()
      modifies router
      ensures Valid()
      ensures var ev := RegisterDocKey(conn, doc, epoch, publicKey, proof, rotationProof);
        && State() == Step(old(State()), router.config, ev)
        && (RegistrationProven(old(State()), router.config, ev) ==> replies == [])
        && (!RegistrationProven(old(State()), router.config, ev) && conn in old(users) && |doc.utf8| <= 256 ==>
              replies == [Error(Unauthorized)])
      ensures conn !in old(users) ==> replies == [Error(NotIdentified)]
      ensures conn in old(users) && |doc.utf8| > 256 ==> replies == [Error(LimitExceeded)]
    {
      hide RegistrationProven;
      ProvenExact(State(), router.config, RegisterDocKey(conn, doc, epoch, publicKey, proof, rotationProof));
      if conn !in users {
        return [Error(NotIdentified)];
      }
      if !ValidDocId(doc) {
        return [Error(LimitExceeded)];
      }
      if |publicKey| != 32 {
        return [Error(Unauthorized)];
      }
      if VerifyDocKeyProof(doc, epoch, publicKey, proof).Err? {
        return [Error(Unauthorized)];
      }
      if doc in router.anchors
        && VerifyRotation(doc, epoch, publicKey, router.anchors[doc].verifyingKey, rotationProof).Err?
      {
        return [Error(Unauthorized)];
      }
      var accepted := router.SetAnchor(doc, epoch, publicKey);
      replies := if accepted then [] else [Error(Unauthorized)];
    }

    method HandleUnsubscribe(conn: ConnId, doc: DocId) returns (replies: seq<ServerMessage>)
      requires Valid()
      modifies router
      ensures Valid()
      ensures State() == Step(old(State()), router.config, UnsubscribeFrom(conn, doc))
      ensures replies == [if conn in users then Unsubscribed(doc) else Error(NotIdentified)]
    {
      if conn !in users {
        return [Error(NotIdentified)];
      }
      router.Unsubscribe(users[conn], doc);
      replies := [Unsubscribed(doc)];
    }

    method HandleYrsUpdate(conn: ConnId, doc: DocId, encrypted: seq<byte>, epoch: u64, full: set<ConnId>)
      returns (replies: seq<ServerMessage>, ghost choice: RouteChoice)
      requires Valid()
      modifies router, router.offline
      ensures Valid()
      ensures var ev := SendUpdate(conn, doc, encrypted, epoch, choice);
        && Legal(old(State()), router.config, ev)
        && State() == Step(old(State()), router.config, ev)
      ensures MayPublish(old(State()), router.config, conn, doc) ==> replies == []
      ensures conn !in old(users) ==> replies == [Error(NotIdentified)]
      ensures conn in old(users) && |doc.utf8| > 256 ==> replies == [Error(LimitExceeded)]
      ensures conn in old(users) && |doc.utf8| <= 256 && !MayPublish(old(State()), router.config, conn, doc) ==>
        replies == [Error(Unauthorized)]
    {
      hide RouterModel.RouteMessage, ValidChoice, ToEnqueue, RouterModel.EnqueueAll;
      RoutedExact(State(), router.config, SendUpdate(conn, doc, encrypted, epoch, RouteChoice([], full, [])));
      choice := RouteChoice([], full, []);
      if conn !in users {
        return [Error(NotIdentified)], choice;
      }
      if !ValidDocId(doc) {
        return [Error(LimitExceeded)], choice;
      }
      if !router.PublisherAuthorized(users[conn], doc) {
        return [Error(Unauthorized)], choice;
      }
      replies := [];
      var sent;
      sent, choice := router.RouteMessage(doc, users[conn], YrsUpdate(doc, users[conn], encrypted, epoch), full);
    }

    method HandleMlsHandshake(conn: ConnId, doc: DocId, payload: seq<byte>, messageType: MlsMessageType, full: set<ConnId>)
      returns (replies: seq<ServerMessage>, ghost choice: RouteChoice)
      requires Valid()
      modifies router, router.offline
      ensures Valid()
      ensures var ev := SendHandshake(conn, doc, payload, messageType, choice);
        && Legal(old(State()), router.config, ev)
        && State() == Step(old(State()), router.config, ev)
      ensures conn !in old(users) ==> replies == [Error(NotIdentified)]
      ensures conn in old(users) ==>
        replies == if |doc.utf8| > 256 || |payload| > 262144 then [Error(LimitExceeded)] else []
    {
      hide RouterModel.RouteMessage, ValidChoice, ToEnqueue, RouterModel.EnqueueAll;
      choice := RouteChoice([], full, []);
      if conn !in users {
        return [Error(NotIdentified)], choice;
      }
      if !ValidDocId(doc) || |payload| > MAX_HANDSHAKE_PAYLOAD {
        return [Error(LimitExceeded)], choice;
      }
      replies := [];
      var sent;
      sent, choice := router.RouteMessage(doc, users[conn], MlsHandshake(doc, users[conn], payload, messageType), full);
    }

    /** The end of a connection: compare-and-remove its own session, keep subscriptions. */
    method CloseConnection(conn: ConnId)
      requires Valid()
      modifies this, router
      ensures Valid()
      ensures State() == Step(old(State()), router.config, Teardown(conn))
    {
      if conn in users {
        router.UnregisterClient(users[conn], conn);
        users := users - {conn};
      }
    }
  }
}
