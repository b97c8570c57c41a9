/**
 The relay server of crates/collab-relay/src/relay.rs as a state machine: one event per handler
 call, each handler one atomic step. `users` holds the identity each connection last established.
 */
module RelayModel {
  import opened Common
  import opened Protocol
  import opened QueueModel
  import opened Capability
  import opened RouterModel

  datatype Relay = Relay(router: Router, users: map<ConnId, UserId>)

  const EMPTY_RELAY := Relay(EMPTY_ROUTER, map[])

  const MAX_ID_LEN := 256
  const MAX_HANDSHAKE_PAYLOAD := 256 * 1024

  datatype Event =
    | Identify(conn: ConnId, user: UserId, authenticated: bool, notified: bool)
    | SubscribeTo(conn: ConnId, doc: DocId, capability: Option<SubscribeCapability>, now: u64)
    | RegisterDocKey(conn: ConnId, doc: DocId, epoch: u64, publicKey: seq<byte>, proof: Signature, rotationProof: Signature)
    | UnsubscribeFrom(conn: ConnId, doc: DocId)
    | SendUpdate(conn: ConnId, doc: DocId, encrypted: seq<byte>, epoch: u64, choice: RouteChoice)
    | SendHandshake(conn: ConnId, doc: DocId, payload: seq<byte>, messageType: MlsMessageType, choice: RouteChoice)
    | Teardown(conn: ConnId)

  predicate ValidDocId(doc: DocId) {
    |doc.utf8| <= MAX_ID_LEN
  }

  // ---------------------------------------------------------------- identify

  /** One delivery per drained message, in order. */
  function HandOver(user: UserId, conn: ConnId, drained: seq<ServerMessage>): seq<Delivery> {
    seq(|drained|, i requires 0 <= i < |drained| => Delivery(user, conn, drained[i]))
  }

  function Identified(r: Relay, conn: ConnId, user: UserId, notified: bool): Relay {
    var registered := RegisterClient(r.router, user, conn, true, notified).0;
    var (offline, drained) := Drain(registered.offline, user);
    Relay(registered.(offline := offline, outbox := registered.outbox + HandOver(user, conn, drained)), r.users[conn := user])
  }

  predicate AcceptsIdentify(user: UserId, authenticated: bool) {
    authenticated && |user.utf8| <= MAX_ID_LEN
  }

  // ---------------------------------------------------------------- subscribe

  /** `authorize_subscribe`: `Err` rejects, `Ok(None)` is handshake-only, `Ok(Some(e))` content at `e`. */
  function AuthorizeSubscribe(r: Router, user: UserId, doc: DocId, capability: Option<SubscribeCapability>, now: u64)
    : Result<Option<u64>, ErrorCode>
  {
    if capability.None? then Ok(None)
    else if doc !in r.anchors then Err(Unauthorized)
    else
      var anchor := r.anchors[doc];
      if VerifyCapability(capability.value, anchor.verifyingKey, user, doc, anchor.epoch, now).Err? then Err(Unauthorized)
      else Ok(Some(anchor.epoch))
  }

  /** The authorization a `SubscribeTo` event is granted, if the subscription itself is accepted. */
  function Granted(r: Relay, cfg: Config, ev: Event): Option<Option<u64>>
    requires ev.SubscribeTo?
  {
    if ev.conn !in r.users || !ValidDocId(ev.doc) then None
    else
      var auth := if cfg.requireSubscribeAuthz
        then AuthorizeSubscribe(r.router, r.users[ev.conn], ev.doc, ev.capability, ev.now) else Ok(None);
      if auth.Ok? && Subscribe(r.router, cfg, r.users[ev.conn], ev.doc, auth.value).1 then Some(auth.value) else None
  }

  // ---------------------------------------------------------------- register

  predicate AcceptsDocKey(r: Relay, cfg: Config, ev: Event)
    requires ev.RegisterDocKey?
  {
    && ev.conn in r.users
    && ValidDocId(ev.doc)
    && |ev.publicKey| == 32
    && VerifyDocKeyProof(ev.doc, ev.epoch, ev.publicKey, ev.proof).Ok?
    && (ev.doc in r.router.anchors ==>
          VerifyRotation(ev.doc, ev.epoch, ev.publicKey, r.router.anchors[ev.doc].verifyingKey, ev.rotationProof).Ok?)
    && AcceptsAnchor(r.router, cfg, ev.doc, ev.epoch)
  }

  // ---------------------------------------------------------------- publish

  /** The message an accepted publishing event routes. */
  function Routed(r: Relay, cfg: Config, ev: Event): Option<ServerMessage> {
    match ev
    case SendUpdate(conn, doc, encrypted, epoch, _) =>
      if conn in r.users && ValidDocId(doc) && IsContentAuthorized(r.router, cfg, r.users[conn], doc) then
        Some(YrsUpdate(doc, r.users[conn], encrypted, epoch))
      else None
    case SendHandshake(conn, doc, payload, messageType, _) =>
      if conn in r.users && ValidDocId(doc) && |payload| <= MAX_HANDSHAKE_PAYLOAD then
        Some(MlsHandshake(doc, r.users[conn], payload, messageType))
      else None
    case _ => None
  }

  // ---------------------------------------------------------------- the machine

  /** Events the environment can produce: a routing choice, where one is used, must be legal. */
  ghost predicate Legal(r: Relay, cfg: Config, ev: Event) {
    Routed(r, cfg, ev).Some? ==> ValidChoice(r.router, cfg, ev.doc, r.users[ev.conn], Routed(r, cfg, ev).value, ev.choice)
  }

  function Step(r: Relay, cfg: Config, ev: Event): Relay {
    match ev
    case Identify(conn, user, authenticated, notified) =>
      if AcceptsIdentify(user, authenticated) then Identified(r, conn, user, notified) else r
    case SubscribeTo(conn, doc, capability, now) =>
      if conn !in r.users || !ValidDocId(doc) then r
      else
        var auth := if cfg.requireSubscribeAuthz
          then AuthorizeSubscribe(r.router, r.users[conn], doc, capability, now) else Ok(None);
        if auth.Err? then r
        else r.(router := Subscribe(r.router, cfg, r.users[conn], doc, auth.value).0)
    case RegisterDocKey(conn, doc, epoch, publicKey, proof, rotationProof) =>
      if AcceptsDocKey(r, cfg, ev) then r.(router := SetAnchor(r.router, cfg, doc, epoch, publicKey).0) else r
    case UnsubscribeFrom(conn, doc) =>
      if conn in r.users then r.(router := Unsubscribe(r.router, r.users[conn], doc)) else r
    case SendUpdate(conn, doc, encrypted, epoch, choice) => Publish(r, cfg, ev)
    case SendHandshake(conn, doc, payload, messageType, choice) => Publish(r, cfg, ev)
    case Teardown(conn) =>
      if conn in r.users then
        Relay(UnregisterClient(r.router, r.users[conn], conn), r.users - {conn})
      else r
  }

  function Publish(r: Relay, cfg: Config, ev: Event): Relay
    requires ev.SendUpdate? || ev.SendHandshake?
  {
    var message := Routed(r, cfg, ev);
    // The second conjunct holds for every legal choice.
    if message.Some? && |ev.choice.victims| == |ToEnqueue(r.router, ev.choice)| then
      r.(router := RouteMessage(r.router, cfg, message.value, ev.choice))
    else r
  }

  /** The relay after a run of events from the empty one. */
  function Run(cfg: Config, evs: seq<Event>): Relay {
    if evs == [] then EMPTY_RELAY else Step(Run(cfg, evs[..|evs| - 1]), cfg, evs[|evs| - 1])
  }

  ghost predicate ValidRun(cfg: Config, evs: seq<Event>) {
    evs == [] || (ValidRun(cfg, evs[..|evs| - 1]) && Legal(Run(cfg, evs[..|evs| - 1]), cfg, evs[|evs| - 1]))
  }
}
