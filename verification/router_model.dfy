/**
 The message router of crates/collab-relay/src/routing.rs as a value. Each function is one router
 operation; what the environment decides (which channels are full, the order a hash map iterates
 in, whom byte eviction picks) is passed in as a `RouteChoice`.
 */
module RouterModel {
  import opened Common
  import opened Sequences
  import opened Protocol
  import opened QueueModel
  import opened Capability

  datatype DocAnchor = DocAnchor(epoch: u64, verifyingKey: PublicKey)

  /** A message put on a client's channel by the router. */
  datatype Delivery = Delivery(user: UserId, conn: ConnId, message: ServerMessage)

  /** Per document: who is subscribed, and the anchor epoch each was content-authorized at, if any. */
  type Subscriptions = map<DocId, map<UserId, Option<u64>>>

  datatype Router = Router(
    subscriptions: Subscriptions,
    anchors: map<DocId, DocAnchor>,
    clients: map<UserId, ConnId>,
    offline: Store,
    outbox: seq<Delivery>,
    closed: set<ConnId>)

  datatype Config = Config(limits: Limits, maxDocuments: nat, maxSubscribersPerDoc: nat, requireSubscribeAuthz: bool)

  const MAX_INITIAL_ANCHOR_EPOCH: u64 := 1_000_000

  const EMPTY_ROUTER := Router(map[], map[], map[], EMPTY, [], {})

  // ---------------------------------------------------------------- anchors

  predicate AcceptsAnchor(r: Router, cfg: Config, doc: DocId, epoch: u64) {
    if doc in r.anchors then epoch > r.anchors[doc].epoch
    else |r.anchors| < cfg.maxDocuments && epoch <= MAX_INITIAL_ANCHOR_EPOCH
  }

  /** `set_anchor`. */
  function SetAnchor(r: Router, cfg: Config, doc: DocId, epoch: u64, key: PublicKey): (res: (Router, bool))
    ensures res.0 == r.(anchors := res.0.anchors)
  {
    if AcceptsAnchor(r, cfg, doc, epoch) then (r.(anchors := r.anchors[doc := DocAnchor(epoch, key)]), true)
    else (r, false)
  }

  // ---------------------------------------------------------------- sessions

  /** `register_client`; `notified` says whether the replaced session's channel took the notice. */
  function RegisterClient(r: Router, user: UserId, conn: ConnId, allowTakeover: bool, notified: bool): (res: (Router, bool))
    ensures res.0 == r.(clients := res.0.clients, outbox := res.0.outbox, closed := res.0.closed)
    ensures res.1 ==> user in res.0.clients && res.0.clients[user] == conn
  {
    if user in r.clients && r.clients[user] != conn then
      if !allowTakeover then (r, false)
      else
        var notice := Delivery(user, r.clients[user], Error(SessionReplaced));
        (r.(clients := r.clients[user := conn],
            outbox := if notified then r.outbox + [notice] else r.outbox,
            closed := r.closed + {r.clients[user]}), true)
    else (r.(clients := r.clients[user := conn]), true)
  }

  /** `unregister_client`: compare-and-remove. */
  function UnregisterClient(r: Router, user: UserId, conn: ConnId): (r': Router)
    ensures r' == r.(clients := r'.clients)
  {
    if user in r.clients && r.clients[user] == conn then r.(clients := r.clients - {user}) else r
  }

  // ---------------------------------------------------------------- subscriptions

  predicate IsSubscribed(subs: Subscriptions, user: UserId, doc: DocId) {
    doc in subs && user in subs[doc]
  }

  /** `subscribe`. */
  function Subscribe(r: Router, cfg: Config, user: UserId, doc: DocId, auth: Option<u64>): (res: (Router, bool))
    ensures res.0 == r.(subscriptions := res.0.subscriptions)
  {
    var subs := r.subscriptions;
    if IsSubscribed(subs, user, doc) then (r.(subscriptions := subs[doc := subs[doc][user := auth]]), true)
    else if doc !in subs && |subs| >= cfg.maxDocuments then (r, false)
    else
      var members := if doc in subs then subs[doc] else map[];
      if |members| >= cfg.maxSubscribersPerDoc then (r.(subscriptions := subs[doc := members]), false)
      else (r.(subscriptions := subs[doc := members[user := auth]]), true)
  }

  /** `unsubscribe`. */
  function Unsubscribe(r: Router, user: UserId, doc: DocId): (r': Router)
    ensures r' == r.(subscriptions := r'.subscriptions)
  {
    var subs := r.subscriptions;
    if doc !in subs then r
    else
      var members := subs[doc] - {user};
      r.(subscriptions := if members == map[] then subs - {doc} else subs[doc := members])
  }

  /** `drop_subscriptions`. */
  function DropSubscriptions(subs: Subscriptions, gone: set<UserId>): Subscriptions {
    map d | d in subs && subs[d] - gone != map[] :: subs[d] - gone
  }

  // ---------------------------------------------------------------- routing

  /** `is_content_authorized`: may `user` publish content to `doc`? */
  predicate IsContentAuthorized(r: Router, cfg: Config, user: UserId, doc: DocId) {
    cfg.requireSubscribeAuthz ==>
      && doc in r.anchors
      && IsSubscribed(r.subscriptions, user, doc)
      && r.subscriptions[doc][user] == Some(r.anchors[doc].epoch)
  }

  /** Whether `user` is among the `recipients` of `message` on `doc`. */
  predicate IsRecipient(r: Router, cfg: Config, doc: DocId, from: UserId, message: ServerMessage, user: UserId) {
    && IsSubscribed(r.subscriptions, user, doc)
    && user != from
    && (cfg.requireSubscribeAuthz && message.YrsUpdate? ==>
          doc in r.anchors && r.subscriptions[doc][user] == Some(r.anchors[doc].epoch))
  }

  datatype RouteChoice = RouteChoice(order: seq<UserId>, full: set<ConnId>, victims: seq<seq<UserId>>)

  /** How `fan_out` classifies one recipient. */
  datatype Fate = Sent | Offline | Slow

  function FateOf(clients: map<UserId, ConnId>, full: set<ConnId>, user: UserId): Fate {
    if user !in clients then Offline else if clients[user] in full then Slow else Sent
  }

  /** The recipients with one fate, in fan-out order. */
  function WithFate(clients: map<UserId, ConnId>, full: set<ConnId>, order: seq<UserId>, fate: Fate): seq<UserId> {
    if order == [] then []
    else
      WithFate(clients, full, order[..|order| - 1], fate)
        + if FateOf(clients, full, order[|order| - 1]) == fate then [order[|order| - 1]] else []
  }

  function Deliveries(clients: map<UserId, ConnId>, users: seq<UserId>, message: ServerMessage): seq<Delivery>
    requires forall u :: u in users ==> u in clients
  {
    seq(|users|, i requires 0 <= i < |users| => Delivery(users[i], clients[users[i]], message))
  }

  lemma {:induction false} WithFateFacts(clients: map<UserId, ConnId>, full: set<ConnId>, order: seq<UserId>, fate: Fate)
    ensures forall u :: u in WithFate(clients, full, order, fate) <==> u in order && FateOf(clients, full, u) == fate
    ensures Distinct(order) ==> Distinct(WithFate(clients, full, order, fate))
  {
    if order != [] {
      var front, last := order[..|order| - 1], order[|order| - 1];
      assert order == front + [last];
      WithFateFacts(clients, full, front, fate);
    }
  }

  /** `disconnect_slow`: compare-and-remove every session that was classified as slow. */
  function DisconnectSlow(r: Router, slow: seq<(UserId, ConnId)>): Router {
    if slow == [] then r
    else
      var before := DisconnectSlow(r, slow[..|slow| - 1]);
      var (user, conn) := slow[|slow| - 1];
      if user in before.clients && before.clients[user] == conn then
        before.(clients := before.clients - {user}, closed := before.closed + {conn})
      else before
  }

  /** Enqueue `m` for each user in turn, collecting evicted users. */
  function EnqueueAll(s: Store, lim: Limits, users: seq<UserId>, m: ServerMessage, victims: seq<seq<UserId>>)
    : (Store, set<UserId>)
    requires |victims| == |users|
  {
    if users == [] then (s, {})
    else
      var n := |users| - 1;
      var (before, gone) := EnqueueAll(s, lim, users[..n], m, victims[..n]);
      var (after, out) := Enqueue(before, lim, users[n], m, victims[n]);
      (after, if out.evictedUser.Some? then gone + {out.evictedUser.value} else gone)
  }

  ghost predicate ValidEnqueues(s: Store, lim: Limits, users: seq<UserId>, m: ServerMessage, victims: seq<seq<UserId>>) {
    && |victims| == |users|
    && (users == [] ||
        var n := |users| - 1;
        && ValidEnqueues(s, lim, users[..n], m, victims[..n])
        && ValidEnqueue(EnqueueAll(s, lim, users[..n], m, victims[..n]).0, lim, users[n], m, victims[n]))
  }

  /** The recipients that are handed to the offline queue, in order. */
  function ToEnqueue(r: Router, choice: RouteChoice): seq<UserId> {
    WithFate(r.clients, choice.full, choice.order, Offline) + WithFate(r.clients, choice.full, choice.order, Slow)
  }

  function SlowSessions(clients: map<UserId, ConnId>, users: seq<UserId>): seq<(UserId, ConnId)>
    requires forall u :: u in users ==> u in clients
  {
    seq(|users|, i requires 0 <= i < |users| => (users[i], clients[users[i]]))
  }

  /** The choices the code can make: recipients in some order, each once, and legal evictions. */
  ghost predicate ValidChoice(r: Router, cfg: Config, doc: DocId, from: UserId, message: ServerMessage, choice: RouteChoice) {
    && Distinct(choice.order)
    && (forall u :: u in choice.order <==> IsRecipient(r, cfg, doc, from, message, u))
    && ValidEnqueues(r.offline, cfg.limits, ToEnqueue(r, choice), message, choice.victims)
  }

  /** What `fan_out` puts on the wire. */
  function Added(r: Router, message: ServerMessage, choice: RouteChoice): seq<Delivery> {
    WithFateFacts(r.clients, choice.full, choice.order, Sent);
    Deliveries(r.clients, WithFate(r.clients, choice.full, choice.order, Sent), message)
  }

  /** The sessions `fan_out` found too slow. */
  function SlowMarks(r: Router, choice: RouteChoice): seq<(UserId, ConnId)> {
    WithFateFacts(r.clients, choice.full, choice.order, Slow);
    SlowSessions(r.clients, WithFate(r.clients, choice.full, choice.order, Slow))
  }

  /** `route_message`. */
  function RouteMessage(r: Router, cfg: Config, message: ServerMessage, choice: RouteChoice): Router
    requires |choice.victims| == |ToEnqueue(r, choice)|
  {
    var r1 := r.(outbox := r.outbox + Added(r, message, choice));
    var r2 := DisconnectSlow(r1, SlowMarks(r, choice));
    var (offline, gone) := EnqueueAll(r.offline, cfg.limits, ToEnqueue(r, choice), message, choice.victims);
    r2.(offline := offline,
        subscriptions := if gone == {} then r.subscriptions else DropSubscriptions(r.subscriptions, gone))
  }
}
