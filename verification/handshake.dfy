/**
 The owner's side of the join handshake (`applyGroupHandshake` and `bootstrapGroup` in
 plugins/obsidian-ee/src/collab-client.ts) over an in-order lossless link to the relay: for each
 admission the owner sends the rotation, its own fresh capability, the commit, the Welcome, in that
 order. Other clients' traffic is interleaved arbitrarily, except that only the owner registers
 keys for its document and speaks in its name, and that its channel takes what the relay sends it.
 */
module Handshake {
  import opened Common
  import opened Protocol
  import opened QueueModel
  import opened Capability
  import opened RouterModel
  import opened RelayModel
  import opened MlsGroup
  import RelayProperties
  import RouterProperties

  /** One frame on the owner's link; `epoch` is the group epoch it belongs to. */
  datatype Frame =
    | Register(epoch: u64)
    | Present(epoch: u64, expiry: u64)
    | CommitOut(epoch: u64, payload: seq<byte>)
    | WelcomeOut(epoch: u64, payload: seq<byte>)

  datatype Session = Session(owner: UserId, conn: ConnId, doc: DocId, exporter: u64 -> PublicKey)

  /** The whole system: relay, the owner's group epoch, and what is still on the owner's link. */
  datatype System = System(relay: Relay, epoch: u64, link: seq<Frame>)

  /** What delivering a frame makes the relay handle. */
  function EventOf(ses: Session, f: Frame, now: u64, choice: RouteChoice): Event {
    match f
    case Register(e) =>
      if e == 0 then
        RegisterDocKey(ses.conn, ses.doc, 0, ses.exporter(0),
          Signed(ses.exporter(0), RegisterProofBytes(ses.doc, 0)), Unsigned(0))
      else
        var rotation := RotationTo(ses.exporter, ses.doc, e);
        RegisterDocKey(ses.conn, ses.doc, e, rotation.publicKey, rotation.proof, rotation.rotationProof)
    case Present(e, expiry) =>
      SubscribeTo(ses.conn, ses.doc, Some(SignCapability(ses.exporter(e), ses.owner, ses.doc, e, expiry)), now)
    case CommitOut(_, payload) => SendHandshake(ses.conn, ses.doc, payload, MlsMessageType.Commit, choice)
    case WelcomeOut(_, payload) => SendHandshake(ses.conn, ses.doc, payload, MlsMessageType.Welcome, choice)
  }

  datatype Action =
    | Invite(expiry: u64, commit: seq<byte>, welcome: seq<byte>)
    | Renew(expiry: u64)
    | Deliver(now: u64, choice: RouteChoice)
    | Foreign(ev: Event)

  function InviteFrames(e: u64, expiry: u64, commit: seq<byte>, welcome: seq<byte>): seq<Frame> {
    [Register(e), Present(e, expiry), CommitOut(e, commit), WelcomeOut(e, welcome)]
  }

  /**
   An admission queues four frames, in this order: the registration of the new epoch, the owner's
   capability, the commit and the Welcome, the last two as handshake frames of their own types.
   */
  lemma InviteSends(ses: Session, e: u64, expiry: u64, commit: seq<byte>, welcome: seq<byte>, now: u64, choice: RouteChoice)
    requires e > 0
    ensures var f := InviteFrames(e, expiry, commit, welcome);
      && |f| == 4
      && EventOf(ses, f[0], now, choice).RegisterDocKey?
      && EventOf(ses, f[0], now, choice).doc == ses.doc && EventOf(ses, f[0], now, choice).epoch == e
      && EventOf(ses, f[0], now, choice).publicKey == ses.exporter(e)
      && EventOf(ses, f[1], now, choice)
           == SubscribeTo(ses.conn, ses.doc, Some(SignCapability(ses.exporter(e), ses.owner, ses.doc, e, expiry)), now)
      && EventOf(ses, f[2], now, choice) == SendHandshake(ses.conn, ses.doc, commit, MlsMessageType.Commit, choice)
      && EventOf(ses, f[3], now, choice) == SendHandshake(ses.conn, ses.doc, welcome, MlsMessageType.Welcome, choice)
  {
  }

  function Next(s: System, cfg: Config, ses: Session, act: Action): System {
    match act
    case Invite(expiry, commit, welcome) =>
      if s.epoch == U64_LIMIT - 1 then s
      else s.(epoch := s.epoch + 1, link := s.link + InviteFrames(s.epoch + 1, expiry, commit, welcome))
    case Renew(expiry) => s.(link := s.link + [Present(s.epoch, expiry)])
    case Deliver(now, choice) =>
      if s.link == [] then s
      else s.(relay := Step(s.relay, cfg, EventOf(ses, s.link[0], now, choice)), link := s.link[1..])
    case Foreign(ev) => s.(relay := Step(s.relay, cfg, ev))
  }

  /**
   Which actions can happen: presentations arrive unexpired; nobody else registers for the document,
   speaks for the owner or takes the last room for an anchor; and the owner's channel takes what
   the relay sends it.
   */
  ghost predicate Allowed(s: System, cfg: Config, ses: Session, act: Action) {
    match act
    case Deliver(now, choice) =>
      s.link != [] ==>
        && Legal(s.relay, cfg, EventOf(ses, s.link[0], now, choice))
        && (s.link[0].Present? ==> now <= s.link[0].expiry)
    case Foreign(ev) =>
      && StrangerEvent(s, cfg, ses, ev)
      && RelayProperties.ChannelTakes(s.relay, cfg, ev, ses.owner)
    case _ => true
  }

  /** Anything another connection can do, but for the document's keys and in the owner's name. */
  ghost predicate StrangerEvent(s: System, cfg: Config, ses: Session, ev: Event) {
    && Legal(s.relay, cfg, ev)
    && ev.conn != ses.conn
    && !(ev.RegisterDocKey? && ev.doc == ses.doc)
    && !(ev.Identify? && ev.user == ses.owner)
    && !((ev.SubscribeTo? || ev.UnsubscribeFrom?) && ev.conn in s.relay.users
         && s.relay.users[ev.conn] == ses.owner && ev.doc == ses.doc)
    && (ev.RegisterDocKey? && AcceptsDocKey(s.relay, cfg, ev) ==> LeavesRoom(s.relay, cfg, ses, ev.doc))
  }

  /** The document has its anchor, or an anchor for `doc` would not be the last one there is room for. */
  predicate LeavesRoom(r: Relay, cfg: Config, ses: Session, doc: DocId) {
    ses.doc in r.router.anchors || doc in r.router.anchors || |r.router.anchors| + 1 < cfg.maxDocuments
  }

  ghost predicate RoomForAnchor(r: Relay, cfg: Config, ses: Session) {
    ses.doc in r.router.anchors || |r.router.anchors| < cfg.maxDocuments
  }

  /** Anchor epoch and owner grant as the relay stores them. */
  function AnchorEpoch(r: Relay, doc: DocId): Option<u64> {
    if doc in r.router.anchors then Some(r.router.anchors[doc].epoch) else None
  }

  function OwnerGrant(r: Relay, ses: Session): Option<u64> {
    if IsSubscribed(r.router.subscriptions, ses.owner, ses.doc) then r.router.subscriptions[ses.doc][ses.owner] else None
  }

  /**
   Processing `link` with the anchor at `a` and the owner granted at `g` keeps the promised order:
   registrations go up by one, presentations match the anchor, commits and Welcomes come after
   both, and everything ends at `last`.
   */
  ghost predicate InOrder(link: seq<Frame>, a: Option<u64>, g: Option<u64>, last: u64) {
    if link == [] then a == g == Some(last)
    else
      match link[0]
      case Register(e) => (if a.None? then e == 0 else e == a.value + 1) && InOrder(link[1..], Some(e), g, last)
      case Present(e, _) => a == Some(e) && InOrder(link[1..], a, Some(e), last)
      case CommitOut(e, _) => a == g == Some(e) && InOrder(link[1..], a, g, last)
      case WelcomeOut(e, _) => a == g == Some(e) && InOrder(link[1..], a, g, last)
  }

  lemma {:induction false} InOrderAppend(link: seq<Frame>, a: Option<u64>, g: Option<u64>, last: u64, more: seq<Frame>, last': u64)
    requires InOrder(link, a, g, last) && InOrder(more, Some(last), Some(last), last')
    ensures InOrder(link + more, a, g, last')
  {
    if link == [] {
      assert link + more == more;
    } else {
      assert (link + more)[1..] == link[1..] + more;
      var a' := if link[0].Register? then Some(link[0].epoch) else a;
      var g' := if link[0].Present? then Some(link[0].epoch) else g;
      InOrderAppend(link[1..], a', g', last, more, last');
    }
  }

  lemma InviteInOrder(e: u64, expiry: u64, commit: seq<byte>, welcome: seq<byte>)
    requires e < U64_LIMIT - 1
    ensures InOrder(InviteFrames(e + 1, expiry, commit, welcome), Some(e), Some(e), e + 1)
  {
    var p, c, w := Present(e + 1, expiry), CommitOut(e + 1, commit), WelcomeOut(e + 1, welcome);
    assert InviteFrames(e + 1, expiry, commit, welcome)[1..] == [p, c, w];
    assert [p, c, w][1..] == [c, w] && [c, w][1..] == [w] && [w][1..] == [];
    assert InOrder([w], Some(e + 1), Some(e + 1), e + 1);
    assert InOrder([c, w], Some(e + 1), Some(e + 1), e + 1);
    assert InOrder([p, c, w], Some(e + 1), Some(e), e + 1);
  }

  /** The owner's connection is identified as the owner and is the owner's live session. */
  ghost predicate OwnerLive(r: Relay, ses: Session) {
    && ses.conn in r.users && r.users[ses.conn] == ses.owner
    && ses.owner in r.router.clients && r.router.clients[ses.owner] == ses.conn
  }

  /** The invariant of every run: the link keeps its promise from whatever the relay stores now. */
  ghost predicate Coherent(s: System, cfg: Config, ses: Session) {
    && cfg.requireSubscribeAuthz && ValidDocId(ses.doc)
    && RelayProperties.QueueSound(s.relay, cfg) && OwnerLive(s.relay, ses)
    && IsSubscribed(s.relay.router.subscriptions, ses.owner, ses.doc)
    && RoomForAnchor(s.relay, cfg, ses)
    && (ses.doc in s.relay.router.anchors ==>
          s.relay.router.anchors[ses.doc].verifyingKey == ses.exporter(s.relay.router.anchors[ses.doc].epoch))
    && InOrder(s.link, AnchorEpoch(s.relay, ses.doc), OwnerGrant(s.relay, ses), s.epoch)
  }

  /** Right after bootstrap: subscribed for the handshake only, no anchor yet, both frames on the link. */
  ghost predicate Bootstrapped(s: System, cfg: Config, ses: Session) {
    && cfg.requireSubscribeAuthz && ValidDocId(ses.doc)
    && RelayProperties.QueueSound(s.relay, cfg) && OwnerLive(s.relay, ses)
    && IsSubscribed(s.relay.router.subscriptions, ses.owner, ses.doc)
    && ses.doc !in s.relay.router.anchors && |s.relay.router.anchors| < cfg.maxDocuments
    && s.epoch == 0 && exists x :: s.link == [Register(0), Present(0, x)]
  }

  lemma BootstrappedCoherent(s: System, cfg: Config, ses: Session)
    requires Bootstrapped(s, cfg, ses)
    ensures Coherent(s, cfg, ses)
  {
    var x :| s.link == [Register(0), Present(0, x)];
    assert s.link[1..] == [Present(0, x)];
    assert [Present(0, x)][1..] == [];
  }

  /** A foreign step leaves the owner's session, grant and anchor alone. */
  lemma ForeignKeeps(s: System, cfg: Config, ses: Session, ev: Event)
    requires Coherent(s, cfg, ses) && Allowed(s, cfg, ses, Foreign(ev))
    ensures Coherent(Next(s, cfg, ses, Foreign(ev)), cfg, ses)
  {
    hide Step, InOrder, Legal, RelayProperties.QueueSound, RelayProperties.ChannelTakes;
    RelayProperties.StepQueueSound(s.relay, cfg, ev);
    RelayProperties.StepAnchor(s.relay, cfg, ev, ses.doc);
    RelayProperties.LiveUserKeepsSubscriptions(s.relay, cfg, ev, ses.owner, ses.doc);
    RelayProperties.LiveUserKeepsSession(s.relay, cfg, ev, ses.owner);
    RelayProperties.StepSubscription(s.relay, cfg, ev, ses.owner, ses.doc);
    IdentityKept(s.relay, cfg, ev, ses.conn);
    RoomKept(s, cfg, ses, ev);
  }

  lemma RoomKept(s: System, cfg: Config, ses: Session, ev: Event)
    requires RoomForAnchor(s.relay, cfg, ses) && (ev.RegisterDocKey? && AcceptsDocKey(s.relay, cfg, ev) ==> LeavesRoom(s.relay, cfg, ses, ev.doc))
    ensures RoomForAnchor(Step(s.relay, cfg, ev), cfg, ses)
  {
    hide RouteMessage, EnqueueAll, ToEnqueue, Subscribe, Unsubscribe, AuthorizeSubscribe;
    var anchors := s.relay.router.anchors;
    var anchors' := Step(s.relay, cfg, ev).router.anchors;
    if ev.RegisterDocKey? {
      assert anchors' == anchors || anchors'.Keys == anchors.Keys + {ev.doc};
      RouterProperties.AddKey(anchors.Keys, ev.doc);
    } else {
      RelayProperties.OnlyRegistrationAnchors(s.relay, cfg, ev);
    }
  }

  lemma IdentityKept(r: Relay, cfg: Config, ev: Event, conn: ConnId)
    requires conn in r.users && (ev.conn != conn || !(ev.Identify? || ev.Teardown?))
    ensures conn in Step(r, cfg, ev).users && Step(r, cfg, ev).users[conn] == r.users[conn]
  {
    hide RouteMessage, Subscribe, Unsubscribe, SetAnchor, AcceptsDocKey, RegisterClient, UnregisterClient;
  }

  lemma DeliverKeeps(s: System, cfg: Config, ses: Session, now: u64, choice: RouteChoice)
    requires Coherent(s, cfg, ses) && Allowed(s, cfg, ses, Deliver(now, choice)) && s.link != []
    ensures Coherent(Next(s, cfg, ses, Deliver(now, choice)), cfg, ses)
  {
    hide Step, Legal, RouteMessage, VerifyCapability, VerifyRotation, VerifyDocKeyProof, RelayProperties.QueueSound;
    var f := s.link[0];
    var ev := EventOf(ses, f, now, choice);
    RelayProperties.StepQueueSound(s.relay, cfg, ev);
    RelayProperties.LiveUserKeepsSubscriptions(s.relay, cfg, ev, ses.owner, ses.doc);
    RelayProperties.LiveUserKeepsSession(s.relay, cfg, ev, ses.owner);
    RelayProperties.StepAnchor(s.relay, cfg, ev, ses.doc);
    IdentityKept(s.relay, cfg, ev, ses.conn);
    match f
    case Register(e) => RegisterDelivered(s, cfg, ses, now, choice);
    case Present(e, x) => PresentDelivered(s, cfg, ses, now, choice);
    case _ => RelayProperties.StepSubscription(s.relay, cfg, ev, ses.owner, ses.doc);
  }

  lemma RegisterDelivered(s: System, cfg: Config, ses: Session, now: u64, choice: RouteChoice)
    requires Coherent(s, cfg, ses) && s.link != [] && s.link[0].Register?
    ensures var r' := Step(s.relay, cfg, EventOf(ses, s.link[0], now, choice));
      && ses.doc in r'.router.anchors
      && r'.router.anchors[ses.doc] == DocAnchor(s.link[0].epoch, ses.exporter(s.link[0].epoch))
      && r'.router.subscriptions == s.relay.router.subscriptions
  {
    hide InOrder, RegisterProofBytes, RotationProofBytes;
    InOrderHead(s.link, AnchorEpoch(s.relay, ses.doc), OwnerGrant(s.relay, ses), s.epoch);
  }

  lemma InOrderHead(link: seq<Frame>, a: Option<u64>, g: Option<u64>, last: u64)
    requires link != [] && InOrder(link, a, g, last)
    ensures link[0].Register? ==> if a.None? then link[0].epoch == 0 else link[0].epoch == a.value + 1
    ensures link[0].Present? ==> a == Some(link[0].epoch)
    ensures link[0].CommitOut? || link[0].WelcomeOut? ==> a == g == Some(link[0].epoch)
  {
  }

  lemma PresentDelivered(s: System, cfg: Config, ses: Session, now: u64, choice: RouteChoice)
    requires Coherent(s, cfg, ses) && s.link != [] && s.link[0].Present? && now <= s.link[0].expiry
    ensures var r' := Step(s.relay, cfg, EventOf(ses, s.link[0], now, choice));
      && IsSubscribed(r'.router.subscriptions, ses.owner, ses.doc)
      && r'.router.subscriptions[ses.doc][ses.owner] == Some(s.link[0].epoch)
      && r'.router.anchors == s.relay.router.anchors
  {
    hide InOrder, SigningBytes;
    InOrderHead(s.link, AnchorEpoch(s.relay, ses.doc), OwnerGrant(s.relay, ses), s.epoch);
  }

  lemma NextCoherent(s: System, cfg: Config, ses: Session, act: Action)
    requires Coherent(s, cfg, ses) && Allowed(s, cfg, ses, act)
    ensures Coherent(Next(s, cfg, ses, act), cfg, ses)
  {
    hide Step, Legal;
    match act
    case Invite(expiry, commit, welcome) =>
      if s.epoch < U64_LIMIT - 1 {
        var more := InviteFrames(s.epoch + 1, expiry, commit, welcome);
        InviteInOrder(s.epoch, expiry, commit, welcome);
        InOrderAppend(s.link, AnchorEpoch(s.relay, ses.doc), OwnerGrant(s.relay, ses), s.epoch, more, s.epoch + 1);
      }
    case Renew(expiry) =>
      InOrderAppend(s.link, AnchorEpoch(s.relay, ses.doc), OwnerGrant(s.relay, ses), s.epoch, [Present(s.epoch, expiry)], s.epoch);
    case Deliver(now, choice) =>
      if s.link != [] {
        DeliverKeeps(s, cfg, ses, now, choice);
      }
    case Foreign(ev) => ForeignKeeps(s, cfg, ses, ev);
  }

  /** An invitation appends exactly one admission to the link; a delivery takes exactly the first frame. */
  lemma LinkMoves(s: System, cfg: Config, ses: Session, expiry: u64, commit: seq<byte>, welcome: seq<byte>,
                  now: u64, choice: RouteChoice, ev: Event)
    ensures s.epoch < U64_LIMIT - 1 ==>
      var s' := Next(s, cfg, ses, Invite(expiry, commit, welcome));
      && s'.epoch == s.epoch + 1 && s'.relay == s.relay && |s'.link| == |s.link| + 4
      && s'.link[..|s.link|] == s.link
      && s'.link[|s.link| + 2] == CommitOut(s'.epoch, commit) && s'.link[|s.link| + 3] == WelcomeOut(s'.epoch, welcome)
    ensures s.link != [] ==>
      var s' := Next(s, cfg, ses, Deliver(now, choice));
      && s'.link == s.link[1..] && s'.epoch == s.epoch
      && s'.relay == Step(s.relay, cfg, EventOf(ses, s.link[0], now, choice))
    ensures Next(s, cfg, ses, Foreign(ev)).link == s.link && Next(s, cfg, ses, Foreign(ev)).epoch == s.epoch
  {
    hide Step;
  }

  function After(s: System, cfg: Config, ses: Session, acts: seq<Action>): System {
    if acts == [] then s else Next(After(s, cfg, ses, acts[..|acts| - 1]), cfg, ses, acts[|acts| - 1])
  }

  ghost predicate AllowedRun(s: System, cfg: Config, ses: Session, acts: seq<Action>) {
    acts == [] ||
    (AllowedRun(s, cfg, ses, acts[..|acts| - 1])
     && Allowed(After(s, cfg, ses, acts[..|acts| - 1]), cfg, ses, acts[|acts| - 1]))
  }

  lemma {:induction false} RunCoherent(s: System, cfg: Config, ses: Session, acts: seq<Action>)
    requires Bootstrapped(s, cfg, ses) && AllowedRun(s, cfg, ses, acts)
    ensures Coherent(After(s, cfg, ses, acts), cfg, ses)
  {
    hide Next, Allowed, Coherent, Bootstrapped;
    if acts == [] {
      BootstrappedCoherent(s, cfg, ses);
    } else {
      RunCoherent(s, cfg, ses, acts[..|acts| - 1]);
      NextCoherent(After(s, cfg, ses, acts[..|acts| - 1]), cfg, ses, acts[|acts| - 1]);
    }
  }

  /**
   Whenever the relay is about to fan out a Welcome for epoch `e`, in any run from bootstrap, the
   document's anchor is the group's key of exactly epoch `e` and the owner is content-authorized at
   it. So a joiner's first capability verifies, and what the owner then sends is not refused.
   */
  lemma WelcomeNeverAheadOfAnchor(s: System, cfg: Config, ses: Session, acts: seq<Action>,
                                  joiner: UserId, expiry: u64, now: u64)
    requires Bootstrapped(s, cfg, ses) && AllowedRun(s, cfg, ses, acts)
    requires var link := After(s, cfg, ses, acts).link; link != [] && link[0].WelcomeOut?
    ensures var r, e := After(s, cfg, ses, acts).relay, After(s, cfg, ses, acts).link[0].epoch;
      && ses.doc in r.router.anchors && r.router.anchors[ses.doc] == DocAnchor(e, ses.exporter(e))
      && IsContentAuthorized(r.router, cfg, ses.owner, ses.doc)
      && (now <= expiry ==>
            AuthorizeSubscribe(r.router, joiner, ses.doc,
              Some(SignCapability(ses.exporter(e), joiner, ses.doc, e, expiry)), now) == Ok(Some(e)))
  {
    hide After, AllowedRun, Bootstrapped, InOrder, SigningBytes;
    RunCoherent(s, cfg, ses, acts);
    var s' := After(s, cfg, ses, acts);
    InOrderHead(s'.link, AnchorEpoch(s'.relay, ses.doc), OwnerGrant(s'.relay, ses), s'.epoch);
  }

  // ---------------------------------------------------------------- a full channel

  const OWNER := UserId([1])
  const GUEST := UserId([2])
  const OTHER := UserId([3])
  const DOC := DocId([])
  const TINY := Config(Limits(1, 1, 0, 0, 0, 0), 1, 3, true)

  /** One admission is on its way: only its Welcome is still on the owner's link. */
  function WelcomePending(exporter: u64 -> PublicKey): System {
    System(
      Relay(
        Router(
          map[DOC := map[OWNER := Some(1), GUEST := None, OTHER := None]],
          map[DOC := DocAnchor(1, exporter(1))],
          map[OWNER := 0, GUEST := 1, OTHER := 2],
          EMPTY, [], {}),
        map[0 := OWNER, 1 := GUEST, 2 := OTHER]),
      1, [WelcomeOut(1, [])])
  }

  /** The guest sends a handshake frame; the channels of the owner and of the third member are full. */
  const CROWDED := SendHandshake(1, DOC, [], MlsMessageType.KeyPackage, RouteChoice([OWNER, OTHER], {0, 2}, [[], []]))

  const FRAME := MlsHandshake(DOC, GUEST, [], MlsMessageType.KeyPackage)

  const ONE_QUEUED := Store(map[OWNER := [FRAME]], [OWNER])

  /** A frame without payload fits any byte budget and displaces nothing. */
  lemma FrameFits(s: Store, u: UserId)
    requires Total(s, Bytes(Handshake)) == 0 && Held(Queue(s, u), Bytes(Handshake)) == 0
    ensures !Refuses(TINY.limits, FRAME) && ValidEnqueue(s, TINY.limits, u, FRAME, [])
    ensures BytePhase(s, TINY.limits, u, FRAME, []) == s
    ensures Enqueue(s, TINY.limits, u, FRAME, []).1.evictedUser == Append(s, TINY.limits, u, FRAME).1
    ensures Enqueue(s, TINY.limits, u, FRAME, []).0 == TrimToCap(Append(s, TINY.limits, u, FRAME).0, u, 1)
  {
    hide Append, TrimToCap, Total;
    assert Trimmed(s, TINY.limits, u, FRAME) == s;
  }

  lemma OwnerQueued()
    ensures ValidEnqueue(EMPTY, TINY.limits, OWNER, FRAME, [])
    ensures Enqueue(EMPTY, TINY.limits, OWNER, FRAME, []).0 == ONE_QUEUED
    ensures Enqueue(EMPTY, TINY.limits, OWNER, FRAME, []).1.evictedUser == None
    ensures Total(ONE_QUEUED, Bytes(Handshake)) == 0
  {
    hide Enqueue;
    FrameFits(EMPTY, OWNER);
    assert [] + [OWNER] == [OWNER] && Append(EMPTY, TINY.limits, OWNER, FRAME) == (ONE_QUEUED, None);
    assert [OWNER][..0] == [] && [FRAME][..0] == [];
    assert Held([FRAME], Bytes(Handshake)) == 0;
    assert Sum(ONE_QUEUED, [OWNER], Bytes(Handshake)) == 0;
  }

  lemma OtherEvictsOwner()
    ensures ValidEnqueue(ONE_QUEUED, TINY.limits, OTHER, FRAME, [])
    ensures Enqueue(ONE_QUEUED, TINY.limits, OTHER, FRAME, []).1.evictedUser == Some(OWNER)
  {
    hide Enqueue, ValidEnqueue, Total;
    OwnerQueued();
    FrameFits(ONE_QUEUED, OTHER);
    assert |ONE_QUEUED.queues| == 1;
  }

  /** With room for one queued user, queueing the frame for the owner and then for the other evicts the owner. */
  lemma SecondEvictsFirst()
    ensures ValidEnqueues(EMPTY, TINY.limits, [OWNER, OTHER], FRAME, [[], []])
    ensures EnqueueAll(EMPTY, TINY.limits, [OWNER, OTHER], FRAME, [[], []]).1 == {OWNER}
  {
    hide Enqueue, ValidEnqueue;
    var none: seq<seq<UserId>> := [[], []];
    assert [OWNER, OTHER][..1] == [OWNER] && none[..1] == [[]] && [OWNER][..0] == [];
    OwnerQueued();
    OtherEvictsOwner();
    OwnerEnqueuedFirst();
    assert EnqueueAll(EMPTY, TINY.limits, [OWNER, OTHER], FRAME, none).1 == {} + {OWNER};
  }

  lemma OwnerEnqueuedFirst()
    ensures ValidEnqueues(EMPTY, TINY.limits, [OWNER], FRAME, [[]])
    ensures EnqueueAll(EMPTY, TINY.limits, [OWNER], FRAME, [[]]) == (ONE_QUEUED, {})
  {
    hide Enqueue, ValidEnqueue;
    var none: seq<seq<UserId>> := [[]];
    assert [OWNER][..0] == [] && none[..0] == [];
    OwnerQueued();
  }

  lemma PendingCoherent(exporter: u64 -> PublicKey)
    ensures Coherent(WelcomePending(exporter), TINY, Session(OWNER, 0, DOC, exporter))
  {
    var s := WelcomePending(exporter);
    assert s.link[1..] == [];
    assert WellFormed(EMPTY) && Bounded(EMPTY, TINY.limits);
  }

  lemma CrowdedFates(clients: map<UserId, ConnId>)
    requires OWNER in clients && clients[OWNER] == 0 && OTHER in clients && clients[OTHER] == 2
    ensures WithFate(clients, {0, 2}, [OWNER, OTHER], Offline) == []
    ensures WithFate(clients, {0, 2}, [OWNER, OTHER], Slow) == [OWNER, OTHER]
  {
    assert FateOf(clients, {0, 2}, OWNER) == Slow && FateOf(clients, {0, 2}, OTHER) == Slow;
    hide FateOf;
    assert [OWNER, OTHER][..1] == [OWNER] && [OWNER][..0] == [];
    assert WithFate(clients, {0, 2}, [OWNER], Offline) == [];
    assert WithFate(clients, {0, 2}, [OWNER], Slow) == [OWNER];
  }

  lemma CrowdedRecipients(exporter: u64 -> PublicKey, u: UserId)
    ensures u in [OWNER, OTHER] <==> IsRecipient(WelcomePending(exporter).relay.router, TINY, DOC, GUEST, FRAME, u)
  {
  }

  /** Both crowded recipients are slow, in this order, and the choice is a legal one. */
  lemma CrowdedChoice(exporter: u64 -> PublicKey)
    ensures var r := WelcomePending(exporter).relay.router;
      && ToEnqueue(r, CROWDED.choice) == [OWNER, OTHER]
      && ValidChoice(r, TINY, DOC, GUEST, FRAME, CROWDED.choice)
  {
    hide ValidEnqueues, IsRecipient, WithFate;
    var r, choice := WelcomePending(exporter).relay.router, CROWDED.choice;
    SecondEvictsFirst();
    CrowdedFates(r.clients);
    assert OWNER != OTHER;
    forall u
      ensures u in choice.order <==> IsRecipient(r, TINY, DOC, GUEST, FRAME, u)
    {
      CrowdedRecipients(exporter, u);
    }
  }

  /**
   The owner's channel must take what it is sent: otherwise, with the user cap reached, the same
   route that cuts the owner off can evict it from the queue, and its pending Welcome is fanned
   out while it is neither subscribed nor authorized.
   */
  lemma FullChannelLosesOwner(exporter: u64 -> PublicKey)
    ensures var s, ses := WelcomePending(exporter), Session(OWNER, 0, DOC, exporter);
      && Coherent(s, TINY, ses) && StrangerEvent(s, TINY, ses, CROWDED)
      && !RelayProperties.ChannelTakes(s.relay, TINY, CROWDED, OWNER)
      && var s' := Next(s, TINY, ses, Foreign(CROWDED));
      && s'.link != [] && s'.link[0].WelcomeOut?
      && !IsSubscribed(s'.relay.router.subscriptions, OWNER, DOC)
      && !IsContentAuthorized(s'.relay.router, TINY, OWNER, DOC)
  {
    hide ValidChoice, ToEnqueue, RouteMessage, EnqueueAll, Coherent;
    var s := WelcomePending(exporter);
    PendingCoherent(exporter);
    CrowdedChoice(exporter);
    SecondEvictsFirst();
    RouterProperties.RouteDropsEvicted(s.relay.router, TINY, FRAME, CROWDED.choice, DOC, OWNER);
    RelayProperties.PublishRoutes(s.relay, TINY, CROWDED);
  }
}
