/**
 Removal end to end: the owner's `remove_member` (crates/collab-core/src/mls.rs), the rotation it
 emits, and the relay that accepts it (crates/collab-relay/src/relay.rs), in one machine. Nothing
 is assumed of signatures made with keys of the removal epoch's predecessors, which the removed
 member knows; keys of later epochs sign only what the members of those epochs sign.
 */
module Lockout {
  import opened Common
  import opened Protocol
  import opened Capability
  import opened RouterModel
  import opened RelayModel
  import opened MlsGroup
  import RelayProperties

  /** What one group has been: its exporter and who was a member at each epoch so far. */
  datatype Group = Group(exporter: u64 -> PublicKey, members: seq<set<UserId>>)

  /** The statements members of epoch `e` sign with that epoch's key. */
  ghost predicate MemberStatement(g: Group, e: u64, message: seq<byte>) {
    && e < |g.members|
    && (|| (exists u, d, x :: u in g.members[e] && ShortIds(u, d) && message == SigningBytes(u, d, e, x))
        || (exists d :: message == RegisterProofBytes(d, e))
        || (exists d :: RotatesTo(g, e, d, message)))
  }

  /** A member of epoch `e` hands the anchor of `d` on to the key of the next epoch, once there is one. */
  ghost predicate RotatesTo(g: Group, e: u64, d: DocId, message: seq<byte>) {
    && e + 1 < |g.members| && e + 1 < U64_LIMIT
    && |d.utf8| < U32_LIMIT
    && message == RotationProofBytes(d, e + 1, g.exporter(e + 1))
  }

  /** Keys of epochs after `n` have signed member statements only; everything else is unconstrained. */
  ghost predicate Unforged(g: Group, n: u64, s: Signature) {
    forall e: u64 :: n < e && s.Signed? && s.signer == g.exporter(e) ==> MemberStatement(g, e, s.message)
  }

  ghost predicate UnforgedEvent(g: Group, n: u64, ev: Event) {
    match ev
    case SubscribeTo(_, _, capability, _) => capability.Some? ==> Unforged(g, n, capability.value.signature)
    case RegisterDocKey(_, _, _, _, proof, rotationProof) => Unforged(g, n, proof) && Unforged(g, n, rotationProof)
    case _ => true
  }

  // ---------------------------------------------------------------- a run after the removal

  datatype WorldEvent = AtRelay(ev: Event) | Commits(members: set<UserId>)

  datatype World = World(relay: Relay, group: Group)

  function WorldStep(w: World, cfg: Config, ev: WorldEvent): World {
    match ev
    case AtRelay(e) => w.(relay := Step(w.relay, cfg, e))
    case Commits(members) => w.(group := w.group.(members := w.group.members + [members]))
  }

  function WorldRun(w: World, cfg: Config, evs: seq<WorldEvent>): World {
    if evs == [] then w else WorldStep(WorldRun(w, cfg, evs[..|evs| - 1]), cfg, evs[|evs| - 1])
  }

  /** Legal relay events with unforged signatures, and commits that do not re-add `m`. */
  ghost predicate Permitted(w: World, cfg: Config, n: u64, m: UserId, ev: WorldEvent) {
    match ev
    case AtRelay(e) => Legal(w.relay, cfg, e) && UnforgedEvent(w.group, n, e)
    case Commits(members) => m !in members && |w.group.members| < U64_LIMIT
  }

  ghost predicate PermittedRun(w: World, cfg: Config, n: u64, m: UserId, evs: seq<WorldEvent>) {
    evs == [] ||
    (PermittedRun(w, cfg, n, m, evs[..|evs| - 1])
     && Permitted(WorldRun(w, cfg, evs[..|evs| - 1]), cfg, n, m, evs[|evs| - 1]))
  }

  /** The document's anchor is a group key of an epoch after `n`, and `m` holds no grant after `n`. */
  ghost predicate Locked(w: World, n: u64, m: UserId, doc: DocId) {
    && Injective(w.group.exporter)
    && doc in w.relay.router.anchors
    && var anchor := w.relay.router.anchors[doc];
    && n < anchor.epoch < |w.group.members|
    && anchor.verifyingKey == w.group.exporter(anchor.epoch)
    && (forall e :: n < e < |w.group.members| ==> m !in w.group.members[e])
    && (IsSubscribed(w.relay.router.subscriptions, m, doc) && w.relay.router.subscriptions[doc][m].Some? ==>
          w.relay.router.subscriptions[doc][m].value <= n)
  }

  /** No capability naming `m` verifies while the anchor is a group key of a later epoch. */
  lemma NoCapabilityForRemoved(g: Group, n: u64, m: UserId, doc: DocId, epoch: u64, cap: SubscribeCapability, now: u64)
    requires n < epoch < |g.members| && m !in g.members[epoch] && Unforged(g, n, cap.signature)
    requires |m.utf8| < U32_LIMIT && |doc.utf8| < U32_LIMIT
    ensures VerifyCapability(cap, g.exporter(epoch), m, doc, epoch, now).Err?
  {
    hide SigningBytes, RegisterProofBytes, RotationProofBytes;
    if VerifyCapability(cap, g.exporter(epoch), m, doc, epoch, now).Ok? {
      var message := SigningBytes(m, doc, epoch, cap.expiry);
      assert MemberStatement(g, epoch, message);
      if d :| message == RegisterProofBytes(d, epoch) {
        StatementsDisjoint(m, doc, epoch, cap.expiry, d, epoch, d, 0, g.exporter(0));
      }
      if d :| RotatesTo(g, epoch, d, message) {
        StatementsDisjoint(m, doc, epoch, cap.expiry, d, 0, d, epoch + 1, g.exporter(epoch + 1));
      }
      var u, d, x :| u in g.members[epoch] && ShortIds(u, d) && message == SigningBytes(u, d, epoch, x);
      SigningBytesInjective(m, doc, epoch, cap.expiry, u, d, epoch, x);
    }
  }

  /** The only rotation away from a group key of an epoch after `n` is to the group's next key. */
  lemma RotationFollowsGroup(g: Group, n: u64, doc: DocId, epoch: u64, next: u64, key: PublicKey, proof: Signature)
    requires n < epoch < |g.members| && Unforged(g, n, proof) && |doc.utf8| < U32_LIMIT
    requires VerifyRotation(doc, next, key, g.exporter(epoch), proof).Ok?
    ensures next == epoch + 1 < |g.members| && key == g.exporter(next)
  {
    hide SigningBytes, RegisterProofBytes, RotationProofBytes;
    var message := RotationProofBytes(doc, next, key);
    assert MemberStatement(g, epoch, message);
    if u, d, x :| message == SigningBytes(u, d, epoch, x) {
      StatementsDisjoint(u, d, epoch, x, d, epoch, doc, next, key);
    }
    if d :| message == RegisterProofBytes(d, epoch) {
      StatementsDisjoint(UserId([]), d, epoch, 0, d, epoch, doc, next, key);
    }
    var d :| RotatesTo(g, epoch, d, message);
    RotationProofBytesInjective(doc, next, key, d, epoch + 1, g.exporter(epoch + 1));
  }

  lemma StepStaysLocked(w: World, cfg: Config, n: u64, m: UserId, doc: DocId, ev: WorldEvent)
    requires cfg.requireSubscribeAuthz && |m.utf8| <= MAX_ID_LEN && ValidDocId(doc)
    requires Locked(w, n, m, doc) && Permitted(w, cfg, n, m, ev)
    ensures Locked(WorldStep(w, cfg, ev), n, m, doc)
  {
    hide Step, VerifyCapability, VerifyRotation, MemberStatement;
    if ev.AtRelay? {
      var r, r' := w.relay, Step(w.relay, cfg, ev.ev);
      var anchor := r.router.anchors[doc];
      RelayProperties.StepAnchor(r, cfg, ev.ev, doc);
      if RelayProperties.AnchorsDoc(r, cfg, ev.ev, doc) {
        RotationFollowsGroup(w.group, n, doc, anchor.epoch, ev.ev.epoch, ev.ev.publicKey, ev.ev.rotationProof);
      }
      if IsSubscribed(r'.router.subscriptions, m, doc) {
        RelayProperties.StepSubscription(r, cfg, ev.ev, m, doc);
        if RelayProperties.GrantsTo(r, cfg, ev.ev, m, doc) && ev.ev.capability.Some? {
          NoCapabilityForRemoved(w.group, n, m, doc, anchor.epoch, ev.ev.capability.value, ev.ev.now);
        }
      }
    }
  }

  lemma {:induction false} RunStaysLocked(w: World, cfg: Config, n: u64, m: UserId, doc: DocId, evs: seq<WorldEvent>)
    requires cfg.requireSubscribeAuthz && |m.utf8| <= MAX_ID_LEN && ValidDocId(doc)
    requires Locked(w, n, m, doc) && PermittedRun(w, cfg, n, m, evs)
    ensures Locked(WorldRun(w, cfg, evs), n, m, doc)
  {
    hide WorldStep, Locked, Permitted;
    if evs != [] {
      RunStaysLocked(w, cfg, n, m, doc, evs[..|evs| - 1]);
      StepStaysLocked(WorldRun(w, cfg, evs[..|evs| - 1]), cfg, n, m, doc, evs[|evs| - 1]);
    }
  }

  // ---------------------------------------------------------------- grants never outrun the anchor

  ghost predicate GrantsBehindAnchor(r: Relay) {
    forall u, d :: IsSubscribed(r.router.subscriptions, u, d) && r.router.subscriptions[d][u].Some? ==>
      d in r.router.anchors && r.router.subscriptions[d][u].value <= r.router.anchors[d].epoch
  }

  lemma StepGrantsBehindAnchor(r: Relay, cfg: Config, ev: Event)
    requires GrantsBehindAnchor(r) && Legal(r, cfg, ev)
    ensures GrantsBehindAnchor(Step(r, cfg, ev))
  {
    hide Step, VerifyCapability, VerifyRotation, VerifyDocKeyProof, Subscribe, Legal;
    var r' := Step(r, cfg, ev);
    forall u, d | IsSubscribed(r'.router.subscriptions, u, d) && r'.router.subscriptions[d][u].Some?
      ensures d in r'.router.anchors && r'.router.subscriptions[d][u].value <= r'.router.anchors[d].epoch
    {
      RelayProperties.StepAnchor(r, cfg, ev, d);
      RelayProperties.StepSubscription(r, cfg, ev, u, d);
    }
  }

  lemma {:induction false} RunGrantsBehindAnchor(cfg: Config, evs: seq<Event>)
    requires ValidRun(cfg, evs)
    ensures GrantsBehindAnchor(Run(cfg, evs))
  {
    hide Step, Legal;
    if evs != [] {
      RunGrantsBehindAnchor(cfg, evs[..|evs| - 1]);
      StepGrantsBehindAnchor(Run(cfg, evs[..|evs| - 1]), cfg, evs[|evs| - 1]);
    }
  }

  // ---------------------------------------------------------------- the theorem

  /** The relay event that presents a rotation on some connection. */
  function Presents(conn: ConnId, doc: DocId, rotation: AnchorRotation): Event {
    RegisterDocKey(conn, doc, rotation.epoch, rotation.publicKey, rotation.proof, rotation.rotationProof)
  }

  /**
   The group some time after the owner removed `m` at epoch `n`: the next epoch seats everybody but
   `m`, and no epoch since has seated it again.
   */
  ghost predicate JustRemoved(g: Group, leaves: Leaves, m: UserId, n: u64) {
    && Injective(g.exporter)
    && |g.members| >= n + 2
    && UniqueIdentities(leaves) && Some(m) in leaves
    && g.members[n] == Identities(leaves)
    && g.members[n + 1] == Identities(Blank(leaves, {FindLeaf(leaves, m).value}))
    && (forall e :: n + 1 < e < |g.members| ==> m !in g.members[e])
  }

  /** The world right after the relay accepted the rotation that the removal emitted. */
  lemma RemovalLocks(cfg: Config, evs: seq<Event>, g: Group, leaves: Leaves, m: UserId, n: u64, doc: DocId, conn: ConnId)
    requires ValidRun(cfg, evs) && JustRemoved(g, leaves, m, n) && n + 1 < U64_LIMIT
    requires AcceptsDocKey(Run(cfg, evs), cfg, Presents(conn, doc, RotationTo(g.exporter, doc, n + 1)))
    ensures Locked(World(Step(Run(cfg, evs), cfg, Presents(conn, doc, RotationTo(g.exporter, doc, n + 1))), g), n, m, doc)
  {
    hide Run, Step, VerifyRotation, VerifyDocKeyProof, UniqueIdentities, Blank, FindLeaf;
    UniqueRemoval(leaves, m);
    RunGrantsBehindAnchor(cfg, evs);
    var r, ev := Run(cfg, evs), Presents(conn, doc, RotationTo(g.exporter, doc, n + 1));
    RelayProperties.StepAnchor(r, cfg, ev, doc);
    RegistrationKeepsSubscriptions(r, cfg, ev);
  }

  lemma RegistrationKeepsSubscriptions(r: Relay, cfg: Config, ev: Event)
    requires ev.RegisterDocKey?
    ensures Step(r, cfg, ev).router.subscriptions == r.router.subscriptions
  {
    hide AcceptsDocKey, AcceptsAnchor;
  }

  /**
   Removal locks out, end to end. The owner removes `m` at epoch `n`, and after any run whatever
   the relay accepts the rotation that commit emitted. Then, in every continuation in which `m` is
   not re-added: no capability signed with a key of epoch `n` or earlier verifies for the document;
   no capability verifies for `m`; `m` may not publish content; `m` is no recipient of content; and
   presenting the rotation again is refused.
   */
  lemma RemovalLocksOut(cfg: Config, evs: seq<Event>, g: Group, leaves: Leaves, m: UserId, n: u64, doc: DocId, conn: ConnId,
                        later: seq<WorldEvent>, cap: SubscribeCapability, u: UserId, now: u64,
                        from: UserId, update: ServerMessage, conn': ConnId)
    requires cfg.requireSubscribeAuthz && ValidRun(cfg, evs) && |m.utf8| <= MAX_ID_LEN
    requires JustRemoved(g, leaves, m, n) && n + 1 < U64_LIMIT
    requires AcceptsDocKey(Run(cfg, evs), cfg, Presents(conn, doc, RotationTo(g.exporter, doc, n + 1)))
    requires var w := World(Step(Run(cfg, evs), cfg, Presents(conn, doc, RotationTo(g.exporter, doc, n + 1))), g);
      PermittedRun(w, cfg, n, m, later)
    requires update.YrsUpdate? && update.docId == doc
    ensures var w := World(Step(Run(cfg, evs), cfg, Presents(conn, doc, RotationTo(g.exporter, doc, n + 1))), g);
      var w' := WorldRun(w, cfg, later);
      var router := w'.relay.router;
      && doc in router.anchors
      && (forall e: u64 :: e <= n && cap.signature.Signed? && cap.signature.signer == g.exporter(e) ==>
            AuthorizeSubscribe(router, u, doc, Some(cap), now).Err?)
      && (Unforged(w'.group, n, cap.signature) ==> AuthorizeSubscribe(router, m, doc, Some(cap), now).Err?)
      && !IsContentAuthorized(router, cfg, m, doc)
      && !IsRecipient(router, cfg, doc, from, update, m)
      && !AcceptsDocKey(w'.relay, cfg, Presents(conn', doc, RotationTo(g.exporter, doc, n + 1)))
  {
    hide Run, Step, WorldRun, PermittedRun, MemberStatement;
    var w := World(Step(Run(cfg, evs), cfg, Presents(conn, doc, RotationTo(g.exporter, doc, n + 1))), g);
    var w' := WorldRun(w, cfg, later);
    RemovalLocks(cfg, evs, g, leaves, m, n, doc, conn);
    RunStaysLocked(w, cfg, n, m, doc, later);
    SameExporter(w, cfg, later);
    var anchor := w'.relay.router.anchors[doc];
    if Unforged(w'.group, n, cap.signature) {
      NoCapabilityForRemoved(w'.group, n, m, doc, anchor.epoch, cap, now);
    }
  }

  lemma {:induction false} SameExporter(w: World, cfg: Config, evs: seq<WorldEvent>)
    ensures WorldRun(w, cfg, evs).group.exporter == w.group.exporter
  {
    if evs != [] {
      SameExporter(w, cfg, evs[..|evs| - 1]);
    }
  }

  /** Locked out means nothing arrives: the copies of any content `m` holds never grow again. */
  lemma {:induction false} LockedReceivesNothing(w: World, cfg: Config, n: u64, m: UserId, doc: DocId,
                                                  later: seq<WorldEvent>, update: ServerMessage)
    requires cfg.requireSubscribeAuthz && |m.utf8| <= MAX_ID_LEN && ValidDocId(doc)
    requires Locked(w, n, m, doc) && RelayProperties.QueueSound(w.relay, cfg) && PermittedRun(w, cfg, n, m, later)
    requires update.YrsUpdate? && update.docId == doc
    ensures RelayProperties.QueueSound(WorldRun(w, cfg, later).relay, cfg)
    ensures RelayProperties.Copies(WorldRun(w, cfg, later).relay, m, update) <= RelayProperties.Copies(w.relay, m, update)
  {
    hide Step, RelayProperties.Copies, RelayProperties.QueueSound, Legal;
    if later != [] {
      var before, ev := WorldRun(w, cfg, later[..|later| - 1]), later[|later| - 1];
      LockedReceivesNothing(w, cfg, n, m, doc, later[..|later| - 1], update);
      RunStaysLocked(w, cfg, n, m, doc, later[..|later| - 1]);
      if ev.AtRelay? {
        RelayProperties.StepQueueSound(before.relay, cfg, ev.ev);
        RelayProperties.StepCopies(before.relay, cfg, ev.ev, m, update);
      }
    }
  }

  /** And nothing is accepted from `m`: no content event of its connections is routed any more. */
  lemma LockedPublishesNothing(w: World, cfg: Config, n: u64, m: UserId, doc: DocId, later: seq<WorldEvent>, ev: Event)
    requires cfg.requireSubscribeAuthz && |m.utf8| <= MAX_ID_LEN && ValidDocId(doc)
    requires Locked(w, n, m, doc) && PermittedRun(w, cfg, n, m, later)
    requires ev.SendUpdate? && ev.doc == doc
    requires var r := WorldRun(w, cfg, later).relay; ev.conn in r.users && r.users[ev.conn] == m
    ensures Routed(WorldRun(w, cfg, later).relay, cfg, ev).None?
  {
    hide WorldRun, PermittedRun;
    RunStaysLocked(w, cfg, n, m, doc, later);
  }

  /** The world in which the relay, after the run `evs`, has just accepted the rotation to epoch `n + 1`. */
  function Rotated(cfg: Config, evs: seq<Event>, g: Group, n: u64, doc: DocId, conn: ConnId): World
    requires n + 1 < U64_LIMIT
  {
    World(Step(Run(cfg, evs), cfg, Presents(conn, doc, RotationTo(g.exporter, doc, n + 1))), g)
  }

  /**
   After the removal of `m` and the relay's acceptance of the emitted rotation, in every
   continuation that does not re-add `m`, the copies of any content of the document that `m` was
   sent or has queued never grow.
   */
  lemma RemovedReceivesNothing(cfg: Config, evs: seq<Event>, g: Group, leaves: Leaves, m: UserId, n: u64, doc: DocId,
                               conn: ConnId, later: seq<WorldEvent>, update: ServerMessage)
    requires cfg.requireSubscribeAuthz && ValidRun(cfg, evs) && |m.utf8| <= MAX_ID_LEN
    requires JustRemoved(g, leaves, m, n) && n + 1 < U64_LIMIT
    requires AcceptsDocKey(Run(cfg, evs), cfg, Presents(conn, doc, RotationTo(g.exporter, doc, n + 1)))
    requires PermittedRun(Rotated(cfg, evs, g, n, doc, conn), cfg, n, m, later)
    requires update.YrsUpdate? && update.docId == doc
    ensures var w := Rotated(cfg, evs, g, n, doc, conn);
      RelayProperties.Copies(WorldRun(w, cfg, later).relay, m, update) <= RelayProperties.Copies(w.relay, m, update)
  {
    hide Run, Step, WorldRun, PermittedRun, Locked, JustRemoved, RelayProperties.QueueSound, RelayProperties.Copies;
    var ev := Presents(conn, doc, RotationTo(g.exporter, doc, n + 1));
    RemovalLocks(cfg, evs, g, leaves, m, n, doc, conn);
    RelayProperties.RunQueueSound(cfg, evs);
    RelayProperties.StepQueueSound(Run(cfg, evs), cfg, ev);
    LockedReceivesNothing(Rotated(cfg, evs, g, n, doc, conn), cfg, n, m, doc, later, update);
  }

  /** And no content event of a connection identified as `m` is routed for the document any more. */
  lemma RemovedPublishesNothing(cfg: Config, evs: seq<Event>, g: Group, leaves: Leaves, m: UserId, n: u64, doc: DocId,
                                conn: ConnId, later: seq<WorldEvent>, ev: Event)
    requires cfg.requireSubscribeAuthz && ValidRun(cfg, evs) && |m.utf8| <= MAX_ID_LEN
    requires JustRemoved(g, leaves, m, n) && n + 1 < U64_LIMIT
    requires AcceptsDocKey(Run(cfg, evs), cfg, Presents(conn, doc, RotationTo(g.exporter, doc, n + 1)))
    requires PermittedRun(Rotated(cfg, evs, g, n, doc, conn), cfg, n, m, later)
    requires ev.SendUpdate? && ev.doc == doc
    requires var r := WorldRun(Rotated(cfg, evs, g, n, doc, conn), cfg, later).relay; ev.conn in r.users && r.users[ev.conn] == m
    ensures Routed(WorldRun(Rotated(cfg, evs, g, n, doc, conn), cfg, later).relay, cfg, ev).None?
  {
    hide Run, Step, WorldRun, PermittedRun, Locked, JustRemoved, Routed;
    RemovalLocks(cfg, evs, g, leaves, m, n, doc, conn);
    LockedPublishesNothing(Rotated(cfg, evs, g, n, doc, conn), cfg, n, m, doc, later, ev);
  }

  /**
   A rotation to epoch `e` is accepted from an identified connection exactly when the stored anchor
   is the outgoing key at an epoch below `e`, or when there is none and it passes as a first one.
   */
  lemma RotationAcceptedExact(r: Relay, cfg: Config, exporter: u64 -> PublicKey, doc: DocId, e: u64, conn: ConnId)
    requires e > 0
    ensures AcceptsDocKey(r, cfg, Presents(conn, doc, RotationTo(exporter, doc, e))) <==>
      && conn in r.users && ValidDocId(doc)
      && (if doc in r.router.anchors then
            r.router.anchors[doc].verifyingKey == exporter(e - 1) && r.router.anchors[doc].epoch < e
          else |r.router.anchors| < cfg.maxDocuments && e <= MAX_INITIAL_ANCHOR_EPOCH)
  {
  }
}
