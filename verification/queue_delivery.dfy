/**
 What the offline queue keeps: without pressure it loses nothing, under pressure no more than it
 must, and its limits and kinds are those of the messages' own payloads.
 */
module QueueDelivery {
  import opened Common
  import opened Sequences
  import opened Protocol
  import opened QueueModel
  import opened QueueProperties

  // ---------------------------------------------------------------- no needless loss

  /** Every cap and budget an enqueue could run into has room for the message. */
  ghost predicate HasRoom(s: Store, lim: Limits, u: UserId, m: ServerMessage) {
    var k := MessageKind(m);
    && Held(Queue(s, u), Bytes(k)) + MessageBytes(m) <= lim.PerUser(k)
    && Total(s, Bytes(k)) + MessageBytes(m) <= lim.Budget(k)
    && |Queue(s, u)| < lim.maxPerUser
    && (u in s.queues || |s.queues| < lim.maxUsers)
  }

  lemma RoomMeansNoVictims(s: Store, k: Kind, needed: nat, budget: nat, victims: seq<UserId>)
    requires WellFormed(s) && ValidVictims(s, k, needed, budget, victims)
    requires Total(s, Bytes(k)) + needed <= budget
    ensures victims == []
  {
    hide WellFormed, Total, DropEach, LargestHolder;
    if victims != [] {
      DropEachTotal(s, k, needed, budget, victims[..|victims| - 1], Bytes(k));
    }
  }

  lemma RoomSkipsBytePhase(s: Store, lim: Limits, u: UserId, m: ServerMessage, victims: seq<UserId>)
    requires WellFormed(s) && ValidEnqueue(s, lim, u, m, victims) && HasRoom(s, lim, u, m)
    ensures !Refuses(lim, m) && victims == [] && Trimmed(s, lim, u, m) == s && BytePhase(s, lim, u, m, victims) == s
  {
    hide WellFormed, Total, Held, ValidVictims;
    RoomMeansNoVictims(s, MessageKind(m), MessageBytes(m), lim.Budget(MessageKind(m)), victims);
  }

  /** With room everywhere an enqueue appends the message and touches nothing else. */
  lemma EnqueueLosesNothing(s: Store, lim: Limits, u: UserId, m: ServerMessage, victims: seq<UserId>)
    requires WellFormed(s) && ValidEnqueue(s, lim, u, m, victims) && HasRoom(s, lim, u, m)
    ensures var (s', out) := Enqueue(s, lim, u, m, victims);
      && out == EnqueueOutcome(None, false, 0, 0)
      && Queue(s', u) == Queue(s, u) + [m]
      && (forall v :: v != u ==> Queue(s', v) == Queue(s, v))
  {
    RoomSkipsBytePhase(s, lim, u, m, victims);
    RoomAppends(s, lim, u, m);
  }

  lemma RoomAppends(s: Store, lim: Limits, u: UserId, m: ServerMessage)
    requires WellFormed(s) && |Queue(s, u)| < lim.maxPerUser && (u in s.queues || |s.queues| < lim.maxUsers)
    ensures var (s', evicted) := Append(s, lim, u, m);
      && evicted == None && TrimToCap(s', u, lim.maxPerUser) == s'
      && Queue(s', u) == Queue(s, u) + [m]
      && (forall v :: v != u ==> Queue(s', v) == Queue(s, v))
  {
    hide WellFormed;
    assert [] + [m] == [m];
  }

  // ---------------------------------------------------------------- no more than needed

  /** `u` without its `n` oldest messages of kind `k`. */
  function DropTimes(s: Store, u: UserId, k: Kind, n: nat): Store {
    if n == 0 then s else DropOldest(DropTimes(s, u, k, n - 1), u, k)
  }

  lemma {:induction false} DropTimesFirst(s: Store, u: UserId, k: Kind, n: nat)
    ensures DropTimes(DropOldest(s, u, k), u, k, n) == DropTimes(s, u, k, n + 1)
  {
    hide DropOldest;
    if n > 0 {
      DropTimesFirst(s, u, k, n - 1);
    }
  }

  /** The per-user trim drops oldest messages one by one, and with one drop less it would not fit. */
  lemma {:induction false} TrimIsMinimal(s: Store, u: UserId, k: Kind, needed: nat, cap: nat)
    requires WellFormed(s)
    ensures var s' := TrimUserBudget(s, u, k, needed, cap);
      var dropped := |Queue(s, u)| - |Queue(s', u)|;
      && dropped >= 0 && s' == DropTimes(s, u, k, dropped)
      && (dropped > 0 ==> Held(Queue(DropTimes(s, u, k, dropped - 1), u), Bytes(k)) + needed > cap)
    decreases |Queue(s, u)|
  {
    hide DropOldest, WellFormed, Held;
    var q := Queue(s, u);
    if Held(q, Bytes(k)) + needed > cap && FirstOf(q, k) < |q| {
      var t := DropOldest(s, u, k);
      DropOldestSheds(s, u, k);
      TrimIsMinimal(t, u, k, needed, cap);
      var more := |Queue(t, u)| - |Queue(TrimUserBudget(t, u, k, needed, cap), u)|;
      DropTimesFirst(s, u, k, more);
      if more > 0 {
        DropTimesFirst(s, u, k, more - 1);
      }
    }
  }

  /** Aggregate eviction too stops at the first point where the message fits. */
  lemma EvictionIsMinimal(s: Store, lim: Limits, u: UserId, m: ServerMessage, victims: seq<UserId>, n: nat)
    requires WellFormed(s) && !Refuses(lim, m) && ValidEnqueue(s, lim, u, m, victims) && n < |victims|
    ensures Total(BytePhase(s, lim, u, m, victims[..n]), Bytes(MessageKind(m))) + MessageBytes(m) > lim.Budget(MessageKind(m))
  {
    VictimsMinimal(Trimmed(s, lim, u, m), MessageKind(m), MessageBytes(m), lim.Budget(MessageKind(m)), victims, n);
  }

  lemma {:induction false} VictimsMinimal(s: Store, k: Kind, needed: nat, budget: nat, victims: seq<UserId>, n: nat)
    requires ValidVictims(s, k, needed, budget, victims) && n < |victims|
    ensures Total(DropEach(s, k, victims[..n]), Bytes(k)) + needed > budget
  {
    hide Total, DropEach, LargestHolder;
    if n < |victims| - 1 {
      assert victims[..|victims| - 1][..n] == victims[..n];
      VictimsMinimal(s, k, needed, budget, victims[..|victims| - 1], n);
    }
  }

  // ---------------------------------------------------------------- payloads and limits

  /** The bytes of encrypted updates in a queue. */
  function UpdateBytes(q: seq<ServerMessage>): nat {
    if q == [] then 0
    else UpdateBytes(q[..|q| - 1]) + match q[|q| - 1] case YrsUpdate(_, _, encrypted, _) => |encrypted| case _ => 0
  }

  /** The bytes of handshake payloads in a queue. */
  function HandshakeBytes(q: seq<ServerMessage>): nat {
    if q == [] then 0
    else HandshakeBytes(q[..|q| - 1]) + match q[|q| - 1] case MlsHandshake(_, _, payload, _) => |payload| case _ => 0
  }

  /** The counters count exactly those payloads. */
  lemma {:induction false} HeldIsPayload(q: seq<ServerMessage>)
    ensures Held(q, Bytes(Content)) == UpdateBytes(q) && Held(q, Bytes(Handshake)) == HandshakeBytes(q)
  {
    if q != [] {
      HeldIsPayload(q[..|q| - 1]);
    }
  }

  function AllUpdateBytes(s: Store, us: seq<UserId>): nat {
    if us == [] then 0 else AllUpdateBytes(s, us[..|us| - 1]) + UpdateBytes(Queue(s, us[|us| - 1]))
  }

  function AllHandshakeBytes(s: Store, us: seq<UserId>): nat {
    if us == [] then 0 else AllHandshakeBytes(s, us[..|us| - 1]) + HandshakeBytes(Queue(s, us[|us| - 1]))
  }

  lemma {:induction false} SumIsPayload(s: Store, us: seq<UserId>)
    ensures Sum(s, us, Bytes(Content)) == AllUpdateBytes(s, us) && Sum(s, us, Bytes(Handshake)) == AllHandshakeBytes(s, us)
  {
    hide Held, UpdateBytes, HandshakeBytes;
    if us != [] {
      SumIsPayload(s, us[..|us| - 1]);
      HeldIsPayload(Queue(s, us[|us| - 1]));
    }
  }

  /** In every run updates and handshakes stay under their own byte limits, in total and per user. */
  lemma RunWithinLimits(lim: Limits, ops: seq<Operation>, u: UserId)
    requires ValidRun(lim, ops)
    ensures var s := RunOf(lim, ops);
      && AllUpdateBytes(s, s.order) <= lim.content && AllHandshakeBytes(s, s.order) <= lim.handshake
      && UpdateBytes(Queue(s, u)) <= lim.userContent && HandshakeBytes(Queue(s, u)) <= lim.userHandshake
      && |Queue(s, u)| <= lim.maxPerUser && |s.queues| <= Max(lim.maxUsers, 1)
  {
    hide RunOf, ValidRun, Held, Queue, WellFormed, Sum;
    var s := RunOf(lim, ops);
    QueueRunSafe(lim, ops, u);
    SumIsPayload(s, s.order);
    HeldIsPayload(Queue(s, u));
    assert Total(s, Bytes(Content)) <= lim.Budget(Content) && Total(s, Bytes(Handshake)) <= lim.Budget(Handshake);
    assert Held(Queue(s, u), Bytes(Content)) <= lim.PerUser(Content);
    assert Held(Queue(s, u), Bytes(Handshake)) <= lim.PerUser(Handshake);
  }

  /** Refused is exactly what can never fit its own kind's limits, and a refusal changes nothing. */
  lemma RefusalExact(s: Store, lim: Limits, u: UserId, m: ServerMessage, victims: seq<UserId>)
    ensures var (s', out) := Enqueue(s, lim, u, m, victims);
      && (out.refused <==>
            || (m.YrsUpdate? && (|m.encrypted| > lim.userContent || |m.encrypted| > lim.content))
            || (m.MlsHandshake? && (|m.payload| > lim.userHandshake || |m.payload| > lim.handshake)))
      && (out.refused ==> s' == s && out == EnqueueOutcome(None, true, 0, 0))
  {
    hide Trimmed, BytePhase, Append, TrimToCap;
  }

  // ---------------------------------------------------------------- kinds by constructor

  function Updates(q: seq<ServerMessage>): seq<ServerMessage> {
    if q == [] then [] else (if q[0].YrsUpdate? then [q[0]] else []) + Updates(q[1..])
  }

  function Handshakes(q: seq<ServerMessage>): seq<ServerMessage> {
    if q == [] then [] else (if q[0].MlsHandshake? then [q[0]] else []) + Handshakes(q[1..])
  }

  lemma {:induction false} SelectKeepsOthers(q: seq<ServerMessage>)
    ensures Handshakes(Select(q, Content, false)) == Handshakes(q)
    ensures Updates(Select(q, Handshake, false)) == Updates(q)
  {
    if q != [] {
      SelectKeepsOthers(q[1..]);
      assert ([q[0]] + Select(q[1..], Content, false))[1..] == Select(q[1..], Content, false);
      assert ([q[0]] + Select(q[1..], Handshake, false))[1..] == Select(q[1..], Handshake, false);
    }
  }

  /** No flood of updates displaces a handshake in the byte phase, and none of handshakes an update. */
  lemma FloodsStayApart(s: Store, lim: Limits, u: UserId, m: ServerMessage, victims: seq<UserId>, v: UserId)
    requires WellFormed(s) && ValidEnqueue(s, lim, u, m, victims) && !Enqueue(s, lim, u, m, victims).1.refused
    ensures var s' := BytePhase(s, lim, u, m, victims);
      && (m.YrsUpdate? ==> Handshakes(Queue(s', v)) == Handshakes(Queue(s, v)))
      && (m.MlsHandshake? ==> Updates(Queue(s', v)) == Updates(Queue(s, v)))
      && (!m.YrsUpdate? && !m.MlsHandshake? ==> Queue(s', v) == Queue(s, v))
  {
    var s' := BytePhase(s, lim, u, m, victims);
    BytePhaseSheds(s, lim, u, m, victims);
    assert QueueSheds(Queue(s, v), Queue(s', v), MessageKind(m));
    SelectKeepsOthers(Queue(s, v));
    SelectKeepsOthers(Queue(s', v));
    if MessageKind(m) == Unbudgeted {
      UnbudgetedSpares(s, lim, u, m, victims);
    }
  }

  /** A message without payload is free of the byte phase altogether. */
  lemma UnbudgetedSpares(s: Store, lim: Limits, u: UserId, m: ServerMessage, victims: seq<UserId>)
    requires WellFormed(s) && ValidEnqueue(s, lim, u, m, victims) && MessageKind(m) == Unbudgeted
    ensures BytePhase(s, lim, u, m, victims) == s
  {
    hide WellFormed, ValidVictims;
    HeldPositive(Queue(s, u), Unbudgeted);
    NothingUnbudgeted(s, s.order);
    RoomMeansNoVictims(s, Unbudgeted, 0, USIZE_MAX, victims);
  }

  lemma {:induction false} NothingUnbudgeted(s: Store, us: seq<UserId>)
    ensures Sum(s, us, Bytes(Unbudgeted)) == 0
  {
    if us != [] {
      NothingUnbudgeted(s, us[..|us| - 1]);
      HeldPositive(Queue(s, us[|us| - 1]), Unbudgeted);
    }
  }

  // ---------------------------------------------------------------- whole runs

  /** Every enqueue of the run found room. */
  ghost predicate RoomyRun(lim: Limits, ops: seq<Operation>) {
    ops == [] ||
    var before, op := ops[..|ops| - 1], ops[|ops| - 1];
    RoomyRun(lim, before) && (op.EnqueueOp? ==> HasRoom(RunOf(lim, before), lim, op.user, op.message))
  }

  /**
   Nothing is lost without pressure: over any run whose enqueues all found room, what was delivered
   to a user followed by what is still queued for it is exactly what was offered for it.
   */
  lemma {:induction false} QueueRunLossless(lim: Limits, ops: seq<Operation>, u: UserId)
    requires ValidRun(lim, ops) && RoomyRun(lim, ops)
    ensures Delivered(lim, ops, u) + Queue(RunOf(lim, ops), u) == Offered(ops, u)
  {
    if ops != [] {
      hide HasRoom, Apply, ValidEnqueue, Queue;
      var before, op := ops[..|ops| - 1], ops[|ops| - 1];
      var s := RunOf(lim, before);
      QueueRunLossless(lim, before, u);
      QueueRunSafe(lim, before, u);
      StepLossless(s, lim, op, u, Delivered(lim, before, u), Offered(before, u));
    }
  }

  lemma StepLossless(s: Store, lim: Limits, op: Operation, u: UserId,
                     delivered: seq<ServerMessage>, offered: seq<ServerMessage>)
    requires WellFormed(s) && delivered + Queue(s, u) == offered
    requires op.EnqueueOp? ==> ValidEnqueue(s, lim, op.user, op.message, op.victims) && HasRoom(s, lim, op.user, op.message)
    ensures var d' := delivered + if op == DrainOp(u) then Queue(s, u) else [];
      var o' := offered + if op.EnqueueOp? && op.user == u then [op.message] else [];
      d' + Queue(Apply(s, lim, op), u) == o'
  {
    hide HasRoom, Enqueue, Drain, ValidEnqueue, WellFormed, Queue;
    match op
    case EnqueueOp(v, m, victims) =>
      EnqueueLosesNothing(s, lim, v, m, victims);
    case DrainOp(v) =>
      DrainFacts(s, v);
  }
}
