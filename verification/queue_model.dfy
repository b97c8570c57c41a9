/**
 The offline queue as a value: what each operation of crates/collab-relay/src/storage.rs
 does to the queued messages and to the insertion order. It holds no running counters;
 class `Storage.OfflineQueue` keeps those and is proved against these functions.

 A byte eviction picks ANY user holding the most bytes (the source scans a hash map), so an
 enqueue takes the list of users its byte eviction picked as an argument, and `ValidEnqueue`
 says which lists the code can produce.
 */
module QueueModel {
  import opened Common
  import opened Sequences
  import opened Protocol

  datatype Kind = Content | Handshake | Unbudgeted

  function MessageKind(m: ServerMessage): Kind {
    match m
    case YrsUpdate(_, _, _, _) => Content
    case MlsHandshake(_, _, _, _) => Handshake
    case _ => Unbudgeted
  }

  function MessageBytes(m: ServerMessage): nat {
    match m
    case YrsUpdate(_, _, encrypted, _) => |encrypted|
    case MlsHandshake(_, _, payload, _) => |payload|
    case _ => 0
  }

  const USIZE_MAX: nat := U64_LIMIT - 1

  datatype Limits = Limits(
    maxPerUser: nat, maxUsers: nat,
    content: nat, handshake: nat, userContent: nat, userHandshake: nat)
  {
    function Budget(k: Kind): nat {
      match k case Content => content case Handshake => handshake case Unbudgeted => USIZE_MAX
    }

    function PerUser(k: Kind): nat {
      match k case Content => userContent case Handshake => userHandshake case Unbudgeted => USIZE_MAX
    }
  }

  // ---------------------------------------------------------------- sums

  /** What a message is counted by: its payload bytes if it is of one kind, or just 1. */
  datatype Meter = Bytes(kind: Kind) | Messages

  function Charge(m: ServerMessage, w: Meter): nat {
    match w
    case Messages => 1
    case Bytes(k) => if MessageKind(m) == k then MessageBytes(m) else 0
  }

  function Held(q: seq<ServerMessage>, w: Meter): nat {
    if q == [] then 0 else Held(q[..|q| - 1], w) + Charge(q[|q| - 1], w)
  }

  lemma {:induction false} HeldConcat(p: seq<ServerMessage>, q: seq<ServerMessage>, w: Meter)
    ensures Held(p + q, w) == Held(p, w) + Held(q, w)
    decreases |q|
  {
    if q == [] {
      assert p + q == p;
    } else {
      assert (p + q)[..|p + q| - 1] == p + q[..|q| - 1];
      HeldConcat(p, q[..|q| - 1], w);
    }
  }

  lemma HeldDelete(q: seq<ServerMessage>, i: nat, w: Meter)
    requires i < |q|
    ensures Held(q[..i] + q[i + 1..], w) == Held(q, w) - Charge(q[i], w)
    ensures Charge(q[i], w) <= Held(q, w)
  {
    assert q == q[..i] + ([q[i]] + q[i + 1..]);
    HeldConcat(q[..i], [q[i]] + q[i + 1..], w);
    HeldConcat([q[i]], q[i + 1..], w);
    HeldConcat(q[..i], q[i + 1..], w);
    assert [q[i]][..0] == [];
    assert Held([q[i]], w) == Charge(q[i], w);
  }

  lemma {:induction false} HeldMessages(q: seq<ServerMessage>)
    ensures Held(q, Messages) == |q|
  {
    if q != [] {
      HeldMessages(q[..|q| - 1]);
    }
  }

  /** Only budgeted kinds carry bytes; a queue holding bytes of a kind holds such a message. */
  lemma {:induction false} HeldPositive(q: seq<ServerMessage>, k: Kind)
    ensures k == Unbudgeted ==> Held(q, Bytes(k)) == 0
    ensures Held(q, Bytes(k)) > 0 ==> HasKind(q, k)
  {
    if q != [] {
      HeldPositive(q[..|q| - 1], k);
    }
  }

  ghost predicate HasKind(q: seq<ServerMessage>, k: Kind) {
    exists i :: 0 <= i < |q| && MessageKind(q[i]) == k
  }

  // ---------------------------------------------------------------- the store

  datatype Store = Store(queues: map<UserId, seq<ServerMessage>>, order: seq<UserId>)

  const EMPTY := Store(map[], [])

  function Queue(s: Store, u: UserId): seq<ServerMessage> {
    if u in s.queues then s.queues[u] else []
  }

  /** `order` lists exactly the tracked users, each once, and no tracked queue is empty. */
  ghost predicate WellFormed(s: Store) {
    && Distinct(s.order)
    && (forall u :: u in s.order <==> u in s.queues)
    && (forall u :: u in s.queues ==> s.queues[u] != [])
  }

  /** The sum over the users in `us` of what each holds. */
  function Sum(s: Store, us: seq<UserId>, w: Meter): nat {
    if us == [] then 0 else Sum(s, us[..|us| - 1], w) + Held(Queue(s, us[|us| - 1]), w)
  }

  function Total(s: Store, w: Meter): nat {
    Sum(s, s.order, w)
  }

  lemma {:induction false} SumUpdate(s: Store, s': Store, us: seq<UserId>, u: UserId, w: Meter)
    requires Distinct(us)
    requires forall v :: v in us && v != u ==> Queue(s, v) == Queue(s', v)
    ensures Sum(s', us, w) == Sum(s, us, w)
      + if u in us then Held(Queue(s', u), w) - Held(Queue(s, u), w) else 0
  {
    if us != [] {
      var us' := us[..|us| - 1];
      assert us == us' + [us[|us| - 1]];
      SumUpdate(s, s', us', u, w);
    }
  }

  lemma {:induction false} SumWithout(s: Store, us: seq<UserId>, u: UserId, w: Meter)
    requires Distinct(us)
    ensures Sum(s, Without(us, u), w) == Sum(s, us, w) - if u in us then Held(Queue(s, u), w) else 0
  {
    if us != [] {
      var us', v := us[..|us| - 1], us[|us| - 1];
      assert us == us' + [v];
      SumWithout(s, us', u, w);
      WithoutSnoc(us', v, u);
      var r := Without(us, u);
      if v == u {
        assert r == Without(us', u);
      } else {
        assert r[..|r| - 1] == Without(us', u);
      }
    }
  }

  lemma {:induction false} WithoutSnoc(us: seq<UserId>, v: UserId, u: UserId)
    ensures Without(us + [v], u) == Without(us, u) + if v == u then [] else [v]
  {
    if us == [] {
      assert Without([v], u) == if v == u then [] else [v];
    } else {
      assert (us + [v])[1..] == us[1..] + [v];
      WithoutSnoc(us[1..], v, u);
    }
  }

  lemma {:induction false} SumBound(s: Store, us: seq<UserId>, u: UserId, w: Meter)
    requires u in us
    ensures Held(Queue(s, u), w) <= Sum(s, us, w)
  {
    if us[|us| - 1] != u {
      assert us == us[..|us| - 1] + [us[|us| - 1]];
      SumBound(s, us[..|us| - 1], u, w);
    }
  }

  /** Replacing one tracked user's queue, reaping the user when it becomes empty. */
  function Replace(s: Store, u: UserId, q: seq<ServerMessage>): Store {
    if q == [] then Store(s.queues - {u}, Without(s.order, u))
    else s.(queues := s.queues[u := q])
  }

  lemma ReplaceFacts(s: Store, u: UserId, q: seq<ServerMessage>)
    requires WellFormed(s) && u in s.queues
    ensures var s' := Replace(s, u, q);
      && WellFormed(s')
      && Queue(s', u) == q
      && (forall v :: v != u ==> Queue(s', v) == Queue(s, v))
      && s'.queues.Keys <= s.queues.Keys
  {
    WithoutDistinct(s.order, u);
  }

  lemma ReplaceTotal(s: Store, u: UserId, q: seq<ServerMessage>, w: Meter)
    requires WellFormed(s) && u in s.queues
    ensures Total(Replace(s, u, q), w) == Total(s, w) - Held(Queue(s, u), w) + Held(q, w)
  {
    var s' := Replace(s, u, q);
    SumUpdate(s, s', s.order, u, w);
    SumWithout(s', s.order, u, w);
  }

  // ---------------------------------------------------------------- removals

  /** `remove_at`: drop the message at index `i` of `u`'s queue. */
  function RemoveAt(s: Store, u: UserId, i: nat): Store {
    var q := Queue(s, u);
    if i < |q| then Replace(s, u, q[..i] + q[i + 1..]) else s
  }

  /** Index of the oldest message of kind `k`, or the length if there is none. */
  function FirstOf(q: seq<ServerMessage>, k: Kind): (i: nat)
    ensures i <= |q|
    ensures forall j :: 0 <= j < i ==> MessageKind(q[j]) != k
    ensures i < |q| ==> MessageKind(q[i]) == k
  {
    if q == [] || MessageKind(q[0]) == k then 0 else 1 + FirstOf(q[1..], k)
  }

  /** `drop_oldest_of`; unchanged when `u` holds no message of kind `k`. */
  function DropOldest(s: Store, u: UserId, k: Kind): Store {
    RemoveAt(s, u, FirstOf(Queue(s, u), k))
  }

  lemma RemoveAtFacts(s: Store, u: UserId, i: nat)
    requires WellFormed(s) && i < |Queue(s, u)|
    ensures var s' := RemoveAt(s, u, i);
      && WellFormed(s')
      && Queue(s', u) == Queue(s, u)[..i] + Queue(s, u)[i + 1..]
      && (forall v :: v != u ==> Queue(s', v) == Queue(s, v))
      && s'.queues.Keys <= s.queues.Keys
  {
    ReplaceFacts(s, u, Queue(s, u)[..i] + Queue(s, u)[i + 1..]);
  }

  /** Dropping one message credits both the user's and the aggregate count with its charge. */
  lemma RemoveAtTotal(s: Store, u: UserId, i: nat, w: Meter)
    requires WellFormed(s) && i < |Queue(s, u)|
    ensures Charge(Queue(s, u)[i], w) <= Held(Queue(s, u), w) <= Total(s, w)
    ensures Held(Queue(RemoveAt(s, u, i), u), w) == Held(Queue(s, u), w) - Charge(Queue(s, u)[i], w)
    ensures Total(RemoveAt(s, u, i), w) == Total(s, w) - Charge(Queue(s, u)[i], w)
  {
    var q := Queue(s, u);
    HeldDelete(q, i, w);
    SumBound(s, s.order, u, w);
    ReplaceFacts(s, u, q[..i] + q[i + 1..]);
    ReplaceTotal(s, u, q[..i] + q[i + 1..], w);
  }

  // ---------------------------------------------------------------- enqueue

  /** `trim_user_budget`. */
  function TrimUserBudget(s: Store, u: UserId, k: Kind, needed: nat, cap: nat): Store
    decreases |Queue(s, u)|
  {
    var q := Queue(s, u);
    if Held(q, Bytes(k)) + needed > cap && FirstOf(q, k) < |q| then
      TrimUserBudget(DropOldest(s, u, k), u, k, needed, cap)
    else s
  }

  /** The store after byte eviction dropped the oldest `k` message of each victim in turn. */
  function DropEach(s: Store, k: Kind, victims: seq<UserId>): Store {
    if victims == [] then s
    else DropOldest(DropEach(s, k, victims[..|victims| - 1]), victims[|victims| - 1], k)
  }

  ghost predicate LargestHolder(s: Store, k: Kind, u: UserId) {
    && u in s.queues
    && Held(s.queues[u], Bytes(k)) > 0
    && forall v :: v in s.queues ==> Held(s.queues[v], Bytes(k)) <= Held(s.queues[u], Bytes(k))
  }

  /** Each victim was, when it was picked, over a full budget and a largest holder. */
  ghost predicate ValidVictims(s: Store, k: Kind, needed: nat, budget: nat, victims: seq<UserId>) {
    victims == [] ||
    var before := victims[..|victims| - 1];
    && ValidVictims(s, k, needed, budget, before)
    && Total(DropEach(s, k, before), Bytes(k)) + needed > budget
    && LargestHolder(DropEach(s, k, before), k, victims[|victims| - 1])
  }

  /** `evict_if_full`: the least recently inserted user goes when the user cap is reached. */
  function EvictIfFull(s: Store, maxUsers: nat): (Store, Option<UserId>) {
    if |s.queues| >= maxUsers && s.order != [] then
      (Store(s.queues - {s.order[0]}, s.order[1..]), Some(s.order[0]))
    else (s, None)
  }

  /** Append a message, tracking the user (and evicting for it) if it is new. */
  function Append(s: Store, lim: Limits, u: UserId, m: ServerMessage): (Store, Option<UserId>) {
    if u in s.queues then (s.(queues := s.queues[u := s.queues[u] + [m]]), None)
    else
      var (t, evicted) := EvictIfFull(s, lim.maxUsers);
      (Store(t.queues[u := [m]], t.order + [u]), evicted)
  }

  /** `trim_to_cap`: the count ring. */
  function TrimToCap(s: Store, u: UserId, maxPerUser: nat): Store
    decreases |Queue(s, u)|
  {
    if |Queue(s, u)| > maxPerUser then TrimToCap(RemoveAt(s, u, 0), u, maxPerUser) else s
  }

  datatype EnqueueOutcome = EnqueueOutcome(
    evictedUser: Option<UserId>, refused: bool, displaced: nat, trimmed: nat)

  predicate Refuses(lim: Limits, m: ServerMessage) {
    || MessageBytes(m) > lim.PerUser(MessageKind(m))
    || MessageBytes(m) > lim.Budget(MessageKind(m))
  }

  /** The per-user half of the byte phase. */
  function Trimmed(s: Store, lim: Limits, u: UserId, m: ServerMessage): Store {
    TrimUserBudget(s, u, MessageKind(m), MessageBytes(m), lim.PerUser(MessageKind(m)))
  }

  /** The whole byte phase: per-user trimming, then aggregate eviction of `victims`. */
  function BytePhase(s: Store, lim: Limits, u: UserId, m: ServerMessage, victims: seq<UserId>): Store {
    DropEach(Trimmed(s, lim, u, m), MessageKind(m), victims)
  }

  /** `enqueue`, for the victims its byte eviction picked. */
  function Enqueue(s: Store, lim: Limits, u: UserId, m: ServerMessage, victims: seq<UserId>)
    : (Store, EnqueueOutcome)
  {
    if Refuses(lim, m) then (s, EnqueueOutcome(None, true, 0, 0))
    else
      var s1 := Trimmed(s, lim, u, m);
      var s2 := BytePhase(s, lim, u, m, victims);
      var (s3, evicted) := Append(s2, lim, u, m);
      var displaced := Max(|Queue(s, u)| - |Queue(s1, u)|, 0) + |victims|;
      var trimmed := Max(|Queue(s3, u)| - lim.maxPerUser, 0);
      (TrimToCap(s3, u, lim.maxPerUser), EnqueueOutcome(evicted, false, displaced, trimmed))
  }

  /** The victim lists the code can produce: each legal, and the last one made room. */
  ghost predicate ValidEnqueue(s: Store, lim: Limits, u: UserId, m: ServerMessage, victims: seq<UserId>) {
    if Refuses(lim, m) then victims == []
    else
      var k, needed, budget := MessageKind(m), MessageBytes(m), lim.Budget(MessageKind(m));
      && ValidVictims(Trimmed(s, lim, u, m), k, needed, budget, victims)
      && Total(BytePhase(s, lim, u, m, victims), Bytes(k)) + needed <= budget
  }

  /** `drain`: hand over and forget one user's queue. */
  function Drain(s: Store, u: UserId): (Store, seq<ServerMessage>) {
    if u in s.queues then (Store(s.queues - {u}, Without(s.order, u)), s.queues[u]) else (s, [])
  }

  /** Every limit of the queue, in one predicate. */
  ghost predicate Bounded(s: Store, lim: Limits) {
    && (forall k :: Total(s, Bytes(k)) <= lim.Budget(k))
    && (forall u, k :: Held(Queue(s, u), Bytes(k)) <= lim.PerUser(k))
    && (forall u :: |Queue(s, u)| <= lim.maxPerUser)
    && |s.queues| <= Max(lim.maxUsers, 1)
  }
}
