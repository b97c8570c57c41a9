/**
 The offline queue of crates/collab-relay/src/storage.rs: maps, insertion order and running
 byte counters updated in place. The read-write lock around them is collapsed into the object.
 Counters are `nat`, so every subtraction below is proved not to underflow.
 */
module Storage {
  import opened Common
  import opened Protocol
  import opened QueueModel
  import QueueProperties
  import Sequences

  datatype UserQueue = UserQueue(messages: seq<ServerMessage>, contentBytes: nat, handshakeBytes: nat) {
    function Bytes(k: Kind): nat {
      match k case Content => contentBytes case Handshake => handshakeBytes case Unbudgeted => 0
    }

    function ChargeTo(k: Kind, bytes: nat): UserQueue {
      match k
      case Content => this.(contentBytes := contentBytes + bytes)
      case Handshake => this.(handshakeBytes := handshakeBytes + bytes)
      case Unbudgeted => this
    }

    function Credit(k: Kind, bytes: nat): UserQueue
      requires k != Unbudgeted ==> bytes <= Bytes(k)
    {
      match k
      case Content => this.(contentBytes := contentBytes - bytes)
      case Handshake => this.(handshakeBytes := handshakeBytes - bytes)
      case Unbudgeted => this
    }

    /** The counters equal the payload sizes of the messages beside them. */
    ghost predicate Counted() {
      && contentBytes == Held(messages, QueueModel.Bytes(Content))
      && handshakeBytes == Held(messages, QueueModel.Bytes(Handshake))
    }
  }

  function View(queues: map<UserId, UserQueue>, order: seq<UserId>): Store {
    Store(map u | u in queues :: queues[u].messages, order)
  }

  /** Order, queues and all running counters agree. */
  ghost predicate Agrees(queues: map<UserId, UserQueue>, order: seq<UserId>, content: nat, handshake: nat) {
    && WellFormed(View(queues, order))
    && (forall u :: u in queues ==> queues[u].Counted())
    && content == Total(View(queues, order), QueueModel.Bytes(Content))
    && handshake == Total(View(queues, order), QueueModel.Bytes(Handshake))
  }

  /** One user's queue without its message at `idx`, credited for it. */
  function Minus(q: UserQueue, idx: nat): UserQueue
    requires q.Counted() && idx < |q.messages|
  {
    var kind, bytes := MessageKind(q.messages[idx]), MessageBytes(q.messages[idx]);
    HeldDelete(q.messages, idx, QueueModel.Bytes(kind));
    q.(messages := q.messages[..idx] + q.messages[idx + 1..]).Credit(kind, bytes)
  }

  lemma MinusCounted(q: UserQueue, idx: nat)
    requires q.Counted() && idx < |q.messages|
    ensures Minus(q, idx).Counted()
  {
    HeldDelete(q.messages, idx, QueueModel.Bytes(Content));
    HeldDelete(q.messages, idx, QueueModel.Bytes(Handshake));
  }

  /** The map and order after a removal that reaps an emptied user. */
  function MinusIn(queues: map<UserId, UserQueue>, order: seq<UserId>, user: UserId, idx: nat)
    : (map<UserId, UserQueue>, seq<UserId>)
    requires user in queues && queues[user].Counted() && idx < |queues[user].messages|
  {
    var rest := Minus(queues[user], idx);
    if rest.messages == [] then (queues - {user}, Sequences.Without(order, user))
    else (queues[user := rest], order)
  }

  lemma MinusView(queues: map<UserId, UserQueue>, order: seq<UserId>, user: UserId, idx: nat)
    requires user in queues && queues[user].Counted() && idx < |queues[user].messages|
    ensures var r := MinusIn(queues, order, user, idx);
      View(r.0, r.1) == QueueModel.RemoveAt(View(queues, order), user, idx)
  {
    var r := MinusIn(queues, order, user, idx);
    assert View(r.0, r.1).queues == QueueModel.RemoveAt(View(queues, order), user, idx).queues;
  }

  /** Crediting one removed message keeps every counter in agreement. */
  lemma RemovalAgrees(queues: map<UserId, UserQueue>, order: seq<UserId>, content: nat, handshake: nat,
                      user: UserId, idx: nat)
    requires Agrees(queues, order, content, handshake)
    requires user in queues && idx < |queues[user].messages|
    ensures var m, r := queues[user].messages[idx], MinusIn(queues, order, user, idx);
      && Charge(m, QueueModel.Bytes(Content)) <= content
      && Charge(m, QueueModel.Bytes(Handshake)) <= handshake
      && Agrees(r.0, r.1, content - Charge(m, QueueModel.Bytes(Content)),
                handshake - Charge(m, QueueModel.Bytes(Handshake)))
  {
    hide QueueModel.RemoveAt, Total, Held;
    var s := View(queues, order);
    MinusView(queues, order, user, idx);
    MinusCounted(queues[user], idx);
    RemoveAtFacts(s, user, idx);
    RemoveAtTotal(s, user, idx, QueueModel.Bytes(Content));
    RemoveAtTotal(s, user, idx, QueueModel.Bytes(Handshake));
  }

  class OfflineQueue {
    const limits: Limits
    var queues: map<UserId, UserQueue>
    var order: seq<UserId>
    var contentBytes: nat
    var handshakeBytes: nat

    /** The queued messages and the insertion order, without the counters. */
    ghost function Contents(): Store
      reads this
    {
      View(queues, order)
    }

    ghost predicate Consistent()
      reads this
    {
      Agrees(queues, order, contentBytes, handshakeBytes)
    }

    ghost predicate Valid()
      reads this
    {
      Consistent() && Bounded(Contents(), limits)
    }

    constructor (limits: Limits)
      ensures Valid() && Contents() == EMPTY && this.limits == limits
    {
      this.limits := limits;
      queues, order := map[], [];
      contentBytes, handshakeBytes := 0, 0;
      new;
      assert Contents() == EMPTY;
    }

    function BytesOf(k: Kind): nat
      reads this
    {
      match k case Content => contentBytes case Handshake => handshakeBytes case Unbudgeted => 0
    }

    method ChargeTotal(k: Kind, bytes: nat)
      modifies `contentBytes, `handshakeBytes
      ensures contentBytes == old(contentBytes) + if k == Content then bytes else 0
      ensures handshakeBytes == old(handshakeBytes) + if k == Handshake then bytes else 0
    {
      match k {
        case Content => contentBytes := contentBytes + bytes;
        case Handshake => handshakeBytes := handshakeBytes + bytes;
        case Unbudgeted =>
      }
    }

    method CreditTotal(k: Kind, bytes: nat)
      requires k != Unbudgeted ==> bytes <= BytesOf(k)
      modifies `contentBytes, `handshakeBytes
      ensures contentBytes == old(contentBytes) - if k == Content then bytes else 0
      ensures handshakeBytes == old(handshakeBytes) - if k == Handshake then bytes else 0
    {
      match k {
        case Content => contentBytes := contentBytes - bytes;
        case Handshake => handshakeBytes := handshakeBytes - bytes;
        case Unbudgeted =>
      }
    }

    lemma CountersAre(k: Kind)
      requires Consistent()
      ensures BytesOf(k) == Total(Contents(), QueueModel.Bytes(k))
      ensures forall u :: u in queues ==> queues[u].Bytes(k) == Held(Queue(Contents(), u), QueueModel.Bytes(k))
    {
      var s := Contents();
      if k == Unbudgeted {
        forall u
          ensures Held(Queue(s, u), QueueModel.Bytes(k)) == 0
        {
          HeldPositive(Queue(s, u), k);
        }
        QueueProperties.SumAtMost(s, s.order, k, 0);
      }
    }

    method RemoveAt(user: UserId, idx: nat) returns (removed: bool)
      requires Consistent()
      modifies this
      ensures Consistent()
      ensures Contents() == QueueModel.RemoveAt(old(Contents()), user, idx)
      ensures removed == (idx < |Queue(old(Contents()), user)|)
    {
      hide QueueModel.RemoveAt, UserQueue.Counted, WellFormed, Total;
      if user !in queues || idx >= |queues[user].messages| {
        UnchangedByMissing(Contents(), user, idx);
        return false;
      }
      RemovalAgrees(queues, order, contentBytes, handshakeBytes, user, idx);
      MinusView(queues, order, user, idx);
      var queue := queues[user];
      var message := queue.messages[idx];
      var kind, bytes := MessageKind(message), MessageBytes(message);
      queue := queue.(messages := queue.messages[..idx] + queue.messages[idx + 1..]);
      queue := queue.Credit(kind, bytes);
      queues := queues[user := queue];
      CreditTotal(kind, bytes);
      if queue.messages == [] {
        queues := queues - {user};
        order := Sequences.Without(order, user);
        assert queues == old(queues) - {user};
      }
      removed := true;
    }

    method DropOldestOf(user: UserId, k: Kind) returns (dropped: bool)
      requires Consistent()
      modifies this
      ensures Consistent()
      ensures Contents() == DropOldest(old(Contents()), user, k)
      ensures dropped <==> FirstOf(Queue(old(Contents()), user), k) < |Queue(old(Contents()), user)|
    {
      if user !in queues {
        return false;
      }
      var idx := FirstOf(queues[user].messages, k);
      dropped := RemoveAt(user, idx);
    }

    /** A user holding the most `k` bytes, if any holds more than zero. */
    method LargestHolder(k: Kind) returns (best: Option<UserId>)
      requires Consistent()
      ensures best.Some? ==> QueueModel.LargestHolder(Contents(), k, best.value)
      ensures best.None? <==> Total(Contents(), QueueModel.Bytes(k)) == 0
    {
      CountersAre(k);
      best := None;
      var rest := queues.Keys;
      while rest != {}
        invariant rest <= queues.Keys
        invariant best.Some? ==> best.value in queues && queues[best.value].Bytes(k) > 0
        invariant forall u :: u in queues && u !in rest ==>
          queues[u].Bytes(k) <= if best.Some? then queues[best.value].Bytes(k) else 0
      {
        var u :| u in rest;
        rest := rest - {u};
        var held := queues[u].Bytes(k);
        if held > 0 && (best.None? || held >= queues[best.value].Bytes(k)) {
          best := Some(u);
        }
      }
      ghost var s := Contents();
      if best.Some? {
        SumBound(s, s.order, best.value, QueueModel.Bytes(k));
      } else {
        QueueProperties.SumAtMost(s, s.order, k, 0);
      }
    }

    method TrimToCap(user: UserId, maxPerUser: nat) returns (dropped: nat)
      requires Consistent()
      modifies this
      ensures Consistent()
      ensures Contents() == QueueModel.TrimToCap(old(Contents()), user, maxPerUser)
      ensures dropped == Max(|Queue(old(Contents()), user)| - maxPerUser, 0)
    {
      dropped := 0;
      while user in queues && |queues[user].messages| > maxPerUser
        invariant Consistent()
        invariant QueueModel.TrimToCap(Contents(), user, maxPerUser)
          == QueueModel.TrimToCap(old(Contents()), user, maxPerUser)
        invariant |Queue(Contents(), user)| + dropped == |Queue(old(Contents()), user)|
        invariant dropped > 0 ==> |Queue(Contents(), user)| >= maxPerUser
        decreases |Queue(Contents(), user)|
      {
        RemoveAtFacts(Contents(), user, 0);
        var removed := RemoveAt(user, 0);
        if !removed {
          break;
        }
        dropped := dropped + 1;
      }
    }

    method TrimUserBudget(user: UserId, k: Kind, needed: nat, cap: nat) returns (dropped: nat)
      requires Consistent()
      modifies this
      ensures Consistent()
      ensures Contents() == QueueModel.TrimUserBudget(old(Contents()), user, k, needed, cap)
      ensures dropped == |Queue(old(Contents()), user)| - |Queue(Contents(), user)|
    {
      hide Agrees, Total, WellFormed;
      dropped := 0;
      while (if user in queues then queues[user].Bytes(k) else 0) + needed > cap
        invariant Consistent()
        invariant QueueModel.TrimUserBudget(Contents(), user, k, needed, cap)
          == QueueModel.TrimUserBudget(old(Contents()), user, k, needed, cap)
        invariant |Queue(Contents(), user)| + dropped == |Queue(old(Contents()), user)|
        decreases |Queue(Contents(), user)|
      {
        CountersAre(k);
        AgreesWellFormed(queues, order, contentBytes, handshakeBytes);
        ghost var s := Contents();
        var ok := DropOldestOf(user, k);
        if !ok {
          break;
        }
        RemoveAtFacts(s, user, FirstOf(Queue(s, user), k));
        dropped := dropped + 1;
      }
      CountersAre(k);
    }

    /**
     Free space in the `k` budget. The loop always ends with the space free: while it is over
     budget somebody holds bytes, so neither early exit is ever taken.
     */
    method MakeRoom(k: Kind, needed: nat, budget: nat) returns (dropped: nat, ghost victims: seq<UserId>)
      requires Consistent() && needed <= budget
      modifies this
      ensures Consistent()
      ensures ValidVictims(old(Contents()), k, needed, budget, victims)
      ensures Contents() == DropEach(old(Contents()), k, victims)
      ensures Total(Contents(), QueueModel.Bytes(k)) + needed <= budget
      ensures dropped == |victims|
    {
      hide Agrees, Held, Total, WellFormed, DropOldest, View;
      dropped, victims := 0, [];
      CountersAre(k);
      while BytesOf(k) + needed > budget
        invariant Consistent()
        invariant BytesOf(k) == Total(Contents(), QueueModel.Bytes(k))
        invariant ValidVictims(old(Contents()), k, needed, budget, victims)
        invariant Contents() == DropEach(old(Contents()), k, victims)
        invariant dropped == |victims|
        decreases Total(Contents(), Messages)
      {
        AgreesWellFormed(queues, order, contentBytes, handshakeBytes);
        ghost var s := Contents();
        var victim := LargestHolder(k);
        QueueProperties.LargestHolderHasOne(s, k, victim.value);
        QueueProperties.DropOldestTotal(s, victim.value, k, Messages);
        var ok := DropOldestOf(victim.value, k);
        assert ok;
        ghost var before := victims;
        victims := victims + [victim.value];
        assert victims[..|victims| - 1] == before;
        dropped := dropped + 1;
        CountersAre(k);
      }
    }

    /**
     Evict the least recently inserted user at the user cap. The source loops, but the first
     pass always returns: the head of `order` is always tracked.
     */
    method EvictIfFull(maxUsers: nat) returns (evicted: Option<UserId>)
      requires Consistent()
      modifies this
      ensures Consistent()
      ensures (Contents(), evicted) == QueueModel.EvictIfFull(old(Contents()), maxUsers)
    {
      hide Agrees;
      assert Contents().queues.Keys == queues.Keys;
      if |queues| >= maxUsers {
        if order == [] {
          return None;
        }
        EvictAgrees(queues, order, contentBytes, handshakeBytes, maxUsers);
        var oldest := order[0];
        order := order[1..];
        var queue := queues[oldest];
        queues := queues - {oldest};
        contentBytes := contentBytes - queue.contentBytes;
        handshakeBytes := handshakeBytes - queue.handshakeBytes;
        return Some(oldest);
      }
      return None;
    }

    /** Append the message, tracking (and evicting for) a new user, and charge for it. */
    method Admit(user: UserId, message: ServerMessage) returns (evicted: Option<UserId>)
      requires Consistent()
      modifies this
      ensures Consistent()
      ensures (Contents(), evicted) == Append(old(Contents()), limits, user, message)
    {
      hide Agrees, Total, View, WellFormed, Held, QueueModel.EvictIfFull, MessageKind, MessageBytes;
      var kind, bytes := MessageKind(message), MessageBytes(message);
      evicted := None;
      ViewKeys(queues, order);
      if user in queues {
        AppendAgrees(queues, order, contentBytes, handshakeBytes, user, message);
      } else {
        evicted := EvictIfFull(limits.maxUsers);
        EvictTracksNobody(View(old(queues), old(order)), limits.maxUsers);
        ViewKeys(queues, order);
        assert user !in queues;
        AppendAgrees(queues, order, contentBytes, handshakeBytes, user, message);
        order := order + [user];
      }
      ChargeTotal(kind, bytes);
      var queue := if user in queues then queues[user] else UserQueue([], 0, 0);
      queue := queue.ChargeTo(kind, bytes);
      queues := queues[user := queue.(messages := queue.messages + [message])];
      assert [] + [message] == [message];
    }

    method Enqueue(user: UserId, message: ServerMessage)
      returns (out: EnqueueOutcome, ghost victims: seq<UserId>)
      requires Valid()
      modifies this
      ensures Valid()
      ensures ValidEnqueue(old(Contents()), limits, user, message, victims)
      ensures (Contents(), out) == QueueModel.Enqueue(old(Contents()), limits, user, message, victims)
    {
      hide Agrees, Bounded, ValidVictims, DropEach, Total, View, WellFormed, Append,
        QueueModel.TrimUserBudget, QueueModel.TrimToCap;
      ghost var was := Contents();
      AgreesWellFormed(queues, order, contentBytes, handshakeBytes);
      var kind, bytes := MessageKind(message), MessageBytes(message);
      if bytes > limits.PerUser(kind) || bytes > limits.Budget(kind) {
        return EnqueueOutcome(None, true, 0, 0), [];
      }
      var displaced := TrimUserBudget(user, kind, bytes, limits.PerUser(kind));
      var more;
      more, victims := MakeRoom(kind, bytes, limits.Budget(kind));
      displaced := displaced + more;
      var evicted := Admit(user, message);
      var trimmed := TrimToCap(user, limits.maxPerUser);
      out := EnqueueOutcome(evicted, false, displaced, trimmed);
      assert Contents() == QueueModel.Enqueue(was, limits, user, message, victims).0;
      QueueProperties.EnqueueBounded(was, limits, user, message, victims);
    }

    /** Hand over and forget everything queued for `user`, oldest first. */
    method Drain(user: UserId) returns (drained: seq<ServerMessage>)
      requires Valid()
      modifies this
      ensures Valid()
      ensures (Contents(), drained) == QueueModel.Drain(old(Contents()), user)
    {
      hide Agrees, Bounded;
      if user !in queues {
        return [];
      }
      AgreesWellFormed(queues, order, contentBytes, handshakeBytes);
      ForgetAgrees(queues, order, contentBytes, handshakeBytes, user);
      QueueProperties.DrainBounded(Contents(), limits, user);
      var queue := queues[user];
      queues := queues - {user};
      contentBytes := contentBytes - queue.contentBytes;
      handshakeBytes := handshakeBytes - queue.handshakeBytes;
      order := Sequences.Without(order, user);
      drained := queue.messages;
    }
  }

  lemma AgreesWellFormed(queues: map<UserId, UserQueue>, order: seq<UserId>, content: nat, handshake: nat)
    requires Agrees(queues, order, content, handshake)
    ensures WellFormed(View(queues, order))
  {
  }

  lemma ViewKeys(queues: map<UserId, UserQueue>, order: seq<UserId>)
    ensures View(queues, order).queues.Keys == queues.Keys && View(queues, order).order == order
    ensures forall u :: u in queues ==> View(queues, order).queues[u] == queues[u].messages
  {
  }

  lemma EvictTracksNobody(s: Store, maxUsers: nat)
    ensures QueueModel.EvictIfFull(s, maxUsers).0.queues.Keys <= s.queues.Keys
  {
  }

  lemma EvictAgrees(queues: map<UserId, UserQueue>, order: seq<UserId>, content: nat, handshake: nat, maxUsers: nat)
    requires Agrees(queues, order, content, handshake) && order != [] && |queues| >= maxUsers
    ensures order[0] in queues
    ensures queues[order[0]].contentBytes <= content && queues[order[0]].handshakeBytes <= handshake
    ensures View(queues - {order[0]}, order[1..]) == QueueModel.EvictIfFull(View(queues, order), maxUsers).0
    ensures Agrees(queues - {order[0]}, order[1..],
                   content - queues[order[0]].contentBytes, handshake - queues[order[0]].handshakeBytes)
  {
    hide Total, Held;
    ViewKeys(queues, order);
    assert order[0] in View(queues, order).queues;
    ForgetAgrees(queues, order, content, handshake, order[0]);
    QueueProperties.WithoutHead(order);
    assert View(queues - {order[0]}, order[1..]).queues == View(queues, order).queues - {order[0]};
  }

  /** Forgetting a whole user credits both aggregates with that user's counters. */
  lemma ForgetAgrees(queues: map<UserId, UserQueue>, order: seq<UserId>, content: nat, handshake: nat, user: UserId)
    requires Agrees(queues, order, content, handshake) && user in queues
    ensures queues[user].contentBytes <= content && queues[user].handshakeBytes <= handshake
    ensures View(queues - {user}, Sequences.Without(order, user)) == Drain(View(queues, order), user).0
    ensures Agrees(queues - {user}, Sequences.Without(order, user),
                   content - queues[user].contentBytes, handshake - queues[user].handshakeBytes)
  {
    var s := View(queues, order);
    var s' := Drain(s, user).0;
    assert View(queues - {user}, Sequences.Without(order, user)).queues == s'.queues;
    QueueProperties.DrainFacts(s, user);
    SumBound(s, order, user, QueueModel.Bytes(Content));
    SumBound(s, order, user, QueueModel.Bytes(Handshake));
    assert s' == Replace(s, user, []);
    ReplaceTotal(s, user, [], QueueModel.Bytes(Content));
    ReplaceTotal(s, user, [], QueueModel.Bytes(Handshake));
  }

  /** Appending to a store with room for one more user evicts nobody. */
  lemma AppendWithRoom(s: Store, u: UserId, m: ServerMessage)
    ensures Append(s, Limits(0, |s.queues| + 1, 0, 0, 0, 0), u, m)
      == (Store(s.queues[u := Queue(s, u) + [m]], if u in s.queues then s.order else s.order + [u]), None)
  {
    assert [] + [m] == [m];
  }

  function Charged(q: UserQueue, m: ServerMessage): UserQueue {
    q.ChargeTo(MessageKind(m), MessageBytes(m)).(messages := q.messages + [m])
  }

  lemma ChargedCounted(q: UserQueue, m: ServerMessage)
    requires q.Counted()
    ensures Charged(q, m).Counted()
  {
    hide Held;
    QueueProperties.HeldSnoc(q.messages, m, QueueModel.Bytes(Content));
    QueueProperties.HeldSnoc(q.messages, m, QueueModel.Bytes(Handshake));
  }

  function QueueOf(queues: map<UserId, UserQueue>, user: UserId): UserQueue {
    if user in queues then queues[user] else UserQueue([], 0, 0)
  }

  lemma ChargedView(queues: map<UserId, UserQueue>, order: seq<UserId>, order': seq<UserId>, user: UserId, m: ServerMessage)
    ensures View(queues[user := Charged(QueueOf(queues, user), m)], order')
      == Store(View(queues, order).queues[user := QueueOf(queues, user).messages + [m]], order')
    ensures Queue(View(queues, order), user) == QueueOf(queues, user).messages
  {
    assert View(queues[user := Charged(QueueOf(queues, user), m)], order').queues
      == View(queues, order).queues[user := QueueOf(queues, user).messages + [m]];
  }

  lemma EmptyQueueCounted(queues: map<UserId, UserQueue>, user: UserId)
    requires forall u :: u in queues ==> queues[u].Counted()
    ensures QueueOf(queues, user).Counted()
  {
  }

  /** Charging one appended message keeps every counter in agreement. */
  lemma AppendAgrees(queues: map<UserId, UserQueue>, order: seq<UserId>, content: nat, handshake: nat,
                     user: UserId, m: ServerMessage)
    requires Agrees(queues, order, content, handshake)
    ensures var q' := Charged(QueueOf(queues, user), m);
      var order' := if user in queues then order else order + [user];
      && View(queues[user := q'], order')
           == Store(View(queues, order).queues[user := QueueOf(queues, user).messages + [m]], order')
      && Agrees(queues[user := q'], order',
                content + Charge(m, QueueModel.Bytes(Content)), handshake + Charge(m, QueueModel.Bytes(Handshake)))
  {
    hide Total, WellFormed, View, UserQueue.Counted, Append, Charge, Charged, QueueOf;
    var s := View(queues, order);
    var roomy := Limits(0, |s.queues| + 1, 0, 0, 0, 0);
    ViewKeys(queues, order);
    EmptyQueueCounted(queues, user);
    ChargedCounted(QueueOf(queues, user), m);
    ChargedView(queues, order, if user in queues then order else order + [user], user, m);
    AppendWithRoom(s, user, m);
    QueueProperties.AppendTotal(s, roomy, user, m, QueueModel.Bytes(Content));
    QueueProperties.AppendTotal(s, roomy, user, m, QueueModel.Bytes(Handshake));
    QueueProperties.AppendFacts(s, roomy, user, m);
  }

  lemma UnchangedByMissing(s: Store, user: UserId, idx: nat)
    requires idx >= |Queue(s, user)|
    ensures QueueModel.RemoveAt(s, user, idx) == s
  {
  }
}
