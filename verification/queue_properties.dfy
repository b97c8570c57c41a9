/** What the offline queue promises, proved of the value model for every store and every run. */
module QueueProperties {
  import opened Common
  import opened Sequences
  import opened Protocol
  import opened QueueModel

  // ---------------------------------------------------------------- shedding oldest-first

  /** The messages of `q` that are (`same`) or are not (`!same`) of kind `k`, in order. */
  function Select(q: seq<ServerMessage>, k: Kind, same: bool): seq<ServerMessage> {
    if q == [] then []
    else if (MessageKind(q[0]) == k) == same then [q[0]] + Select(q[1..], k, same)
    else Select(q[1..], k, same)
  }

  lemma {:induction false} SelectConcat(p: seq<ServerMessage>, q: seq<ServerMessage>, k: Kind, same: bool)
    ensures Select(p + q, k, same) == Select(p, k, same) + Select(q, k, same)
  {
    if p == [] {
      assert p + q == q;
    } else {
      assert (p + q)[1..] == p[1..] + q;
      assert (p + q)[0] == p[0];
      SelectConcat(p[1..], q, k, same);
      var rest := Select(p[1..], k, same) + Select(q, k, same);
      assert Select(p + q, k, same) == if (MessageKind(p[0]) == k) == same then [p[0]] + rest else rest;
    }
  }

  lemma {:induction false} SelectNone(q: seq<ServerMessage>, k: Kind)
    requires forall i :: 0 <= i < |q| ==> MessageKind(q[i]) != k
    ensures Select(q, k, true) == []
  {
    if q != [] {
      SelectNone(q[1..], k);
    }
  }

  ghost predicate IsSuffix(a: seq<ServerMessage>, b: seq<ServerMessage>) {
    |a| <= |b| && a == b[|b| - |a|..]
  }

  /** `q'` is `q` with some of its oldest `k` messages dropped and nothing else touched. */
  ghost predicate QueueSheds(q: seq<ServerMessage>, q': seq<ServerMessage>, k: Kind) {
    && Subsequence(q', q)
    && Select(q', k, false) == Select(q, k, false)
    && IsSuffix(Select(q', k, true), Select(q, k, true))
  }

  /** Every user's queue has only shed oldest `k` messages. */
  ghost predicate Sheds(s: Store, s': Store, k: Kind) {
    && WellFormed(s')
    && s'.queues.Keys <= s.queues.Keys
    && (forall v :: QueueSheds(Queue(s, v), Queue(s', v), k))
  }

  lemma ShedsRefl(s: Store, k: Kind)
    requires WellFormed(s)
    ensures Sheds(s, s, k)
  {
    forall v
      ensures QueueSheds(Queue(s, v), Queue(s, v), k)
    {
      SubsequenceRefl(Queue(s, v));
    }
  }

  lemma ShedsTrans(s: Store, t: Store, r: Store, k: Kind)
    requires Sheds(s, t, k) && Sheds(t, r, k)
    ensures Sheds(s, r, k)
  {
    forall v
      ensures QueueSheds(Queue(s, v), Queue(r, v), k)
    {
      assert QueueSheds(Queue(s, v), Queue(t, v), k) && QueueSheds(Queue(t, v), Queue(r, v), k);
      SubsequenceTrans(Queue(r, v), Queue(t, v), Queue(s, v));
    }
  }

  lemma SelectSplit(p: seq<ServerMessage>, x: ServerMessage, r: seq<ServerMessage>, k: Kind, same: bool)
    ensures Select(p + r, k, same) == Select(p, k, same) + Select(r, k, same)
    ensures Select(p + ([x] + r), k, same) == Select(p, k, same)
      + if (MessageKind(x) == k) == same then [x] + Select(r, k, same) else Select(r, k, same)
  {
    SelectConcat(p, r, k, same);
    SelectConcat(p, [x] + r, k, same);
    assert ([x] + r)[1..] == r;
  }

  lemma FirstDropSelects(p: seq<ServerMessage>, x: ServerMessage, r: seq<ServerMessage>, k: Kind)
    requires MessageKind(x) == k && forall i :: 0 <= i < |p| ==> MessageKind(p[i]) != k
    ensures Select(p + r, k, false) == Select(p + ([x] + r), k, false)
    ensures IsSuffix(Select(p + r, k, true), Select(p + ([x] + r), k, true))
  {
    SelectSplit(p, x, r, k, false);
    SelectNone(p, k);
    SelectSplit(p, x, r, k, true);
    var rest := Select(r, k, true);
    assert [] + rest == rest && [] + ([x] + rest) == [x] + rest;
  }

  lemma SplitSheds(p: seq<ServerMessage>, x: ServerMessage, r: seq<ServerMessage>, k: Kind)
    requires MessageKind(x) == k && forall i :: 0 <= i < |p| ==> MessageKind(p[i]) != k
    ensures QueueSheds(p + ([x] + r), p + r, k)
  {
    FirstDropSelects(p, x, r, k);
    SubsequenceSuffix([x] + r, 1);
    assert ([x] + r)[1..] == r;
    SubsequencePrepend(p, r, [x] + r);
  }

  lemma FirstDropSheds(q: seq<ServerMessage>, k: Kind)
    requires FirstOf(q, k) < |q|
    ensures var i := FirstOf(q, k); QueueSheds(q, q[..i] + q[i + 1..], k)
  {
    hide Select, QueueSheds;
    var i := FirstOf(q, k);
    SplitSheds(q[..i], q[i], q[i + 1..], k);
    assert q == q[..i] + ([q[i]] + q[i + 1..]);
  }

  lemma DropOldestSheds(s: Store, u: UserId, k: Kind)
    requires WellFormed(s) && FirstOf(Queue(s, u), k) < |Queue(s, u)|
    ensures Sheds(s, DropOldest(s, u, k), k)
    ensures forall v :: v != u ==> Queue(DropOldest(s, u, k), v) == Queue(s, v)
    ensures |Queue(DropOldest(s, u, k), u)| == |Queue(s, u)| - 1
  {
    var s' := DropOldest(s, u, k);
    RemoveAtFacts(s, u, FirstOf(Queue(s, u), k));
    forall v
      ensures QueueSheds(Queue(s, v), Queue(s', v), k)
    {
      if v == u {
        FirstDropSheds(Queue(s, u), k);
      } else {
        SubsequenceRefl(Queue(s, v));
      }
    }
  }

  lemma DropOldestTotal(s: Store, u: UserId, k: Kind, w: Meter)
    requires WellFormed(s) && FirstOf(Queue(s, u), k) < |Queue(s, u)|
    ensures Total(DropOldest(s, u, k), w) <= Total(s, w)
    ensures w == Messages ==> Total(DropOldest(s, u, k), w) == Total(s, w) - 1
  {
    RemoveAtTotal(s, u, FirstOf(Queue(s, u), k), w);
  }

  /** The per-user trim stops with room under the cap, sheds only `u`'s oldest `k` messages. */
  lemma {:induction false} TrimUserBudgetFacts(s: Store, u: UserId, k: Kind, needed: nat, cap: nat)
    requires WellFormed(s) && needed <= cap
    ensures var s' := TrimUserBudget(s, u, k, needed, cap);
      && Sheds(s, s', k)
      && Held(Queue(s', u), Bytes(k)) + needed <= cap
      && (forall v :: v != u ==> Queue(s', v) == Queue(s, v))
    decreases |Queue(s, u)|
  {
    HeldPositive(Queue(s, u), k);
    if Held(Queue(s, u), Bytes(k)) + needed > cap {
      var t := DropOldest(s, u, k);
      DropOldestSheds(s, u, k);
      TrimUserBudgetFacts(t, u, k, needed, cap);
      ShedsTrans(s, t, TrimUserBudget(s, u, k, needed, cap), k);
    } else {
      ShedsRefl(s, k);
    }
  }

  lemma {:induction false} TrimUserBudgetTotal(s: Store, u: UserId, k: Kind, needed: nat, cap: nat, w: Meter)
    requires WellFormed(s) && needed <= cap
    ensures var s' := TrimUserBudget(s, u, k, needed, cap);
      && Total(s', w) <= Total(s, w)
      && (w == Messages ==> Total(s, w) - Total(s', w) == |Queue(s, u)| - |Queue(s', u)| >= 0)
    decreases |Queue(s, u)|
  {
    HeldPositive(Queue(s, u), k);
    if Held(Queue(s, u), Bytes(k)) + needed > cap {
      DropOldestSheds(s, u, k);
      DropOldestTotal(s, u, k, w);
      TrimUserBudgetTotal(DropOldest(s, u, k), u, k, needed, cap, w);
    }
  }

  lemma LargestHolderHasOne(s: Store, k: Kind, u: UserId)
    requires WellFormed(s) && LargestHolder(s, k, u)
    ensures FirstOf(Queue(s, u), k) < |Queue(s, u)|
  {
    HeldPositive(Queue(s, u), k);
  }

  lemma {:induction false} DropEachFacts(s: Store, k: Kind, needed: nat, budget: nat, victims: seq<UserId>)
    requires WellFormed(s) && ValidVictims(s, k, needed, budget, victims)
    ensures Sheds(s, DropEach(s, k, victims), k)
  {
    if victims == [] {
      ShedsRefl(s, k);
    } else {
      var before, u := victims[..|victims| - 1], victims[|victims| - 1];
      var t := DropEach(s, k, before);
      DropEachFacts(s, k, needed, budget, before);
      LargestHolderHasOne(t, k, u);
      DropOldestSheds(t, u, k);
      ShedsTrans(s, t, DropOldest(t, u, k), k);
    }
  }

  lemma {:induction false} DropEachTotal(
    s: Store, k: Kind, needed: nat, budget: nat, victims: seq<UserId>, w: Meter)
    requires WellFormed(s) && ValidVictims(s, k, needed, budget, victims)
    ensures Total(DropEach(s, k, victims), w) <= Total(s, w)
    ensures w == Messages ==> Total(DropEach(s, k, victims), w) == Total(s, w) - |victims|
  {
    if victims != [] {
      var before, u := victims[..|victims| - 1], victims[|victims| - 1];
      var t := DropEach(s, k, before);
      DropEachFacts(s, k, needed, budget, before);
      DropEachTotal(s, k, needed, budget, before, w);
      LargestHolderHasOne(t, k, u);
      DropOldestTotal(t, u, k, w);
    }
  }

  /**
   Kind isolation: the byte phase of an enqueue takes only messages of the enqueued kind, from
   the old end of each queue; every user's other-kind messages stay, in order.
   */
  lemma BytePhaseSheds(s: Store, lim: Limits, u: UserId, m: ServerMessage, victims: seq<UserId>)
    requires WellFormed(s) && !Refuses(lim, m) && ValidEnqueue(s, lim, u, m, victims)
    ensures Sheds(s, BytePhase(s, lim, u, m, victims), MessageKind(m))
  {
    var k, needed := MessageKind(m), MessageBytes(m);
    var s1 := Trimmed(s, lim, u, m);
    TrimUserBudgetFacts(s, u, k, needed, lim.PerUser(k));
    DropEachFacts(s1, k, needed, lim.Budget(k), victims);
    ShedsTrans(s, s1, BytePhase(s, lim, u, m, victims), k);
  }

  /** The byte phase leaves room for the message under its user's cap. */
  lemma BytePhaseUserRoom(s: Store, lim: Limits, u: UserId, m: ServerMessage, victims: seq<UserId>)
    requires WellFormed(s) && !Refuses(lim, m) && ValidEnqueue(s, lim, u, m, victims)
    ensures Held(Queue(BytePhase(s, lim, u, m, victims), u), Bytes(MessageKind(m))) + MessageBytes(m)
      <= lim.PerUser(MessageKind(m))
  {
    var k, needed := MessageKind(m), MessageBytes(m);
    var s1 := Trimmed(s, lim, u, m);
    var s2 := BytePhase(s, lim, u, m, victims);
    TrimUserBudgetFacts(s, u, k, needed, lim.PerUser(k));
    DropEachFacts(s1, k, needed, lim.Budget(k), victims);
    assert QueueSheds(Queue(s1, u), Queue(s2, u), k);
    SubsequenceHeld(Queue(s2, u), Queue(s1, u), Bytes(k));
  }

  /** It frees bytes and loses exactly the displaced messages that the outcome reports. */
  lemma BytePhaseTotal(s: Store, lim: Limits, u: UserId, m: ServerMessage, victims: seq<UserId>, w: Meter)
    requires WellFormed(s) && !Refuses(lim, m) && ValidEnqueue(s, lim, u, m, victims)
    ensures Total(BytePhase(s, lim, u, m, victims), w) <= Total(s, w)
    ensures w == Messages ==>
      Total(s, w) - Total(BytePhase(s, lim, u, m, victims), w) == Enqueue(s, lim, u, m, victims).1.displaced
  {
    hide DropEach, TrimUserBudget, ValidVictims, Total, Held, WellFormed, QueueSheds, Enqueue;
    DisplacedIs(s, lim, u, m, victims);
    var k, needed := MessageKind(m), MessageBytes(m);
    TrimUserBudgetFacts(s, u, k, needed, lim.PerUser(k));
    TrimUserBudgetTotal(s, u, k, needed, lim.PerUser(k), w);
    DropEachTotal(Trimmed(s, lim, u, m), k, needed, lim.Budget(k), victims, w);
  }

  lemma DisplacedIs(s: Store, lim: Limits, u: UserId, m: ServerMessage, victims: seq<UserId>)
    requires !Refuses(lim, m)
    ensures Enqueue(s, lim, u, m, victims).1.displaced
      == Max(|Queue(s, u)| - |Queue(Trimmed(s, lim, u, m), u)|, 0) + |victims|
  {
    hide Trimmed, BytePhase, Append, TrimToCap;
  }

  lemma {:induction false} SubsequenceHeld(a: seq<ServerMessage>, b: seq<ServerMessage>, w: Meter)
    requires Subsequence(a, b)
    ensures Held(a, w) <= Held(b, w)
    decreases |b|
  {
    if a != [] {
      if Subsequence(a, b[..|b| - 1]) {
        SubsequenceHeld(a, b[..|b| - 1], w);
      } else {
        SubsequenceHeld(a[..|a| - 1], b[..|b| - 1], w);
      }
    }
  }

  lemma {:induction false} SubsequenceLength<T>(a: seq<T>, b: seq<T>)
    requires Subsequence(a, b)
    ensures |a| <= |b|
    decreases |b|
  {
    if a != [] {
      if Subsequence(a, b[..|b| - 1]) {
        SubsequenceLength(a, b[..|b| - 1]);
      } else {
        SubsequenceLength(a[..|a| - 1], b[..|b| - 1]);
      }
    }
  }

  // ---------------------------------------------------------------- appending and the count ring

  lemma EvictFacts(s: Store, maxUsers: nat)
    requires WellFormed(s)
    ensures var (s', evicted) := EvictIfFull(s, maxUsers);
      && WellFormed(s')
      && (evicted.Some? ==> s.order != [] && evicted.value == s.order[0])
      && s'.queues == (if evicted.Some? then s.queues - {s.order[0]} else s.queues)
      && (|s.queues| <= Max(maxUsers, 1) ==> |s'.queues| < Max(maxUsers, 1))
  {
    var (s', evicted) := EvictIfFull(s, maxUsers);
    if evicted.Some? {
      WithoutHead(s.order);
      assert s'.queues.Keys == s.queues.Keys - {s.order[0]};
    } else {
      DistinctLength(s.order, s.queues.Keys);
    }
  }

  lemma WithoutHead(us: seq<UserId>)
    requires us != [] && Distinct(us)
    ensures Without(us, us[0]) == us[1..] && Distinct(us[1..]) && us[0] !in us[1..]
    ensures forall u :: u in us[1..] <==> u in us && u != us[0]
  {
    WithoutDistinct(us[1..], us[0]);
    assert us == [us[0]] + us[1..];
  }

  lemma EvictTotal(s: Store, maxUsers: nat, w: Meter)
    requires WellFormed(s)
    ensures var (s', evicted) := EvictIfFull(s, maxUsers);
      Total(s', w) == Total(s, w) - if evicted.Some? then Held(Queue(s, evicted.value), w) else 0
  {
    var (s', evicted) := EvictIfFull(s, maxUsers);
    if evicted.Some? {
      var e := s.order[0];
      WithoutHead(s.order);
      SumWithout(s, s.order, e, w);
      SumUpdate(s, s', s.order[1..], e, w);
    }
  }

  lemma PushUser(t: Store, u: UserId, q: seq<ServerMessage>)
    requires WellFormed(t) && u !in t.queues && q != []
    ensures WellFormed(Store(t.queues[u := q], t.order + [u]))
  {
    var s' := Store(t.queues[u := q], t.order + [u]);
    assert Distinct(s'.order) by {
      assert forall i :: 0 <= i < |t.order| ==> t.order[i] in t.queues;
    }
  }

  /** Appending for `u` relates the stores `s` and `s'`, with `evicted` gone. */
  ghost predicate Appends(s: Store, s': Store, evicted: Option<UserId>, u: UserId, m: ServerMessage) {
    && WellFormed(s')
    && Queue(s', u) == Queue(s, u) + [m]
    && (forall v :: v != u ==> Queue(s', v) == if evicted == Some(v) then [] else Queue(s, v))
    && (evicted.Some? ==> s.order != [] && evicted.value == s.order[0] && evicted.value != u)
  }

  lemma AppendTracked(s: Store, u: UserId, m: ServerMessage)
    requires WellFormed(s) && u in s.queues
    ensures Appends(s, s.(queues := s.queues[u := s.queues[u] + [m]]), None, u, m)
  {
    assert s.queues[u := s.queues[u] + [m]].Keys == s.queues.Keys;
  }

  lemma HeadTracked(s: Store)
    requires WellFormed(s) && s.order != []
    ensures s.order[0] in s.queues
  {
  }

  lemma AppendNew(s: Store, maxUsers: nat, u: UserId, m: ServerMessage)
    requires WellFormed(s) && u !in s.queues
    ensures var t := EvictIfFull(s, maxUsers);
      Appends(s, Store(t.0.queues[u := [m]], t.0.order + [u]), t.1, u, m)
  {
    hide WellFormed, EvictIfFull;
    if s.order != [] {
      HeadTracked(s);
    }
    EvictFacts(s, maxUsers);
    var t := EvictIfFull(s, maxUsers).0;
    PushUser(t, u, [m]);
    assert Queue(s, u) + [m] == [m];
  }

  lemma AppendFacts(s: Store, lim: Limits, u: UserId, m: ServerMessage)
    requires WellFormed(s)
    ensures Appends(s, Append(s, lim, u, m).0, Append(s, lim, u, m).1, u, m)
  {
    if u in s.queues {
      AppendTracked(s, u, m);
    } else {
      AppendNew(s, lim.maxUsers, u, m);
    }
  }

  lemma AppendUserBound(s: Store, lim: Limits, u: UserId, m: ServerMessage)
    requires WellFormed(s) && |s.queues| <= Max(lim.maxUsers, 1)
    ensures |Append(s, lim, u, m).0.queues| <= Max(lim.maxUsers, 1)
  {
    var s' := Append(s, lim, u, m).0;
    if u in s.queues {
      assert s'.queues.Keys == s.queues.Keys;
    } else {
      EvictFacts(s, lim.maxUsers);
      assert s'.queues.Keys == EvictIfFull(s, lim.maxUsers).0.queues.Keys + {u};
    }
  }

  lemma AppendTotal(s: Store, lim: Limits, u: UserId, m: ServerMessage, w: Meter)
    requires WellFormed(s)
    ensures var (s', evicted) := Append(s, lim, u, m);
      Total(s', w) == Total(s, w) + Charge(m, w)
        - if evicted.Some? then Held(Queue(s, evicted.value), w) else 0
  {
    var (s', evicted) := Append(s, lim, u, m);
    HeldSnoc(Queue(s, u), m, w);
    if u in s.queues {
      SumUpdate(s, s', s.order, u, w);
    } else {
      var t := EvictIfFull(s, lim.maxUsers).0;
      EvictFacts(s, lim.maxUsers);
      EvictTotal(s, lim.maxUsers, w);
      SumUpdate(t, s', t.order, u, w);
      assert s'.order[..|s'.order| - 1] == t.order;
      assert Queue(s', u) == [] + [m];
    }
  }

  lemma HeldSnoc(q: seq<ServerMessage>, m: ServerMessage, w: Meter)
    ensures Held(q + [m], w) == Held(q, w) + Charge(m, w)
  {
    assert (q + [m])[..|q|] == q;
  }

  lemma DropFirstFacts(s: Store, u: UserId)
    requires WellFormed(s) && Queue(s, u) != []
    ensures var s' := RemoveAt(s, u, 0);
      && WellFormed(s')
      && Queue(s', u) == Queue(s, u)[1..]
      && (forall v :: v != u ==> Queue(s', v) == Queue(s, v))
      && s'.queues.Keys <= s.queues.Keys
  {
    hide RemoveAt, WellFormed, Queue;
    var q := Queue(s, u);
    RemoveAtFacts(s, u, 0);
    assert q[..0] + q[1..] == q[1..];
  }

  lemma TailOfTail(q: seq<ServerMessage>, cap: nat)
    requires |q| > cap
    ensures q[1..][Max(|q[1..]| - cap, 0)..] == q[Max(|q| - cap, 0)..]
  {
  }

  lemma {:induction false} TrimToCapFacts(s: Store, u: UserId, cap: nat)
    requires WellFormed(s)
    ensures var s' := TrimToCap(s, u, cap);
      && WellFormed(s')
      && Queue(s', u) == Queue(s, u)[Max(|Queue(s, u)| - cap, 0)..]
      && (forall v :: v != u ==> Queue(s', v) == Queue(s, v))
      && s'.queues.Keys <= s.queues.Keys
    decreases |Queue(s, u)|
  {
    hide RemoveAt, WellFormed, Queue;
    if |Queue(s, u)| > cap {
      DropFirstFacts(s, u);
      TrimToCapFacts(RemoveAt(s, u, 0), u, cap);
      TailOfTail(Queue(s, u), cap);
    }
  }

  lemma {:induction false} TrimToCapTotal(s: Store, u: UserId, cap: nat, w: Meter)
    requires WellFormed(s)
    ensures Total(TrimToCap(s, u, cap), w) <= Total(s, w)
    ensures w == Messages ==>
      Total(TrimToCap(s, u, cap), w) == Total(s, w) - Max(|Queue(s, u)| - cap, 0)
    decreases |Queue(s, u)|
  {
    if |Queue(s, u)| > cap {
      RemoveAtFacts(s, u, 0);
      RemoveAtTotal(s, u, 0, w);
      TrimToCapTotal(RemoveAt(s, u, 0), u, cap, w);
    }
  }

  // ---------------------------------------------------------------- what one enqueue promises

  /** The bookkeeping invariant survives every enqueue. */
  lemma EnqueueWellFormed(s: Store, lim: Limits, u: UserId, m: ServerMessage, victims: seq<UserId>)
    requires WellFormed(s) && ValidEnqueue(s, lim, u, m, victims)
    ensures WellFormed(Enqueue(s, lim, u, m, victims).0)
  {
    if !Refuses(lim, m) {
      BytePhaseSheds(s, lim, u, m, victims);
      AppendFacts(BytePhase(s, lim, u, m, victims), lim, u, m);
      TrimToCapFacts(Append(BytePhase(s, lim, u, m, victims), lim, u, m).0, u, lim.maxPerUser);
    }
  }

  /** The three stores an admitted enqueue passes through, and how each relates to the next. */
  lemma EnqueueStages(s: Store, lim: Limits, u: UserId, m: ServerMessage, victims: seq<UserId>)
    returns (s2: Store, s3: Store, evicted: Option<UserId>, s': Store)
    requires WellFormed(s) && ValidEnqueue(s, lim, u, m, victims) && !Refuses(lim, m)
    ensures s2 == BytePhase(s, lim, u, m, victims) && WellFormed(s2)
    ensures s3 == Append(s2, lim, u, m).0 && evicted == Append(s2, lim, u, m).1
    ensures s' == TrimToCap(s3, u, lim.maxPerUser) && s' == Enqueue(s, lim, u, m, victims).0
    ensures WellFormed(s')
    ensures forall v :: Subsequence(Queue(s2, v), Queue(s, v))
    ensures Appends(s2, s3, evicted, u, m)
    ensures forall v :: v != u ==> Queue(s', v) == Queue(s3, v)
    ensures Queue(s', u) == Queue(s3, u)[Max(|Queue(s3, u)| - lim.maxPerUser, 0)..]
    ensures evicted == Enqueue(s, lim, u, m, victims).1.evictedUser
  {
    hide BytePhase, Append, Subsequence, Appends, ValidEnqueue;
    s2 := BytePhase(s, lim, u, m, victims);
    s3, evicted := Append(s2, lim, u, m).0, Append(s2, lim, u, m).1;
    s' := TrimToCap(s3, u, lim.maxPerUser);
    BytePhaseSheds(s, lim, u, m, victims);
    AppendFacts(s2, lim, u, m);
    TrimToCapFacts(s3, u, lim.maxPerUser);
    forall v
      ensures Subsequence(Queue(s2, v), Queue(s, v))
    {
      assert QueueSheds(Queue(s, v), Queue(s2, v), MessageKind(m));
    }
  }

  lemma HeldRing(q: seq<ServerMessage>, m: ServerMessage, n: nat, w: Meter)
    requires n <= |q| + 1
    ensures Held((q + [m])[n..], w) <= Held(q, w) + Charge(m, w)
  {
    HeldSnoc(q, m, w);
    SubsequenceSuffix(q + [m], n);
    SubsequenceHeld((q + [m])[n..], q + [m], w);
  }

  lemma EnqueueOwnHeld(s2: Store, s3: Store, s': Store, lim: Limits, u: UserId, m: ServerMessage, j: Kind)
    requires Queue(s3, u) == Queue(s2, u) + [m]
    requires Queue(s', u) == Queue(s3, u)[Max(|Queue(s3, u)| - lim.maxPerUser, 0)..]
    requires Held(Queue(s2, u), Bytes(j)) + Charge(m, Bytes(j)) <= lim.PerUser(j)
    ensures Held(Queue(s', u), Bytes(j)) <= lim.PerUser(j)
  {
    HeldRing(Queue(s2, u), m, Max(|Queue(s3, u)| - lim.maxPerUser, 0), Bytes(j));
  }

  lemma EnqueueHeldBounded(s: Store, lim: Limits, u: UserId, m: ServerMessage, victims: seq<UserId>,
                           v: UserId, j: Kind)
    requires WellFormed(s) && Bounded(s, lim) && ValidEnqueue(s, lim, u, m, victims) && !Refuses(lim, m)
    ensures Held(Queue(Enqueue(s, lim, u, m, victims).0, v), Bytes(j)) <= lim.PerUser(j)
  {
    hide Enqueue, BytePhase, Append, TrimToCap, Total;
    var s2, s3, evicted, s' := EnqueueStages(s, lim, u, m, victims);
    SubsequenceHeld(Queue(s2, v), Queue(s, v), Bytes(j));
    if v == u {
      BytePhaseUserRoom(s, lim, u, m, victims);
      EnqueueOwnHeld(s2, s3, s', lim, u, m, j);
    } else {
      assert Queue(s', v) == Queue(s3, v);
    }
  }

  lemma EnqueueTotalBounded(s: Store, lim: Limits, u: UserId, m: ServerMessage, victims: seq<UserId>, j: Kind)
    requires WellFormed(s) && Bounded(s, lim) && ValidEnqueue(s, lim, u, m, victims) && !Refuses(lim, m)
    ensures Total(Enqueue(s, lim, u, m, victims).0, Bytes(j)) <= lim.Budget(j)
  {
    var s2, s3, evicted, s' := EnqueueStages(s, lim, u, m, victims);
    BytePhaseTotal(s, lim, u, m, victims, Bytes(j));
    AppendTotal(s2, lim, u, m, Bytes(j));
    TrimToCapTotal(s3, u, lim.maxPerUser, Bytes(j));
    assert Total(s2, Bytes(j)) <= Total(s, Bytes(j));
  }

  /**
   Room is always made: whatever the traffic, an enqueue leaves every aggregate budget, every
   per-user byte cap, the message count cap and the user cap respected.
   */
  lemma EnqueueBounded(s: Store, lim: Limits, u: UserId, m: ServerMessage, victims: seq<UserId>)
    requires WellFormed(s) && Bounded(s, lim) && ValidEnqueue(s, lim, u, m, victims)
    ensures Bounded(Enqueue(s, lim, u, m, victims).0, lim)
  {
    hide BytePhase, Append, TrimToCap, Held, Total;
    if !Refuses(lim, m) {
      var s2, s3, evicted, s' := EnqueueStages(s, lim, u, m, victims);
      forall v, j
        ensures Held(Queue(s', v), Bytes(j)) <= lim.PerUser(j)
      {
        EnqueueHeldBounded(s, lim, u, m, victims, v, j);
      }
      forall v
        ensures |Queue(s', v)| <= lim.maxPerUser
      {
        SubsequenceLength(Queue(s2, v), Queue(s, v));
      }
      forall j
        ensures Total(s', Bytes(j)) <= lim.Budget(j)
      {
        EnqueueTotalBounded(s, lim, u, m, victims, j);
      }
      EnqueueUserBound(s, lim, u, m, victims);
    }
  }

  lemma EnqueueUserBound(s: Store, lim: Limits, u: UserId, m: ServerMessage, victims: seq<UserId>)
    requires WellFormed(s) && ValidEnqueue(s, lim, u, m, victims) && !Refuses(lim, m)
    requires |s.queues| <= Max(lim.maxUsers, 1)
    ensures |Enqueue(s, lim, u, m, victims).0.queues| <= Max(lim.maxUsers, 1)
  {
    var s2, s3, evicted, s' := EnqueueStages(s, lim, u, m, victims);
    BytePhaseSheds(s, lim, u, m, victims);
    AppendFacts(s2, lim, u, m);
    TrimToCapFacts(s3, u, lim.maxPerUser);
    SubsetSize(s2.queues.Keys, s.queues.Keys);
    AppendUserBound(s2, lim, u, m);
    SubsetSize(s'.queues.Keys, s3.queues.Keys);
  }

  lemma {:induction false} SubsetSize<T>(a: set<T>, b: set<T>)
    requires a <= b
    ensures |a| <= |b|
  {
    assert b == a + (b - a);
  }

  /** An admitted message ends as `u`'s newest, behind an in-order part of what was there. */
  lemma EnqueueNewest(s: Store, lim: Limits, u: UserId, m: ServerMessage, victims: seq<UserId>)
    requires WellFormed(s) && ValidEnqueue(s, lim, u, m, victims) && !Refuses(lim, m)
    ensures var q := Queue(Enqueue(s, lim, u, m, victims).0, u);
      && (lim.maxPerUser > 0 ==> q != [] && q[|q| - 1] == m)
      && Subsequence(q, Queue(s, u) + [m])
  {
    var s2, s3, evicted, s' := EnqueueStages(s, lim, u, m, victims);
    var n := Max(|Queue(s3, u)| - lim.maxPerUser, 0);
    SubsequenceSnoc(Queue(s2, u), Queue(s, u), m);
    SubsequenceSuffix(Queue(s3, u), n);
    SubsequenceTrans(Queue(s', u), Queue(s3, u), Queue(s, u) + [m]);
  }

  /** Every other user's queue keeps an in-order part of its messages. */
  lemma EnqueueOthers(s: Store, lim: Limits, u: UserId, m: ServerMessage, victims: seq<UserId>, v: UserId)
    requires WellFormed(s) && ValidEnqueue(s, lim, u, m, victims) && v != u
    ensures Subsequence(Queue(Enqueue(s, lim, u, m, victims).0, v), Queue(s, v))
  {
    if Refuses(lim, m) {
      SubsequenceRefl(Queue(s, v));
    } else {
      var s2, s3, evicted, s' := EnqueueStages(s, lim, u, m, victims);
      assert Queue(s', v) == Queue(s3, v);
    }
  }

  /** Whoever is evicted is the least recently inserted user the byte phase left, never `u`. */
  lemma EnqueueEvictsOldest(s: Store, lim: Limits, u: UserId, m: ServerMessage, victims: seq<UserId>)
    requires WellFormed(s) && ValidEnqueue(s, lim, u, m, victims)
    requires Enqueue(s, lim, u, m, victims).1.evictedUser.Some?
    ensures var gone := Enqueue(s, lim, u, m, victims).1.evictedUser.value;
      var s2 := BytePhase(s, lim, u, m, victims);
      && gone != u
      && |s2.order| > 0 && gone == s2.order[0]
      && Queue(Enqueue(s, lim, u, m, victims).0, gone) == []
      && |s2.queues| >= lim.maxUsers
  {
    var s2, s3, evicted, s' := EnqueueStages(s, lim, u, m, victims);
    assert Queue(s', evicted.value) == Queue(s3, evicted.value);
  }

  /** A user with nothing queued is never evicted by an enqueue for somebody else. */
  lemma EnqueueSparesUntracked(s: Store, lim: Limits, u: UserId, m: ServerMessage, victims: seq<UserId>, v: UserId)
    requires WellFormed(s) && ValidEnqueue(s, lim, u, m, victims) && v != u && Queue(s, v) == []
    ensures Enqueue(s, lim, u, m, victims).1.evictedUser != Some(v)
    ensures Queue(Enqueue(s, lim, u, m, victims).0, v) == []
  {
    hide Enqueue, ValidEnqueue, BytePhase;
    EnqueueOthers(s, lim, u, m, victims, v);
    if Enqueue(s, lim, u, m, victims).1.evictedUser == Some(v) {
      RefusalEvictsNobody(s, lim, u, m, victims);
      EnqueueEvictsOldest(s, lim, u, m, victims);
      BytePhaseSheds(s, lim, u, m, victims);
      HeadTracked(BytePhase(s, lim, u, m, victims));
    }
  }

  /** Nor is anybody evicted while the user cap has room for the user enqueued for. */
  lemma EnqueueWithRoom(s: Store, lim: Limits, u: UserId, m: ServerMessage, victims: seq<UserId>)
    requires WellFormed(s) && ValidEnqueue(s, lim, u, m, victims) && |s.queues.Keys + {u}| <= lim.maxUsers
    ensures Enqueue(s, lim, u, m, victims).1.evictedUser.None?
    ensures Enqueue(s, lim, u, m, victims).0.queues.Keys <= s.queues.Keys + {u}
  {
    hide BytePhase, TrimToCap, ValidEnqueue, WellFormed, Trimmed;
    if !Refuses(lim, m) {
      var s2 := BytePhase(s, lim, u, m, victims);
      BytePhaseSheds(s, lim, u, m, victims);
      SubsetSize(s2.queues.Keys + {u}, s.queues.Keys + {u});
      AppendFacts(s2, lim, u, m);
      TrimToCapFacts(Append(s2, lim, u, m).0, u, lim.maxPerUser);
    }
  }

  lemma RefusalEvictsNobody(s: Store, lim: Limits, u: UserId, m: ServerMessage, victims: seq<UserId>)
    ensures Refuses(lim, m) ==> Enqueue(s, lim, u, m, victims).1.evictedUser.None?
  {
  }

  /**
   Conservation: the number of queued messages changes by exactly the one that came in, minus
   the displaced and trimmed ones the outcome reports, minus the evicted user's whole queue.
   */
  lemma EnqueueConserves(s: Store, lim: Limits, u: UserId, m: ServerMessage, victims: seq<UserId>)
    requires WellFormed(s) && ValidEnqueue(s, lim, u, m, victims) && !Refuses(lim, m)
    ensures var out := Enqueue(s, lim, u, m, victims).1;
      Total(Enqueue(s, lim, u, m, victims).0, Messages)
        == Total(s, Messages) + 1 - out.displaced - out.trimmed
           - if out.evictedUser.Some? then |Queue(BytePhase(s, lim, u, m, victims), out.evictedUser.value)| else 0
  {
    var s2, s3, evicted, s' := EnqueueStages(s, lim, u, m, victims);
    BytePhaseTotal(s, lim, u, m, victims, Messages);
    AppendTotal(s2, lim, u, m, Messages);
    TrimToCapTotal(s3, u, lim.maxPerUser, Messages);
    if evicted.Some? {
      HeldMessages(Queue(s2, evicted.value));
    }
  }

  lemma DrainFacts(s: Store, u: UserId)
    requires WellFormed(s)
    ensures var (s', out) := Drain(s, u);
      && WellFormed(s') && out == Queue(s, u) && Queue(s', u) == []
      && (forall v :: v != u ==> Queue(s', v) == Queue(s, v))
      && s'.queues.Keys <= s.queues.Keys
  {
    if u in s.queues {
      ReplaceFacts(s, u, []);
      assert Replace(s, u, []) == Drain(s, u).0;
    }
  }

  // ---------------------------------------------------------------- fair share

  ghost function HoldersAmong(s: Store, us: seq<UserId>, k: Kind): set<UserId> {
    set u | u in us && Held(Queue(s, u), Bytes(k)) > 0
  }

  /** The users holding any bytes of kind `k`. */
  ghost function Holders(s: Store, k: Kind): set<UserId> {
    HoldersAmong(s, s.order, k)
  }

  lemma MulMono(a: nat, b: nat, c: nat)
    requires a <= b
    ensures a * c <= b * c
  {
  }

  lemma MulStep(a: nat, c: nat)
    ensures (a + 1) * c == a * c + c
  {
  }

  lemma HoldersSnoc(s: Store, us: seq<UserId>, u: UserId, k: Kind)
    requires u !in us
    ensures |HoldersAmong(s, us + [u], k)|
      == |HoldersAmong(s, us, k)| + if Held(Queue(s, u), Bytes(k)) > 0 then 1 else 0
  {
    var a := HoldersAmong(s, us, k);
    if Held(Queue(s, u), Bytes(k)) > 0 {
      assert HoldersAmong(s, us + [u], k) == a + {u};
    } else {
      assert HoldersAmong(s, us + [u], k) == a;
    }
  }

  lemma {:induction false} SumAtMost(s: Store, us: seq<UserId>, k: Kind, most: nat)
    requires Distinct(us)
    requires forall u :: u in us ==> Held(Queue(s, u), Bytes(k)) <= most
    ensures Sum(s, us, Bytes(k)) <= |HoldersAmong(s, us, k)| * most
  {
    if us != [] {
      var us', u := us[..|us| - 1], us[|us| - 1];
      assert us == us' + [u];
      SumAtMost(s, us', k, most);
      HoldersSnoc(s, us', u, k);
      var n, held := |HoldersAmong(s, us', k)|, Held(Queue(s, u), Bytes(k));
      assert held <= most;
      var n' := |HoldersAmong(s, us, k)|;
      assert n' == n + if held > 0 then 1 else 0;
      MulStep(n, most);
    }
  }

  /** When kind-`k` bytes are queued, somebody holds the most of them. */
  lemma NobodyHoldsNothing(s: Store, k: Kind)
    requires WellFormed(s) && Total(s, Bytes(k)) > 0
    ensures exists u :: u in s.queues && Held(s.queues[u], Bytes(k)) > 0
  {
    if forall u :: u in s.queues ==> Held(s.queues[u], Bytes(k)) == 0 {
      SumAtMost(s, s.order, k, 0);
    }
  }

  /** A victim over a full budget holds more than an even share of it. */
  lemma OverBudgetVictimNotModest(t: Store, k: Kind, needed: nat, budget: nat, u: UserId, n: nat)
    requires WellFormed(t) && LargestHolder(t, k, u) && |Holders(t, k)| <= n
    requires Total(t, Bytes(k)) + needed > budget
    ensures Held(Queue(t, u), Bytes(k)) * n > budget - needed
  {
    var most := Held(Queue(t, u), Bytes(k));
    SumAtMost(t, t.order, k, most);
    MulMono(|Holders(t, k)|, n, most);
  }

  lemma {:induction false} ModestNeverPicked(
    s: Store, k: Kind, needed: nat, budget: nat, victims: seq<UserId>, v: UserId)
    requires WellFormed(s) && ValidVictims(s, k, needed, budget, victims)
    requires Held(Queue(s, v), Bytes(k)) * |Holders(s, k)| <= budget - needed
    ensures v !in victims
    ensures Queue(DropEach(s, k, victims), v) == Queue(s, v)
  {
    hide DropOldest, Total, Held, Holders;
    if victims != [] {
      var before, u := victims[..|victims| - 1], victims[|victims| - 1];
      var t := DropEach(s, k, before);
      assert victims == before + [u];
      ModestNeverPicked(s, k, needed, budget, before, v);
      DropEachFacts(s, k, needed, budget, before);
      LargestHolderHasOne(t, k, u);
      DropOldestSheds(t, u, k);
      HoldersShrink(s, t, k);
      OverBudgetVictimNotModest(t, k, needed, budget, u, |Holders(s, k)|);
    }
  }

  lemma HoldersShrink(s: Store, t: Store, k: Kind)
    requires WellFormed(s) && Sheds(s, t, k)
    ensures |Holders(t, k)| <= |Holders(s, k)|
  {
    forall u | u in Holders(t, k)
      ensures u in Holders(s, k)
    {
      assert QueueSheds(Queue(s, u), Queue(t, u), k);
      SubsequenceHeld(Queue(t, u), Queue(s, u), Bytes(k));
    }
    SubsetSize(Holders(t, k), Holders(s, k));
  }

  /**
   Fair share: with n users holding bytes of the enqueued kind when aggregate eviction starts,
   a user holding at most (budget - needed) / n of them loses nothing to it.
   */
  lemma FairShare(s: Store, lim: Limits, u: UserId, m: ServerMessage, victims: seq<UserId>, v: UserId)
    requires WellFormed(s) && !Refuses(lim, m) && ValidEnqueue(s, lim, u, m, victims)
    requires var k, entry := MessageKind(m), Trimmed(s, lim, u, m);
      Held(Queue(entry, v), Bytes(k)) * |Holders(entry, k)| <= lim.Budget(k) - MessageBytes(m)
    ensures Queue(BytePhase(s, lim, u, m, victims), v) == Queue(Trimmed(s, lim, u, m), v)
    ensures v != u ==> Queue(BytePhase(s, lim, u, m, victims), v) == Queue(s, v)
  {
    var k := MessageKind(m);
    TrimUserBudgetFacts(s, u, k, MessageBytes(m), lim.PerUser(k));
    ModestNeverPicked(Trimmed(s, lim, u, m), k, MessageBytes(m), lim.Budget(k), victims, v);
  }

  // ---------------------------------------------------------------- whole runs

  datatype Operation =
    | EnqueueOp(user: UserId, message: ServerMessage, victims: seq<UserId>)
    | DrainOp(user: UserId)

  function Apply(s: Store, lim: Limits, op: Operation): Store {
    match op
    case EnqueueOp(u, m, victims) => Enqueue(s, lim, u, m, victims).0
    case DrainOp(u) => Drain(s, u).0
  }

  function RunOf(lim: Limits, ops: seq<Operation>): Store {
    if ops == [] then EMPTY else Apply(RunOf(lim, ops[..|ops| - 1]), lim, ops[|ops| - 1])
  }

  ghost predicate ValidRun(lim: Limits, ops: seq<Operation>) {
    ops == [] ||
    var before, op := ops[..|ops| - 1], ops[|ops| - 1];
    && ValidRun(lim, before)
    && (op.EnqueueOp? ==> ValidEnqueue(RunOf(lim, before), lim, op.user, op.message, op.victims))
  }

  /** Everything the run was asked to enqueue for `u`, in order. */
  function Offered(ops: seq<Operation>, u: UserId): seq<ServerMessage> {
    if ops == [] then []
    else
      var op := ops[|ops| - 1];
      Offered(ops[..|ops| - 1], u) + if op.EnqueueOp? && op.user == u then [op.message] else []
  }

  /** Everything the run's drains handed to `u`, in order. */
  function Delivered(lim: Limits, ops: seq<Operation>, u: UserId): seq<ServerMessage> {
    if ops == [] then []
    else
      var op := ops[|ops| - 1];
      Delivered(lim, ops[..|ops| - 1], u)
        + if op == DrainOp(u) then Queue(RunOf(lim, ops[..|ops| - 1]), u) else []
  }

  /**
   Over any run from the empty queue the bookkeeping and every limit hold, and what was
   delivered to a user followed by what is still queued for it is an in-order part of what was
   offered for it: nothing is duplicated, reordered or invented.
   */
  lemma {:induction false} QueueRunSafe(lim: Limits, ops: seq<Operation>, u: UserId)
    requires ValidRun(lim, ops)
    ensures WellFormed(RunOf(lim, ops)) && Bounded(RunOf(lim, ops), lim)
    ensures Subsequence(Delivered(lim, ops, u) + Queue(RunOf(lim, ops), u), Offered(ops, u))
  {
    if ops != [] {
      var before, op := ops[..|ops| - 1], ops[|ops| - 1];
      var s := RunOf(lim, before);
      QueueRunSafe(lim, before, u);
      StepSafe(s, lim, op);
      StepFifo(s, lim, op, u, Delivered(lim, before, u), Offered(before, u));
    }
  }

  lemma DrainBounded(s: Store, lim: Limits, u: UserId)
    requires WellFormed(s) && Bounded(s, lim)
    ensures Bounded(Drain(s, u).0, lim)
  {
    var s' := Drain(s, u).0;
    DrainFacts(s, u);
    SubsetSize(s'.queues.Keys, s.queues.Keys);
    forall k
      ensures Total(s', Bytes(k)) <= lim.Budget(k)
    {
      if u in s.queues {
        ReplaceTotal(s, u, [], Bytes(k));
        assert s' == Replace(s, u, []);
      }
    }
  }

  lemma StepSafe(s: Store, lim: Limits, op: Operation)
    requires WellFormed(s) && Bounded(s, lim)
    requires op.EnqueueOp? ==> ValidEnqueue(s, lim, op.user, op.message, op.victims)
    ensures WellFormed(Apply(s, lim, op)) && Bounded(Apply(s, lim, op), lim)
  {
    hide Enqueue, Bounded, WellFormed;
    match op
    case EnqueueOp(u, m, victims) =>
      EnqueueWellFormed(s, lim, u, m, victims);
      EnqueueBounded(s, lim, u, m, victims);
    case DrainOp(u) =>
      DrainFacts(s, u);
      DrainBounded(s, lim, u);
  }

  lemma StepFifo(s: Store, lim: Limits, op: Operation, u: UserId,
                 delivered: seq<ServerMessage>, offered: seq<ServerMessage>)
    requires WellFormed(s)
    requires op.EnqueueOp? ==> ValidEnqueue(s, lim, op.user, op.message, op.victims)
    requires Subsequence(delivered + Queue(s, u), offered)
    ensures var d' := delivered + if op == DrainOp(u) then Queue(s, u) else [];
      var o' := offered + if op.EnqueueOp? && op.user == u then [op.message] else [];
      Subsequence(d' + Queue(Apply(s, lim, op), u), o')
  {
    assert delivered + [] == delivered && offered + [] == offered;
    match op
    case EnqueueOp(v, m, victims) =>
      if v == u {
        EnqueueOwnFifo(s, lim, u, m, victims, delivered, offered);
      } else {
        var q' := Queue(Apply(s, lim, op), u);
        EnqueueOthers(s, lim, v, m, victims, u);
        SubsequencePrepend(delivered, q', Queue(s, u));
        SubsequenceTrans(delivered + q', delivered + Queue(s, u), offered);
      }
    case DrainOp(v) =>
      DrainFacts(s, v);
      if v == u {
        var all := delivered + Queue(s, u);
        assert all + [] == all;
      }
  }

  lemma EnqueueOwnFifo(s: Store, lim: Limits, u: UserId, m: ServerMessage, victims: seq<UserId>,
                       delivered: seq<ServerMessage>, offered: seq<ServerMessage>)
    requires WellFormed(s) && ValidEnqueue(s, lim, u, m, victims)
    requires Subsequence(delivered + Queue(s, u), offered)
    ensures Subsequence(delivered + Queue(Enqueue(s, lim, u, m, victims).0, u), offered + [m])
  {
    hide Subsequence, WellFormed, ValidEnqueue, Queue;
    var q := Queue(s, u);
    SubsequenceSnoc(delivered + q, offered, m);
    if !Refuses(lim, m) {
      hide QueueModel.Enqueue;
      var q' := Queue(Enqueue(s, lim, u, m, victims).0, u);
      EnqueueNewest(s, lim, u, m, victims);
      SubsequencePrepend(delivered, q', q + [m]);
      assert delivered + (q + [m]) == (delivered + q) + [m];
      SubsequenceTrans(delivered + q', (delivered + q) + [m], offered + [m]);
    }
  }
}
