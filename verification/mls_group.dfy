/**
 Group membership and anchor rotation of crates/collab-core/src/mls.rs over an abstract MLS group:
 a list of leaves, an epoch, and one exporter-derived key per epoch (section 8.5 of RFC 9420).
 Removals blank leaves, then adds take the leftmost blank leaf (section 12.1.1 of RFC 9420).
 */
module MlsGroup {
  import opened Common
  import opened Protocol
  import opened Capability
  import opened Sequences

  type Leaves = seq<Option<UserId>>

  // ---------------------------------------------------------------- the tree

  /** Index of the leftmost blank leaf, or the number of leaves if none is blank. */
  function FirstBlank(leaves: Leaves): (i: nat)
    ensures i <= |leaves|
    ensures i < |leaves| ==> leaves[i].None?
    ensures forall j :: 0 <= j < i ==> leaves[j].Some?
  {
    if leaves == [] || leaves[0].None? then 0 else 1 + FirstBlank(leaves[1..])
  }

  function AddLeaf(leaves: Leaves, user: UserId): Leaves {
    var i := FirstBlank(leaves);
    if i < |leaves| then leaves[i := Some(user)] else leaves + [Some(user)]
  }

  function AddLeaves(leaves: Leaves, users: seq<UserId>): Leaves {
    if users == [] then leaves else AddLeaf(AddLeaves(leaves, users[..|users| - 1]), users[|users| - 1])
  }

  function Blank(leaves: Leaves, removed: set<nat>): Leaves {
    seq(|leaves|, i requires 0 <= i < |leaves| => if i in removed then None else leaves[i])
  }

  /** `find_member_leaf`: the first leaf with this identity. */
  function FindLeaf(leaves: Leaves, user: UserId): (r: Option<nat>)
    ensures r.Some? ==> r.value < |leaves| && leaves[r.value] == Some(user)
    ensures r.Some? ==> forall j :: 0 <= j < r.value ==> leaves[j] != Some(user)
    ensures r.None? <==> Some(user) !in leaves
  {
    if leaves == [] then None
    else if leaves[0] == Some(user) then Some(0)
    else
      var r := FindLeaf(leaves[1..], user);
      if r.Some? then Some(r.value + 1) else None
  }

  /** MLS puts no uniqueness constraint on credential identities; this says it holds. */
  ghost predicate UniqueIdentities(leaves: Leaves) {
    forall i, j :: 0 <= i < j < |leaves| && leaves[i].Some? ==> leaves[i] != leaves[j]
  }

  ghost function Identities(leaves: Leaves): set<UserId> {
    set l | l in leaves && l.Some? :: l.value
  }

  /** Adding keeps identities unique exactly when the newcomer is not yet a member. */
  lemma AddLeafUniqueExact(leaves: Leaves, user: UserId)
    ensures UniqueIdentities(AddLeaf(leaves, user)) <==> UniqueIdentities(leaves) && Some(user) !in leaves
    ensures Identities(AddLeaf(leaves, user)) == Identities(leaves) + {user}
    ensures forall i :: 0 <= i < |leaves| && leaves[i].Some? ==> AddLeaf(leaves, user)[i] == leaves[i]
  {
    AddLeafUnique(leaves, user);
    AddLeafIdentities(leaves, user);
  }

  /**
   An add seats the newcomer in the leftmost blank leaf, or in a new last one when none is blank,
   and leaves every other leaf as it was.
   */
  lemma AddLeafLeftmost(leaves: Leaves, user: UserId) returns (i: nat)
    ensures i <= |leaves| && (forall j :: 0 <= j < i ==> leaves[j].Some?) && (i < |leaves| ==> leaves[i].None?)
    ensures var after := AddLeaf(leaves, user);
      && |after| == (if i < |leaves| then |leaves| else |leaves| + 1)
      && after[i] == Some(user)
      && (forall j :: 0 <= j < |leaves| && j != i ==> after[j] == leaves[j])
  {
    i := FirstBlank(leaves);
  }

  /** Removing leaves blanks exactly those and moves nobody. */
  lemma BlankExact(leaves: Leaves, removed: set<nat>, i: nat)
    requires i < |leaves|
    ensures |Blank(leaves, removed)| == |leaves|
    ensures Blank(leaves, removed)[i] == if i in removed then None else leaves[i]
  {
  }

  lemma AddLeafUnique(leaves: Leaves, user: UserId)
    ensures UniqueIdentities(AddLeaf(leaves, user)) <==> UniqueIdentities(leaves) && Some(user) !in leaves
  {
    var i, after := FirstBlank(leaves), AddLeaf(leaves, user);
    assert after[i] == Some(user);
    if Some(user) in leaves {
      var k :| 0 <= k < |leaves| && leaves[k] == Some(user);
      assert after[k] == after[i] && k != i;
    }
    if !UniqueIdentities(leaves) {
      var a, b :| 0 <= a < b < |leaves| && leaves[a].Some? && leaves[a] == leaves[b];
      assert after[a] == after[b];
    }
  }

  lemma AddLeafIdentities(leaves: Leaves, user: UserId)
    ensures Identities(AddLeaf(leaves, user)) == Identities(leaves) + {user}
  {
    var i, after := FirstBlank(leaves), AddLeaf(leaves, user);
    assert after[i] == Some(user);
    forall l | l in leaves && l.Some?
      ensures l in after
    {
      var k :| 0 <= k < |leaves| && leaves[k] == l;
      assert after[k] == l;
    }
  }

  /** Blanking keeps uniqueness, and keeps the identities of the leaves it spares. */
  lemma BlankUnique(leaves: Leaves, removed: set<nat>)
    requires UniqueIdentities(leaves)
    ensures UniqueIdentities(Blank(leaves, removed))
  {
  }

  /**
   One `remove_member` blanks one leaf. The removed identity keeps another leaf, and with it a seat
   in the group, exactly when it held at least two.
   */
  lemma RemovalExact(leaves: Leaves, user: UserId)
    requires Some(user) in leaves
    ensures var leaf := FindLeaf(leaves, user).value;
      Some(user) in Blank(leaves, {leaf}) <==>
        exists i, j :: 0 <= i < j < |leaves| && leaves[i] == leaves[j] == Some(user)
  {
    hide FindLeaf;
    var leaf := FindLeaf(leaves, user).value;
    var after := Blank(leaves, {leaf});
    if Some(user) in after {
      var k :| 0 <= k < |after| && after[k] == Some(user);
      assert leaf < k && leaves[leaf] == leaves[k] == Some(user);
    }
    if i, j :| 0 <= i < j < |leaves| && leaves[i] == leaves[j] == Some(user) {
      assert j != leaf && after[j] == Some(user);
    }
  }

  /** With unique identities one removal cuts the member off and touches nobody else. */
  lemma UniqueRemoval(leaves: Leaves, user: UserId)
    requires UniqueIdentities(leaves) && Some(user) in leaves
    ensures var after := Blank(leaves, {FindLeaf(leaves, user).value});
      && UniqueIdentities(after)
      && Identities(after) == Identities(leaves) - {user}
  {
    var leaf := FindLeaf(leaves, user).value;
    var after := Blank(leaves, {leaf});
    RemovalExact(leaves, user);
    forall u | u in Identities(leaves) && u != user
      ensures u in Identities(after)
    {
      var k :| 0 <= k < |leaves| && leaves[k] == Some(u);
      assert after[k] == Some(u);
    }
    forall u | u in Identities(after)
      ensures u in Identities(leaves) && u != user
    {
      var k :| 0 <= k < |after| && after[k] == Some(u);
      assert leaves[k] == Some(u);
    }
  }

  // ---------------------------------------------------------------- commits

  datatype Commit = Commit(epoch: nat, committer: nat, removed: set<nat>, added: seq<UserId>)

  /** What the MLS library checks of any commit before handing it over. */
  predicate WellFormedCommit(leaves: Leaves, epoch: nat, c: Commit) {
    && c.epoch == epoch
    && c.committer < |leaves| && leaves[c.committer].Some?
    && c.committer !in c.removed
    && (forall i :: i in c.removed ==> i < |leaves| && leaves[i].Some?)
  }

  function ApplyCommit(leaves: Leaves, c: Commit): Leaves {
    AddLeaves(Blank(leaves, c.removed), c.added)
  }

  lemma {:induction false} AddLeavesKeepOccupied(leaves: Leaves, users: seq<UserId>, i: nat)
    requires i < |leaves| && leaves[i].Some?
    ensures i < |AddLeaves(leaves, users)| && AddLeaves(leaves, users)[i] == leaves[i]
  {
    if users != [] {
      AddLeavesKeepOccupied(leaves, users[..|users| - 1], i);
      AddLeafUniqueExact(AddLeaves(leaves, users[..|users| - 1]), users[|users| - 1]);
    }
  }

  /** A list of adds keeps identities unique exactly when it repeats nobody and re-adds no member. */
  lemma {:induction false} AddLeavesUniqueExact(leaves: Leaves, users: seq<UserId>)
    ensures UniqueIdentities(AddLeaves(leaves, users)) <==>
      UniqueIdentities(leaves) && Distinct(users) && forall u :: u in users ==> Some(u) !in leaves
    ensures Identities(AddLeaves(leaves, users)) == Identities(leaves) + set u | u in users
  {
    hide AddLeaf, UniqueIdentities;
    if users != [] {
      var front, last := users[..|users| - 1], users[|users| - 1];
      assert users == front + [last];
      var before := AddLeaves(leaves, front);
      AddLeavesUniqueExact(leaves, front);
      AddLeafUniqueExact(before, last);
      IdentitiesAre(before, last);
      IdentitiesAre(leaves, last);
    }
  }

  /**
   What any member's commit does to unique identities: they survive exactly when no added identity
   is repeated or is still seated after the commit's removals.
   */
  lemma CommitUniqueExact(leaves: Leaves, c: Commit)
    requires UniqueIdentities(leaves)
    ensures UniqueIdentities(ApplyCommit(leaves, c)) <==>
      Distinct(c.added) && forall u :: u in c.added ==> Some(u) !in Blank(leaves, c.removed)
    ensures Identities(ApplyCommit(leaves, c)) == Identities(Blank(leaves, c.removed)) + set u | u in c.added
  {
    BlankUnique(leaves, c.removed);
    AddLeavesUniqueExact(Blank(leaves, c.removed), c.added);
  }

  lemma SingleAdd(leaves: Leaves, user: UserId)
    ensures AddLeaves(Blank(leaves, {}), [user]) == AddLeaf(leaves, user)
  {
    assert Blank(leaves, {}) == leaves;
    assert [user][..0] == [];
  }

  // ---------------------------------------------------------------- anchor rotation

  /** One key per epoch; different epochs have different keys. */
  ghost predicate Injective(exporter: u64 -> PublicKey) {
    forall e, e' :: exporter(e) == exporter(e') ==> e == e'
  }

  datatype AnchorRotation =
    AnchorRotation(epoch: u64, publicKey: PublicKey, proof: Signature, rotationProof: Signature)

  /** The rotation every member of the outgoing epoch derives for the commit leading to `epoch`. */
  function RotationTo(exporter: u64 -> PublicKey, doc: DocId, epoch: u64): AnchorRotation
    requires epoch > 0
  {
    var key := exporter(epoch);
    AnchorRotation(epoch, key,
      Signed(key, RegisterProofBytes(doc, epoch)),
      Signed(exporter(epoch - 1), RotationProofBytes(doc, epoch, key)))
  }

  datatype GroupError = MlsError

  datatype KeyPackage = ValidPackage(identity: UserId) | InvalidPackage

  /** What a Welcome tells the joiner: the group it joins and its own leaf. */
  datatype Welcome = Welcome(leaves: Leaves, epoch: u64, leaf: nat)

  predicate Seats(w: Welcome, user: UserId) {
    w.leaf < |w.leaves| && w.leaves[w.leaf] == Some(user) && w.leaves[0].Some?
  }

  // ---------------------------------------------------------------- one member's group as a value

  /**
   The owner's admission gate (`admits` in plugins/obsidian-ee/src/collab-client.ts): an empty list
   admits nobody, and an identity already in the group is refused.
   */
  predicate Admits(leaves: Leaves, allowed: seq<UserId>, package: KeyPackage) {
    && allowed != []
    && package.ValidPackage?
    && package.identity in allowed
    && FindLeaf(leaves, package.identity).None?
  }

  /** Whose copy of the group it is, and the leaf that copy speaks from. */
  datatype Member = Member(user: UserId, owner: UserId, leaf: nat)

  /** `active` is false once this member's own removal was merged: no key is derivable any more. */
  datatype GroupState = GroupState(leaves: Leaves, epoch: nat, active: bool)

  /** `Add` is the library's ungated call, `Answer` the owner's gated one, `Restore` a snapshot round trip. */
  datatype GroupOp =
    | Add(package: KeyPackage)
    | Answer(package: KeyPackage, allowed: seq<UserId>)
    | Remove(user: UserId)
    | Follow(commit: Commit)
    | Restore

  /** The commits of other members that `process_commit` merges. */
  predicate Merges(me: Member, g: GroupState, c: Commit) {
    && g.active && c.committer != me.leaf
    && WellFormedCommit(g.leaves, g.epoch, c)
    && (c.removed != {} ==> g.leaves[c.committer] == Some(me.owner) && 0 !in c.removed)
  }

  function GroupStep(me: Member, g: GroupState, op: GroupOp): GroupState {
    match op
    case Add(package) =>
      if g.active && package.ValidPackage? then g.(leaves := AddLeaf(g.leaves, package.identity), epoch := g.epoch + 1) else g
    case Answer(package, allowed) =>
      if g.active && me.user == me.owner && Admits(g.leaves, allowed, package) then
        g.(leaves := AddLeaf(g.leaves, package.identity), epoch := g.epoch + 1)
      else g
    case Remove(u) =>
      if g.active && me.user == me.owner && u != me.owner && FindLeaf(g.leaves, u).Some? then
        g.(leaves := Blank(g.leaves, {FindLeaf(g.leaves, u).value}), epoch := g.epoch + 1)
      else g
    case Follow(c) =>
      if Merges(me, g, c) then GroupState(ApplyCommit(g.leaves, c), g.epoch + 1, me.leaf !in c.removed) else g
    case Restore => g
  }

  /** The owner holds leaf 0, and an active member its own leaf. */
  ghost predicate Seated(me: Member, g: GroupState) {
    && |g.leaves| > 0 && g.leaves[0] == Some(me.owner)
    && (g.active ==> me.leaf < |g.leaves| && g.leaves[me.leaf] == Some(me.user))
  }

  class MlsDocumentGroup {
    const userId: UserId
    const ownerId: UserId
    /** This member's own leaf, fixed for as long as it is a member. */
    const ownLeaf: nat
    /** The group's exporter: the subscribe key each epoch's secret yields. */
    const exporter: u64 -> PublicKey
    var leaves: Leaves
    var epoch: u64
    /** False once this member's own removal was merged: no key is derivable any more. */
    var active: bool

    /** The owner holds leaf 0. */
    ghost predicate Valid()
      reads this
    {
      && Injective(exporter)
      && Seated(Me(), State())
    }

    function Me(): Member {
      Member(userId, ownerId, ownLeaf)
    }

    function State(): GroupState
      reads this
    {
      GroupState(leaves, epoch, active)
    }

    constructor Create(user: UserId, exporter: u64 -> PublicKey)
      requires Injective(exporter)
      ensures Valid() && userId == ownerId == user && this.exporter == exporter
      ensures leaves == [Some(user)] && epoch == 0 && active
    {
      userId, ownerId, ownLeaf, this.exporter := user, user, 0, exporter;
      leaves, epoch, active := [Some(user)], 0, true;
    }

    /** The last step of `join` and of `from_parts`: the owner is whoever holds leaf 0. */
    constructor Adopt(user: UserId, leaf: nat, leaves: Leaves, epoch: u64, exporter: u64 -> PublicKey)
      requires Injective(exporter)
      requires leaf < |leaves| && leaves[leaf] == Some(user) && leaves[0].Some?
      ensures Valid() && userId == user && ownerId == leaves[0].value && this.exporter == exporter
      ensures this.leaves == leaves && this.epoch == epoch && active
    {
      userId, ownerId, ownLeaf, this.exporter := user, leaves[0].value, leaf, exporter;
      this.leaves, this.epoch, active := leaves, epoch, true;
    }

    /** Join from any Welcome at all: refused unless it seats this joiner and somebody in leaf 0. */
    static method Join(user: UserId, welcome: Option<Welcome>, exporter: u64 -> PublicKey)
      returns (result: Result<MlsDocumentGroup, GroupError>)
      requires Injective(exporter)
      ensures result.Ok? <==> welcome.Some? && Seats(welcome.value, user)
      ensures result.Ok? ==>
        && fresh(result.value) && result.value.Valid() && result.value.userId == user
        && result.value.leaves == welcome.value.leaves && result.value.epoch == welcome.value.epoch
    {
      if welcome.None? || !Seats(welcome.value, user) {
        return Err(MlsError);
      }
      var w := welcome.value;
      var group := new MlsDocumentGroup.Adopt(user, w.leaf, w.leaves, w.epoch, exporter);
      return Ok(group);
    }

    predicate IsOwner() {
      userId == ownerId
    }

    function FindMemberLeaf(user: UserId): Option<nat>
      reads this
    {
      FindLeaf(leaves, user)
    }

    predicate IsMember(user: UserId)
      reads this
      ensures IsMember(user) <==> Some(user) in leaves
    {
      FindMemberLeaf(user).Some?
    }

    function DeriveSubscribeKey(): Result<PublicKey, GroupError>
      reads this
    {
      if active then Ok(exporter(epoch)) else Err(MlsError)
    }

    /** Refuses to rotate to the outgoing key, which an evicted member still holds. */
    function Rotation(doc: DocId, outgoing: PublicKey): Result<AnchorRotation, GroupError>
      reads this
    {
      var key := DeriveSubscribeKey();
      if key.Err? then Err(MlsError)
      else if key.value == outgoing then Err(MlsError)
      else Ok(AnchorRotation(epoch, key.value,
        Signed(key.value, RegisterProofBytes(doc, epoch)),
        Signed(outgoing, RotationProofBytes(doc, epoch, key.value))))
    }

    method AddMember(package: KeyPackage, doc: DocId)
      returns (result: Result<(Commit, Welcome, AnchorRotation), GroupError>)
      requires Valid() && epoch < U64_LIMIT - 1
      modifies this
      ensures Valid()
      ensures State() == GroupStep(Me(), old(State()), Add(package))
      ensures result.Ok? <==> old(active) && package.ValidPackage?
      ensures result.Err? ==> leaves == old(leaves) && epoch == old(epoch) && active == old(active)
      ensures result.Ok? ==>
        var (commit, welcome, rotation) := result.value;
        && Some(commit) == CommitOf(Me(), old(State()), Add(package))
        && leaves == AddLeaf(old(leaves), package.identity) && epoch == old(epoch) + 1 && active
        && WellFormedCommit(old(leaves), old(epoch), commit) && commit.removed == {}
        && leaves == ApplyCommit(old(leaves), commit)
        && welcome.leaves == leaves && welcome.epoch == epoch && Seats(welcome, package.identity)
        && rotation == RotationTo(exporter, doc, epoch)
    {
      hide UniqueIdentities, Identities, RegisterProofBytes, RotationProofBytes;
      var outgoing := DeriveSubscribeKey();
      if outgoing.Err? || package.InvalidPackage? {
        return Err(MlsError);
      }
      var commit := Commit.Commit(epoch, ownLeaf, {}, [package.identity]);
      var leaf := FirstBlank(leaves);
      SingleAdd(leaves, package.identity);
      AddLeafUniqueExact(leaves, package.identity);
      leaves := AddLeaf(leaves, package.identity);
      epoch := epoch + 1;
      var rotation := Rotation(doc, outgoing.value);
      return Ok((commit, Welcome.Welcome(leaves, epoch, leaf), rotation.value));
    }

    /** Owner-only; never the owner; exactly one leaf of the named identity goes. */
    method RemoveMember(member: UserId, doc: DocId) returns (result: Result<(Commit, AnchorRotation), GroupError>)
      requires Valid() && epoch < U64_LIMIT - 1
      modifies this
      ensures Valid()
      ensures State() == GroupStep(Me(), old(State()), Remove(member))
      ensures result.Ok? <==> old(active) && IsOwner() && member != ownerId && Some(member) in old(leaves)
      ensures result.Err? ==> leaves == old(leaves) && epoch == old(epoch) && active == old(active)
      ensures result.Ok? ==>
        var (commit, rotation) := result.value;
        && Some(commit) == CommitOf(Me(), old(State()), Remove(member))
        && leaves == Blank(old(leaves), {FindLeaf(old(leaves), member).value}) && epoch == old(epoch) + 1 && active
        && WellFormedCommit(old(leaves), old(epoch), commit)
        && old(leaves)[commit.committer] == Some(ownerId) && 0 !in commit.removed
        && leaves == ApplyCommit(old(leaves), commit)
        && rotation == RotationTo(exporter, doc, epoch)
    {
      if !IsOwner() || member == ownerId {
        return Err(MlsError);
      }
      var leaf := FindMemberLeaf(member);
      if leaf.None? {
        return Err(MlsError);
      }
      var outgoing := DeriveSubscribeKey();
      if outgoing.Err? {
        return Err(MlsError);
      }
      var commit := Commit.Commit(epoch, ownLeaf, {leaf.value}, []);
      leaves := Blank(leaves, {leaf.value});
      epoch := epoch + 1;
      var rotation := Rotation(doc, outgoing.value);
      return Ok((commit, rotation.value));
    }

    /**
     Follow any commit another member sends. A removal is honoured only from the owner's identity
     and never of leaf 0. Merging our own removal leaves the group advanced but inactive, so the
     call fails after it has changed the state.
     */
    method ProcessCommit(commit: Commit, doc: DocId) returns (result: Result<AnchorRotation, GroupError>)
      requires Valid() && epoch < U64_LIMIT - 1
      modifies this
      ensures Valid()
      ensures State() == GroupStep(Me(), old(State()), Follow(commit))
      ensures (epoch == old(epoch) + 1 && leaves == ApplyCommit(old(leaves), commit))
        || (epoch == old(epoch) && leaves == old(leaves) && active == old(active) && result.Err?)
      ensures epoch != old(epoch) <==>
        && old(active)
        && commit.committer != ownLeaf
        && WellFormedCommit(old(leaves), old(epoch), commit)
        && (commit.removed != {} ==> old(leaves)[commit.committer] == Some(ownerId) && 0 !in commit.removed)
      ensures epoch != old(epoch) ==> active == (ownLeaf !in commit.removed)
      ensures result.Ok? <==> epoch != old(epoch) && active
      ensures result.Ok? ==> result.value == RotationTo(exporter, doc, epoch)
    {
      var outgoing := DeriveSubscribeKey();
      if outgoing.Err? {
        return Err(MlsError);
      }
      // The library refuses a member's own commit along with every malformed one.
      if commit.committer == ownLeaf || !WellFormedCommit(leaves, epoch, commit) {
        return Err(MlsError);
      }
      var isRemoval := commit.removed != {};
      if isRemoval && leaves[commit.committer] != Some(ownerId) {
        return Err(MlsError);
      }
      if isRemoval && 0 in commit.removed {
        return Err(MlsError);
      }
      AddLeavesKeepOccupied(Blank(leaves, commit.removed), commit.added, 0);
      if ownLeaf !in commit.removed {
        AddLeavesKeepOccupied(Blank(leaves, commit.removed), commit.added, ownLeaf);
      }
      leaves := ApplyCommit(leaves, commit);
      epoch := epoch + 1;
      active := ownLeaf !in commit.removed;
      result := Rotation(doc, outgoing.value);
    }

    /** A capability for this epoch; the expiry saturates instead of wrapping. */
    method MintSubscribeCapability(user: UserId, doc: DocId, now: u64, ttl: u64)
      returns (result: Result<SubscribeCapability, GroupError>)
      requires Valid()
      ensures result.Ok? <==> active
      ensures result.Ok? ==>
        && result.value == SignCapability(exporter(epoch), user, doc, epoch, Min(now + ttl, U64_LIMIT - 1))
        && VerifyCapability(result.value, exporter(epoch), user, doc, epoch, now).Ok?
    {
      var key := DeriveSubscribeKey();
      if key.Err? {
        return Err(MlsError);
      }
      var expiry := Min(now + ttl, U64_LIMIT - 1);
      return Ok(SignCapability(key.value, user, doc, epoch, expiry));
    }
  }

  // ---------------------------------------------------------------- whole histories

  /** The group after a run of operations from any start: created, joined or restored. */
  function GroupRun(me: Member, start: GroupState, ops: seq<GroupOp>): GroupState {
    if ops == [] then start else GroupStep(me, GroupRun(me, start, ops[..|ops| - 1]), ops[|ops| - 1])
  }

  lemma StepStaysSeated(me: Member, g: GroupState, op: GroupOp)
    requires Seated(me, g)
    ensures Seated(me, GroupStep(me, g, op))
    ensures me.leaf == 0 && g.active ==> GroupStep(me, g, op).active
  {
    hide UniqueIdentities, Identities;
    match op
    case Add(package) =>
      if package.ValidPackage? {
        AddLeafUniqueExact(g.leaves, package.identity);
      }
    case Answer(package, _) =>
      if package.ValidPackage? {
        AddLeafUniqueExact(g.leaves, package.identity);
      }
    case Remove(u) =>
    case Follow(c) => FollowStaysSeated(me, g, c);
    case Restore =>
  }

  lemma FollowStaysSeated(me: Member, g: GroupState, c: Commit)
    requires Seated(me, g)
    ensures Seated(me, GroupStep(me, g, Follow(c)))
    ensures me.leaf == 0 && g.active ==> GroupStep(me, g, Follow(c)).active
  {
    if Merges(me, g, c) {
      AddLeavesKeepOccupied(Blank(g.leaves, c.removed), c.added, 0);
      if me.leaf !in c.removed {
        AddLeavesKeepOccupied(Blank(g.leaves, c.removed), c.added, me.leaf);
      }
    }
  }

  /**
   Owner leaf: in every run of adds, removals, followed commits and restores, from any seated
   start, leaf 0 stays the owner's, and a member in leaf 0 is never evicted.
   */
  lemma {:induction false} OwnerLeafStays(me: Member, start: GroupState, ops: seq<GroupOp>)
    requires Seated(me, start)
    ensures Seated(me, GroupRun(me, start, ops))
    ensures me.leaf == 0 && start.active ==> GroupRun(me, start, ops).active
  {
    hide GroupStep, Seated;
    if ops != [] {
      OwnerLeafStays(me, start, ops[..|ops| - 1]);
      StepStaysSeated(me, GroupRun(me, start, ops[..|ops| - 1]), ops[|ops| - 1]);
    }
  }

  /** The operation seats nobody twice: a check its maker or its follower could run before applying it. */
  ghost predicate Clean(me: Member, g: GroupState, op: GroupOp) {
    match op
    case Add(package) => g.active && package.ValidPackage? ==> Some(package.identity) !in g.leaves
    case Follow(c) =>
      Merges(me, g, c) ==> Distinct(c.added) && forall u :: u in c.added ==> Some(u) !in Blank(g.leaves, c.removed)
    case _ => true
  }

  lemma StepUniqueExact(me: Member, g: GroupState, op: GroupOp)
    requires UniqueIdentities(g.leaves)
    ensures UniqueIdentities(GroupStep(me, g, op).leaves) <==> Clean(me, g, op)
  {
    hide UniqueIdentities, Identities, AddLeaf, ApplyCommit;
    match op
    case Add(package) =>
      if package.ValidPackage? {
        AddLeafUniqueExact(g.leaves, package.identity);
      }
    case Answer(package, _) =>
      if package.ValidPackage? {
        AddLeafUniqueExact(g.leaves, package.identity);
      }
    case Remove(u) =>
      if FindLeaf(g.leaves, u).Some? {
        BlankUnique(g.leaves, {FindLeaf(g.leaves, u).value});
      }
    case Follow(c) => CommitUniqueExact(g.leaves, c);
    case Restore =>
  }

  /** Identities are pairwise distinct at every point of the run. */
  ghost predicate AlwaysUnique(me: Member, start: GroupState, ops: seq<GroupOp>) {
    && UniqueIdentities(GroupRun(me, start, ops).leaves)
    && (ops == [] || AlwaysUnique(me, start, ops[..|ops| - 1]))
  }

  ghost predicate AlwaysClean(me: Member, start: GroupState, ops: seq<GroupOp>) {
    ops == [] ||
    (AlwaysClean(me, start, ops[..|ops| - 1]) && Clean(me, GroupRun(me, start, ops[..|ops| - 1]), ops[|ops| - 1]))
  }

  /**
   Unique identities: from a start without double seats, identities stay pairwise distinct through
   the whole run if and only if every ungated add and every followed commit is clean when it is
   applied. Gated answers, removals and restores never need a condition.
   */
  lemma {:induction false} RunUniqueExact(me: Member, start: GroupState, ops: seq<GroupOp>)
    requires UniqueIdentities(start.leaves)
    ensures AlwaysUnique(me, start, ops) <==> AlwaysClean(me, start, ops)
  {
    hide GroupStep, UniqueIdentities, Clean;
    if ops != [] {
      var front := ops[..|ops| - 1];
      RunUniqueExact(me, start, front);
      if AlwaysClean(me, start, front) {
        assert AlwaysUnique(me, start, front);
        StepUniqueExact(me, GroupRun(me, start, front), ops[|ops| - 1]);
      }
    }
  }

  /** The operation brings `u` in: asked while listed, added, or added by a merged commit. */
  predicate Enters(me: Member, g: GroupState, op: GroupOp, u: UserId) {
    match op
    case Add(package) => g.active && package == ValidPackage(u)
    case Answer(package, allowed) => g.active && me.user == me.owner && package == ValidPackage(u) && u in allowed
    case Follow(c) => Merges(me, g, c) && u in c.added
    case _ => false
  }

  /** The operation takes `u` out: removed by the owner, here or in a merged commit. */
  ghost predicate Departs(me: Member, g: GroupState, op: GroupOp, u: UserId) {
    match op
    case Remove(v) => g.active && me.user == me.owner && v == u && u != me.owner
    case Follow(c) => Merges(me, g, c) && exists i :: i in c.removed && g.leaves[i] == Some(u)
    case _ => false
  }

  /** `u` was there at the start or entered, and has not departed since. */
  ghost predicate Standing(me: Member, start: GroupState, ops: seq<GroupOp>, u: UserId) {
    if ops == [] then Some(u) in start.leaves
    else
      var g, op := GroupRun(me, start, ops[..|ops| - 1]), ops[|ops| - 1];
      Enters(me, g, op, u) || (!Departs(me, g, op, u) && Standing(me, start, ops[..|ops| - 1], u))
  }

  lemma CleanRunUnique(me: Member, start: GroupState, ops: seq<GroupOp>)
    requires UniqueIdentities(start.leaves) && AlwaysClean(me, start, ops)
    ensures UniqueIdentities(GroupRun(me, start, ops).leaves)
  {
    hide GroupStep, UniqueIdentities, Clean;
    RunUniqueExact(me, start, ops);
  }

  /** In every clean run the members are exactly those who entered and did not depart since. */
  lemma {:induction false} RunMembership(me: Member, start: GroupState, ops: seq<GroupOp>, u: UserId)
    requires UniqueIdentities(start.leaves) && AlwaysClean(me, start, ops)
    ensures Some(u) in GroupRun(me, start, ops).leaves <==> Standing(me, start, ops, u)
  {
    hide GroupStep, UniqueIdentities, Clean, Enters, Departs;
    if ops != [] {
      RunMembership(me, start, ops[..|ops| - 1], u);
      CleanRunUnique(me, start, ops[..|ops| - 1]);
      StepMembership(me, GroupRun(me, start, ops[..|ops| - 1]), ops[|ops| - 1], u);
    }
  }

  lemma StepMembership(me: Member, g: GroupState, op: GroupOp, u: UserId)
    requires UniqueIdentities(g.leaves)
    ensures Some(u) in GroupStep(me, g, op).leaves <==>
      Enters(me, g, op, u) || (!Departs(me, g, op, u) && Some(u) in g.leaves)
  {
    hide UniqueIdentities, Identities, AddLeaf, ApplyCommit;
    IdentitiesAre(g.leaves, u);
    IdentitiesAre(GroupStep(me, g, op).leaves, u);
    match op
    case Add(package) =>
      if package.ValidPackage? {
        AddLeafUniqueExact(g.leaves, package.identity);
      }
    case Answer(package, _) =>
      if package.ValidPackage? {
        AddLeafUniqueExact(g.leaves, package.identity);
      }
    case Remove(v) =>
      if Some(v) in g.leaves {
        UniqueRemoval(g.leaves, v);
      }
    case Follow(c) =>
      CommitUniqueExact(g.leaves, c);
      BlankMembers(g.leaves, c.removed, u);
      IdentitiesAre(Blank(g.leaves, c.removed), u);
    case Restore =>
  }

  lemma BlankMembers(leaves: Leaves, removed: set<nat>, u: UserId)
    requires UniqueIdentities(leaves)
    ensures Some(u) in Blank(leaves, removed) <==>
      Some(u) in leaves && !(exists i :: i in removed && i < |leaves| && leaves[i] == Some(u))
  {
    var after := Blank(leaves, removed);
    if Some(u) in after {
      var k :| 0 <= k < |after| && after[k] == Some(u);
      assert leaves[k] == Some(u);
    } else if Some(u) in leaves {
      var k :| 0 <= k < |leaves| && leaves[k] == Some(u);
      assert after[k] != Some(u);
      assert k in removed;
    }
  }

  /** So after any clean run one removal by the owner leaves the removed identity no leaf at all. */
  lemma OneRemovalSuffices(me: Member, start: GroupState, ops: seq<GroupOp>, u: UserId)
    requires UniqueIdentities(start.leaves) && AlwaysClean(me, start, ops)
    requires GroupRun(me, start, ops).active && me.user == me.owner && u != me.owner
    ensures Some(u) !in GroupRun(me, start, ops + [Remove(u)]).leaves
  {
    hide UniqueIdentities, AlwaysClean;
    CleanRunUnique(me, start, ops);
    assert (ops + [Remove(u)])[..|ops|] == ops;
    StepMembership(me, GroupRun(me, start, ops), Remove(u), u);
  }

  // ---------------------------------------------------------------- two members' copies

  /** The commit an operation of `me` makes or merges, if any. */
  function CommitOf(me: Member, g: GroupState, op: GroupOp): Option<Commit> {
    if GroupStep(me, g, op) == g then None
    else
      match op
      case Add(package) => Some(Commit.Commit(g.epoch, me.leaf, {}, [package.identity]))
      case Answer(package, _) => Some(Commit.Commit(g.epoch, me.leaf, {}, [package.identity]))
      case Remove(u) => Some(Commit.Commit(g.epoch, me.leaf, {FindLeaf(g.leaves, u).value}, []))
      case Follow(c) => Some(c)
      case Restore => None
  }

  /** The commits of a run, in order. */
  function CommitsOf(me: Member, start: GroupState, ops: seq<GroupOp>): seq<Commit> {
    if ops == [] then []
    else
      var before, c := CommitsOf(me, start, ops[..|ops| - 1]), CommitOf(me, GroupRun(me, start, ops[..|ops| - 1]), ops[|ops| - 1]);
      if c.Some? then before + [c.value] else before
  }

  /** A member that processes these commits in order. */
  function FollowAll(me: Member, start: GroupState, commits: seq<Commit>): GroupState {
    if commits == [] then start
    else GroupStep(me, FollowAll(me, start, commits[..|commits| - 1]), Follow(commits[|commits| - 1]))
  }

  /** One commit keeps a follower's copy equal to the owner's; it evicts the follower exactly when it removes its leaf. */
  lemma FollowedCommit(maker: Member, g: GroupState, op: GroupOp, follower: Member, copy: GroupState)
    requires Seated(maker, g) && maker.user == maker.owner == follower.owner && maker.leaf == 0 && follower.leaf != 0
    requires copy == g && g.active && (op.Follow? ==> op.commit.committer != follower.leaf)
    ensures var c := CommitOf(maker, g, op);
      var g' := GroupStep(maker, g, op);
      && (c.None? ==> g' == g)
      && (c.Some? ==>
            GroupStep(follower, copy, Follow(c.value))
              == GroupState(g'.leaves, g'.epoch, follower.leaf !in c.value.removed))
  {
    match op
    case Add(package) =>
      if package.ValidPackage? {
        SingleAdd(g.leaves, package.identity);
      }
    case Answer(package, _) =>
      if package.ValidPackage? {
        SingleAdd(g.leaves, package.identity);
      }
    case _ =>
  }

  /**
   Members do not diverge: a member whose copy equals the owner's, as after joining by its Welcome,
   and that follows the commits the owner makes and merges, in order, holds the owner's leaves and
   epoch for as long as no commit removes its own leaf; and it stays active exactly so long.
   */
  lemma {:induction false} CopiesAgree(owner: Member, start: GroupState, ops: seq<GroupOp>, follower: Member)
    requires Seated(owner, start) && owner.user == owner.owner == follower.owner && owner.leaf == 0 && follower.leaf != 0
    requires start.active && forall op :: op in ops && op.Follow? ==> op.commit.committer != follower.leaf
    ensures var copy, commits := FollowAll(follower, start, CommitsOf(owner, start, ops)), CommitsOf(owner, start, ops);
      && (copy.active <==> forall c :: c in commits ==> follower.leaf !in c.removed)
      && (copy.active ==> copy == GroupRun(owner, start, ops))
  {
    hide GroupStep, CommitOf, Seated;
    if ops != [] {
      var front, op := ops[..|ops| - 1], ops[|ops| - 1];
      assert ops == front + [op];
      var before := CommitsOf(owner, start, front);
      CopiesAgree(owner, start, front, follower);
      OwnerLeafStays(owner, start, front);
      OwnerLeafStays(owner, start, ops);
      var copy, g := FollowAll(follower, start, before), GroupRun(owner, start, front);
      var c := CommitOf(owner, g, op);
      if copy.active {
        FollowedCommit(owner, g, op, follower, copy);
      } else if c.Some? {
        InactiveStays(follower, copy, c.value);
      }
      if c.Some? {
        assert (before + [c.value])[..|before|] == before;
      }
    }
  }

  lemma InactiveStays(me: Member, g: GroupState, c: Commit)
    requires !g.active
    ensures GroupStep(me, g, Follow(c)) == g
  {
  }

  /**
   The commit that admits a member may reach it before or after its Welcome: once joined, its copy
   is already past that commit, which changes nothing.
   */
  lemma OwnCommitIgnored(owner: Member, g: GroupState, package: KeyPackage, follower: Member)
    requires Seated(owner, g) && g.active && package.ValidPackage?
    ensures var c := CommitOf(owner, g, Add(package));
      c.Some? && GroupStep(follower, GroupStep(owner, g, Add(package)), Follow(c.value)) == GroupStep(owner, g, Add(package))
  {
  }

  lemma IdentitiesAre(leaves: Leaves, u: UserId)
    ensures u in Identities(leaves) <==> Some(u) in leaves
  {
  }

  /**
   The owner's answer to a key package: the gate runs before the group commits, so a refusal leaves
   the group where it was. An admission keeps identities unique, seats exactly the requester, and
   yields the rotation from the outgoing epoch's key.
   */
  method AnswerKeyPackage(group: MlsDocumentGroup, package: KeyPackage, allowed: seq<UserId>, doc: DocId)
    returns (admission: Option<(Commit, Welcome, AnchorRotation)>)
    requires group.Valid() && group.epoch < U64_LIMIT - 1
    modifies group
    ensures group.Valid()
    ensures admission.Some? <==> group.IsOwner() && old(group.active) && Admits(old(group.leaves), allowed, package)
    ensures group.State() == GroupStep(group.Me(), old(group.State()), Answer(package, allowed))
    ensures admission.None? ==> group.leaves == old(group.leaves) && group.epoch == old(group.epoch)
    ensures admission.Some? ==>
      var (commit, welcome, rotation) := admission.value;
      && group.epoch == old(group.epoch) + 1
      && Identities(group.leaves) == Identities(old(group.leaves)) + {package.identity}
      && (UniqueIdentities(old(group.leaves)) ==> UniqueIdentities(group.leaves))
      && Seats(welcome, package.identity) && welcome.leaves == group.leaves
      && rotation == RotationTo(group.exporter, doc, group.epoch)
  {
    if !group.IsOwner() || !Admits(group.leaves, allowed, package) {
      return None;
    }
    AddLeafUniqueExact(group.leaves, package.identity);
    var result := group.AddMember(package, doc);
    if result.Err? {
      return None;
    }
    admission := Some(result.value);
  }

  /** Without the admission gate a removal can miss: two leaves for one name, one removal, still in. */
  lemma UngatedRemovalMisses(owner: UserId, u: UserId)
    requires u != owner
    ensures var twice := AddLeaf(AddLeaf([Some(owner)], u), u);
      Some(u) in Blank(twice, {FindLeaf(twice, u).value})
  {
    var twice := AddLeaf(AddLeaf([Some(owner)], u), u);
    assert twice == [Some(owner), Some(u), Some(u)];
    assert Blank(twice, {FindLeaf(twice, u).value})[2] == Some(u);
  }
}
