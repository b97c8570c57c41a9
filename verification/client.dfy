/**
 Ownership of wasm handles by the client's two group slots
 (plugins/obsidian-ee/src/collab-client.ts). Every call that can throw takes the answer as an
 argument, and methods may be called in any order: each needs nothing but the invariant. A socket
 that drops calls none of them: slots and deadlines stay as they are.
 */
module Client {
  import opened Common

  type Handle = nat

  datatype Role = Owner | Joiner

  datatype SlotId = FileSlot | ManifestSlot

  /** A slot's established group and its un-answered key package. */
  datatype Slot = Slot(doc: Option<Handle>, pending: Option<Handle>)

  const EMPTY_SLOT := Slot(None, None)

  /** Where a throw happens while bootstrapping a slot, if anywhere. */
  datatype BootstrapFault = NoFault | CreateThrows | AnnounceThrows

  datatype WelcomeFault = NoWelcomeFault | InviteThrows | JoinThrows

  function Holds(s: Slot): set<Handle> {
    (if s.doc.Some? then {s.doc.value} else {}) + (if s.pending.Some? then {s.pending.value} else {})
  }

  /** Each issued handle is in exactly one place, and no other handle is anywhere. */
  ghost predicate Ledger(file: Slot, manifest: Slot, issued: nat, freed: set<Handle>, joined: set<Handle>) {
    && (forall h :: h in Holds(file) ==> h < issued && h !in Holds(manifest) && h !in freed && h !in joined)
    && (forall h :: h in Holds(manifest) ==> h < issued && h !in freed && h !in joined)
    && (forall h :: h in freed ==> h < issued && h !in joined)
    && (forall h :: h in joined ==> h < issued)
    && (forall h: nat {:trigger h in freed} :: h < issued ==>
          h in Holds(file) || h in Holds(manifest) || h in freed || h in joined)
  }

  lemma LedgerFree(file: Slot, manifest: Slot, issued: nat, freed: set<Handle>, joined: set<Handle>)
    requires Ledger(file, manifest, issued, freed, joined)
    ensures Ledger(EMPTY_SLOT, manifest, issued, freed + Holds(file), joined)
    ensures Ledger(file, EMPTY_SLOT, issued, freed + Holds(manifest), joined)
  {
    assert Holds(EMPTY_SLOT) == {};
  }

  /** A new handle goes into an empty slot. */
  lemma LedgerIssue(file: Slot, manifest: Slot, issued: nat, freed: set<Handle>, joined: set<Handle>, s: Slot)
    requires Ledger(file, manifest, issued, freed, joined) && Holds(s) == {issued}
    ensures file == EMPTY_SLOT ==> Ledger(s, manifest, issued + 1, freed, joined)
    ensures manifest == EMPTY_SLOT ==> Ledger(file, s, issued + 1, freed, joined)
  {
    assert Holds(EMPTY_SLOT) == {};
  }

  /** `join` consumes what an otherwise empty slot held. */
  lemma LedgerJoin(file: Slot, manifest: Slot, issued: nat, freed: set<Handle>, joined: set<Handle>)
    requires Ledger(file, manifest, issued, freed, joined)
    ensures Ledger(EMPTY_SLOT, manifest, issued, freed, joined + Holds(file))
    ensures Ledger(file, EMPTY_SLOT, issued, freed, joined + Holds(manifest))
  {
    assert Holds(EMPTY_SLOT) == {};
  }

  class CollabClient {
    const role: Role
    const docId: string
    /** Configured only together with vault sync, and then different from `docId`. */
    const vaultSync: bool
    const manifestDocId: Option<string>
    var file: Slot
    var manifest: Slot
    /** Armed join deadlines, keyed by the slot's document id as in the source. */
    var joinTimers: set<Option<string>>
    var stopped: bool
    var destroyed: bool
    /** Every handle ever issued is below `issued`; some were freed, some consumed by `join`. */
    var issued: nat
    var freed: set<Handle>
    var joined: set<Handle>

    predicate HasManifest() {
      vaultSync && manifestDocId.Some?
    }

    function KeyOf(id: SlotId): Option<string> {
      if id == FileSlot then Some(docId) else manifestDocId
    }

    function SlotOf(id: SlotId): Slot
      reads this
    {
      if id == FileSlot then file else manifest
    }

    predicate Owned(id: SlotId) {
      id == FileSlot || HasManifest()
    }

    /**
     No slot holds both a group and a pending join; a deadline is armed exactly while a join is
     pending; and every handle ever issued is in exactly one place: held by one slot, freed once,
     or consumed once by a join.
     */
    ghost predicate Valid()
      reads this
    {
      && (HasManifest() ==> manifestDocId != Some(docId))
      && (!HasManifest() ==> manifest == EMPTY_SLOT)
      && (file.doc.Some? ==> file.pending.None?) && (manifest.doc.Some? ==> manifest.pending.None?)
      && (forall k :: k in joinTimers <==>
            (k == Some(docId) && file.pending.Some?) || (HasManifest() && k == manifestDocId && manifest.pending.Some?))
      && Ledger(file, manifest, issued, freed, joined)
    }

    /** Groups that were established stay, on the very same handle. */
    twostate predicate GroupsSurvive()
      reads this
    {
      && (old(file).doc.Some? ==> file.doc == old(file).doc)
      && (old(manifest).doc.Some? ==> manifest.doc == old(manifest).doc)
    }

    /** Restoring snapshots in the constructor: `restored` slots open, the others stay empty. */
    constructor (role: Role, docId: string, vaultSync: bool, manifestDocId: Option<string>, restored: set<SlotId>)
      requires vaultSync && manifestDocId.Some? ==> manifestDocId != Some(docId)
      ensures Valid() && !destroyed && this.role == role
      ensures file.doc.Some? <==> FileSlot in restored
      ensures manifest.doc.Some? <==> ManifestSlot in restored && vaultSync && manifestDocId.Some?
    {
      this.role, this.docId, this.vaultSync, this.manifestDocId := role, docId, vaultSync, manifestDocId;
      var hasManifest := vaultSync && manifestDocId.Some?;
      var withFile, withManifest := FileSlot in restored, hasManifest && ManifestSlot in restored;
      file := if withFile then Slot(Some(0), None) else EMPTY_SLOT;
      manifest := if withManifest then Slot(Some(if withFile then 1 else 0), None) else EMPTY_SLOT;
      issued := (if withFile then 1 else 0) + (if withManifest then 1 else 0);
      joinTimers, freed, joined := {}, {}, {};
      stopped, destroyed := false, false;
    }

    method SetSlot(id: SlotId, s: Slot)
      modifies `file, `manifest
      ensures file == if id == FileSlot then s else old(file)
      ensures manifest == if id == ManifestSlot then s else old(manifest)
    {
      match id {
        case FileSlot => file := s;
        case ManifestSlot => manifest := s;
      }
    }

    /** `free()`: a handle may be released once, and never after a `join` consumed it. */
    method Free(h: Handle)
      requires h < issued && h !in freed && h !in joined
      modifies `freed
      ensures freed == old(freed) + {h}
    {
      freed := freed + {h};
    }

    /** `freeSlot`: the deadline goes first, then both handles, in lockstep with the slot. */
    method FreeSlot(id: SlotId)
      requires (Valid() && (!Owned(id) ==> file.pending.None?)) || HalfDone(id)
      modifies this
      ensures Valid()
      ensures file == if id == FileSlot then EMPTY_SLOT else old(file)
      ensures manifest == if id == ManifestSlot then EMPTY_SLOT else old(manifest)
      ensures freed == old(freed) + Holds(old(SlotOf(id))) && joined == old(joined) && issued == old(issued)
      ensures joinTimers == old(joinTimers) - {KeyOf(id)}
      ensures stopped == old(stopped) && destroyed == old(destroyed)
    {
      hide Ledger;
      LedgerFree(file, manifest, issued, freed, joined);
      var s := SlotOf(id);
      joinTimers := joinTimers - {KeyOf(id)};
      HeldIsLive(file, manifest, issued, freed, joined);
      if s.doc.Some? {
        Free(s.doc.value);
      }
      if s.pending.Some? {
        Free(s.pending.value);
      }
      SetSlot(id, EMPTY_SLOT);
      assert freed == old(freed) + Holds(s);
    }

    /**
     `bootstrapGroup`: create the group as owner, or ship a key package as joiner. False is a
     throw, which may leave the slot half done.
     */
    method BootstrapGroup(id: SlotId, fault: BootstrapFault) returns (ok: bool)
      requires Valid() && Owned(id) && SlotOf(id) == EMPTY_SLOT
      modifies this
      ensures ok == fault.NoFault?
      ensures ok ==> Valid() && Bootstrapped(id)
      ensures role.Owner? ==> joinTimers == old(joinTimers)
      ensures role.Joiner? && ok ==> joinTimers == old(joinTimers) + {KeyOf(id)}
      ensures !ok ==> Valid() || HalfDone(id)
      ensures SlotOf(id).doc.Some? ==> role.Owner?
      ensures id != FileSlot ==> file == old(file)
      ensures id != ManifestSlot ==> manifest == old(manifest)
      ensures stopped == old(stopped) && destroyed == old(destroyed)
    {
      hide Ledger;
      if fault.CreateThrows? {
        return false;
      }
      var h := issued;
      issued := issued + 1;
      if role.Owner? {
        LedgerIssue(file, manifest, h, freed, joined, Slot(Some(h), None));
        SetSlot(id, Slot(Some(h), None));
        return fault.NoFault?;
      }
      LedgerIssue(file, manifest, h, freed, joined, Slot(None, Some(h)));
      SetSlot(id, Slot(None, Some(h)));
      if fault.AnnounceThrows? {
        return false;
      }
      joinTimers := joinTimers + {KeyOf(id)};
      return true;
    }

    /** An owner's slot holds its new group, a joiner's its un-answered key package and an armed deadline. */
    predicate Bootstrapped(id: SlotId)
      reads this
    {
      match role
      case Owner => SlotOf(id).doc.Some? && SlotOf(id).pending.None?
      case Joiner => SlotOf(id).doc.None? && SlotOf(id).pending.Some? && KeyOf(id) in joinTimers
    }

    /** Everything but the deadline of a joiner whose announcement threw. */
    ghost predicate HalfDone(id: SlotId)
      reads this
    {
      && (HasManifest() ==> manifestDocId != Some(docId))
      && (!HasManifest() ==> manifest == EMPTY_SLOT)
      && Owned(id)
      && (file.doc.Some? ==> file.pending.None?) && (manifest.doc.Some? ==> manifest.pending.None?)
      && KeyOf(id) !in joinTimers
      && (forall k :: k != KeyOf(id) ==> (k in joinTimers <==>
            (k == Some(docId) && file.pending.Some?) || (HasManifest() && k == manifestDocId && manifest.pending.Some?)))
      && Ledger(file, manifest, issued, freed, joined)
    }

    /**
     `establishGroup`: bootstrap exactly the slots that hold neither a group nor a pending join. A
     throw undoes the one slot that threw and nothing else: a slot filled before, in this very call
     or an earlier one, keeps what it holds.
     */
    method EstablishGroup(faults: SlotId -> BootstrapFault, presentThrows: bool) returns (ok: bool)
      requires Valid()
      modifies this
      ensures Valid() && GroupsSurvive()
      ensures stopped == old(stopped) && destroyed == old(destroyed)
      ensures ok <==> !presentThrows && file != EMPTY_SLOT && ((vaultSync && manifestDocId.Some?) ==> manifest != EMPTY_SLOT)
      ensures old(file) != EMPTY_SLOT ==> file == old(file)
      ensures old(file) == EMPTY_SLOT ==> (file != EMPTY_SLOT <==> faults(FileSlot).NoFault?)
      ensures old(manifest) != EMPTY_SLOT || !(vaultSync && manifestDocId.Some?) ==> manifest == old(manifest)
      ensures old(manifest) == EMPTY_SLOT && (vaultSync && manifestDocId.Some?) ==>
        (manifest != EMPTY_SLOT <==> file != EMPTY_SLOT && faults(ManifestSlot).NoFault?)
      ensures old(file) == EMPTY_SLOT && file != EMPTY_SLOT ==> Bootstrapped(FileSlot)
      ensures old(manifest) == EMPTY_SLOT && manifest != EMPTY_SLOT ==> Bootstrapped(ManifestSlot)
      ensures role.Owner? ==> joinTimers <= old(joinTimers)
    {
      hide Ledger;
      var slots := if HasManifest() then [FileSlot, ManifestSlot] else [FileSlot];
      var i := 0;
      while i < |slots|
        invariant i <= |slots|
        invariant Valid()
        invariant stopped == old(stopped) && destroyed == old(destroyed)
        invariant old(file) != EMPTY_SLOT ==> file == old(file)
        invariant old(manifest) != EMPTY_SLOT ==> manifest == old(manifest)
        invariant i == 0 ==> file == old(file)
        invariant i <= 1 ==> manifest == old(manifest)
        invariant old(file) == EMPTY_SLOT && file != EMPTY_SLOT ==> Bootstrapped(FileSlot)
        invariant old(manifest) == EMPTY_SLOT && manifest != EMPTY_SLOT ==> Bootstrapped(ManifestSlot)
        invariant role.Owner? ==> joinTimers <= old(joinTimers)
        invariant i > 0 ==> file != EMPTY_SLOT && (old(file) == EMPTY_SLOT ==> faults(FileSlot).NoFault?)
        invariant i > 1 ==> manifest != EMPTY_SLOT && (old(manifest) == EMPTY_SLOT ==> faults(ManifestSlot).NoFault?)
      {
        var id := slots[i];
        if SlotOf(id) == EMPTY_SLOT {
          var done := BootstrapGroup(id, faults(id));
          if !done {
            FreeSlot(id);
            return false;
          }
        }
        i := i + 1;
      }
      ok := !presentThrows;
    }

    /** `onopen`: identify and subscribe (minting may throw), then establish the groups. */
    method TryInitialize(subscribeFails: bool, faults: SlotId -> BootstrapFault, presentThrows: bool) returns (ok: bool)
      requires Valid()
      modifies this
      ensures Valid() && GroupsSurvive()
      ensures stopped == old(stopped) && destroyed == old(destroyed)
      ensures subscribeFails ==> !ok && file == old(file) && manifest == old(manifest)
      ensures !subscribeFails ==>
        (ok <==> !presentThrows && file != EMPTY_SLOT && (HasManifest() ==> manifest != EMPTY_SLOT))
    {
      if subscribeFails {
        return false;
      }
      ok := EstablishGroup(faults, presentThrows);
    }

    /** A Welcome: only a joiner with a pending join and no group acts on it, and consumes its key package. */
    method HandleWelcome(id: SlotId, fault: WelcomeFault)
      requires Valid() && Owned(id)
      modifies this
      ensures Valid() && GroupsSurvive()
      ensures stopped == old(stopped) && destroyed == old(destroyed) && freed == old(freed)
      ensures id != FileSlot ==> file == old(file)
      ensures id != ManifestSlot ==> manifest == old(manifest)
      ensures var acts := role.Joiner? && old(SlotOf(id)).pending.Some? && !fault.InviteThrows?;
        && (acts ==>
              && joined == old(joined) + {old(SlotOf(id)).pending.value}
              && SlotOf(id).pending.None?
              && (SlotOf(id).doc.Some? <==> fault.NoWelcomeFault?))
        && (!acts ==> SlotOf(id) == old(SlotOf(id)) && joined == old(joined))
    {
      hide Ledger;
      var s := SlotOf(id);
      if !role.Joiner? || s.pending.None? || s.doc.Some? || fault.InviteThrows? {
        return;
      }
      LedgerJoin(file, manifest, issued, freed, joined);
      SetSlot(id, EMPTY_SLOT);
      joinTimers := joinTimers - {KeyOf(id)};
      joined := joined + {s.pending.value};
      assert Holds(s) == {s.pending.value};
      if fault.JoinThrows? {
        return;
      }
      var h := issued;
      LedgerIssue(file, manifest, h, freed, joined, Slot(Some(h), None));
      issued := issued + 1;
      SetSlot(id, Slot(Some(h), None));
    }

    /** An armed deadline fires: the un-answered key package is freed and the slot can bootstrap again. */
    method JoinTimerFires(id: SlotId)
      requires Valid() && Owned(id) && KeyOf(id) in joinTimers
      modifies this
      ensures Valid() && GroupsSurvive()
      ensures SlotOf(id) == EMPTY_SLOT && old(SlotOf(id)).pending.Some?
      ensures freed == old(freed) + {old(SlotOf(id)).pending.value} && joined == old(joined)
      ensures id != FileSlot ==> file == old(file)
      ensures id != ManifestSlot ==> manifest == old(manifest)
    {
      hide Ledger;
      assert SlotOf(id).pending.Some? && SlotOf(id).doc.None?;
      assert Holds(SlotOf(id)) == {SlotOf(id).pending.value};
      FreeSlot(id);
    }

    /** `disconnect`: a pause. Un-answered joins are released, established groups are kept. */
    method Disconnect()
      requires Valid()
      modifies this
      ensures Valid() && GroupsSurvive() && stopped && destroyed == old(destroyed)
      ensures file.pending.None? && manifest.pending.None? && joinTimers == {}
      ensures file.doc == old(file).doc && manifest.doc == old(manifest).doc
      ensures joined == old(joined)
    {
      hide Ledger;
      stopped := true;
      var freeFile, freeManifest := file.doc.None?, manifest.doc.None?;
      if freeFile {
        FreeSlot(FileSlot);
      }
      if freeManifest {
        FreeSlot(ManifestSlot);
      }
    }

    /** `destroy`: the end. Every handle the client still held is released. */
    method Destroy()
      requires Valid()
      modifies this
      ensures Valid() && stopped && destroyed
      ensures file == manifest == EMPTY_SLOT && joinTimers == {}
      ensures forall h: Handle {:trigger h in freed} :: h < issued ==> h in freed || h in joined
    {
      Disconnect();
      FreeSlot(FileSlot);
      FreeSlot(ManifestSlot);
      destroyed := true;
      assert Holds(EMPTY_SLOT) == {};
    }

    /** `connect` refuses a destroyed client; otherwise a group that is still there will be resumed. */
    method Connect() returns (attempted: bool)
      requires Valid()
      modifies `stopped
      ensures Valid() && GroupsSurvive()
      ensures attempted == !destroyed && (attempted ==> !stopped)
    {
      if destroyed {
        return false;
      }
      stopped := false;
      attempted := true;
    }
  }

  lemma HeldIsLive(file: Slot, manifest: Slot, issued: nat, freed: set<Handle>, joined: set<Handle>)
    requires Ledger(file, manifest, issued, freed, joined)
    ensures forall s :: s == file || s == manifest ==>
      && (s.doc.Some? ==> s.doc.value < issued && s.doc.value !in freed && s.doc.value !in joined)
      && (s.pending.Some? ==> s.pending.value < issued && s.pending.value !in freed && s.pending.value !in joined)
  {
    forall s: Slot | s == file || s == manifest
      ensures (s.doc.Some? ==> s.doc.value in Holds(s)) && (s.pending.Some? ==> s.pending.value in Holds(s))
    {
    }
  }
}
