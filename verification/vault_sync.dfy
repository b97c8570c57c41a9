/**
 The vault index: a last-writer-wins manifest of paths (crates/collab-core/src/vault_manifest.rs),
 the registry of open documents (crates/collab-core/src/registry.rs), and the manager that keeps the
 second in step with the first (crates/collab-core/src/vault_sync.rs). The CRDT is abstracted to
 stamped cells merged by the later stamp.
 */
module VaultSync {
  import opened Common
  import opened Sequences

  type Path = string

  // ---------------------------------------------------------------- the manifest as a value

  /** `Other` is any value a peer may have written that is not a boolean: neither alive nor deleted. */
  datatype Value = Alive | Deleted | Other

  datatype Stamp = Stamp(clock: nat, peer: nat)

  datatype Cell = Cell(stamp: Stamp, value: Value)

  type Entries = map<Path, Cell>

  predicate Later(a: Stamp, b: Stamp) {
    a.clock > b.clock || (a.clock == b.clock && a.peer > b.peer)
  }

  /** Merge keeps, per path, the cell with the later stamp. */
  function Merge(a: Entries, b: Entries): Entries {
    map p | p in a.Keys + b.Keys ::
      if p !in b then a[p] else if p !in a then b[p] else if Later(b[p].stamp, a[p].stamp) then b[p] else a[p]
  }

  /** No two peers ever used one stamp for different values of one path. */
  ghost predicate OneValuePerStamp(a: Entries, b: Entries) {
    forall p :: p in a && p in b && a[p].stamp == b[p].stamp ==> a[p].value == b[p].value
  }

  /**
   Merging is a join: grouping and repetition of updates never matter, and their order does not
   matter exactly when no stamp carries two values for one path.
   */
  lemma MergeIsJoin(a: Entries, b: Entries, c: Entries)
    ensures Merge(a, b) == Merge(b, a) <==> OneValuePerStamp(a, b)
    ensures Merge(a, Merge(a, b)) == Merge(a, b)
    ensures Merge(Merge(a, b), c) == Merge(a, Merge(b, c))
  {
    MergeAssociates(a, b, c);
    MergeCommutesExact(a, b);
    assert Merge(a, Merge(a, b)) == Merge(a, b);
  }

  lemma MergeCommutesExact(a: Entries, b: Entries)
    ensures Merge(a, b) == Merge(b, a) <==> OneValuePerStamp(a, b)
  {
    var l, r := Merge(a, b), Merge(b, a);
    assert l.Keys == r.Keys == a.Keys + b.Keys;
    if OneValuePerStamp(a, b) {
      forall p | p in a.Keys + b.Keys
        ensures l[p] == r[p]
      {
      }
    } else {
      var p :| p in a && p in b && a[p].stamp == b[p].stamp && a[p].value != b[p].value;
      assert l[p] == a[p] && r[p] == b[p];
    }
  }

  /** Last writer wins: a merge keeps every path, with a cell of one side that the other's stamp does not beat. */
  lemma LastWriterWins(a: Entries, b: Entries, p: Path)
    ensures p in Merge(a, b) <==> p in a || p in b
    ensures p in Merge(a, b) ==>
      && ((p in a && Merge(a, b)[p] == a[p]) || (p in b && Merge(a, b)[p] == b[p]))
      && (p in a ==> !Newer(a[p].stamp, Merge(a, b)[p].stamp))
      && (p in b ==> !Newer(b[p].stamp, Merge(a, b)[p].stamp))
  {
  }

  /** By the clock first, then by the peer. */
  predicate Newer(x: Stamp, y: Stamp) {
    if x.clock == y.clock then x.peer > y.peer else x.clock > y.clock
  }

  lemma MergeLookup(a: Entries, b: Entries, p: Path)
    ensures p in Merge(a, b) <==> p in a || p in b
    ensures p in a && p !in b ==> Merge(a, b)[p] == a[p]
    ensures p in b && p !in a ==> Merge(a, b)[p] == b[p]
    ensures p in a && p in b ==> Merge(a, b)[p] == if Later(b[p].stamp, a[p].stamp) then b[p] else a[p]
  {
  }

  lemma MergeAssociates(a: Entries, b: Entries, c: Entries)
    ensures Merge(Merge(a, b), c) == Merge(a, Merge(b, c))
  {
    hide Merge;
    var l, r := Merge(Merge(a, b), c), Merge(a, Merge(b, c));
    forall p
      ensures p in l <==> p in r
      ensures p in l ==> l[p] == r[p]
    {
      MergeLookup(a, b, p);
      MergeLookup(b, c, p);
      MergeLookup(Merge(a, b), c, p);
      MergeLookup(a, Merge(b, c), p);
    }
  }

  predicate IsAlive(e: Entries, p: Path) {
    p in e && e[p].value == Alive
  }

  predicate IsTombstone(e: Entries, p: Path) {
    p in e && e[p].value == Deleted
  }

  predicate IsForeign(e: Entries, p: Path) {
    p in e && e[p].value == Other
  }

  /** What a frame from the wire is to the manager: its size, and its cells if it decodes. */
  datatype Update = Update(size: nat, decoded: Option<Entries>)

  class VaultManifest {
    const peer: nat
    var entries: Entries
    var clock: nat

    /** The local clock is ahead of every stamp seen. */
    ghost predicate Valid()
      reads this
    {
      forall p :: p in entries ==> entries[p].stamp.clock <= clock
    }

    constructor (peer: nat)
      ensures Valid() && entries == map[]
    {
      this.peer, entries, clock := peer, map[], 0;
    }

    /** One map insert: a stamp later than all others, so the written value is the one that counts. */
    method Write(path: Path, value: Value)
      requires Valid()
      modifies this
      ensures Valid()
      ensures path in entries && entries == old(entries)[path := Cell(entries[path].stamp, value)]
      ensures forall p :: p in old(entries) ==> Later(entries[path].stamp, old(entries)[p].stamp)
    {
      clock := clock + 1;
      entries := entries[path := Cell(Stamp(clock, peer), value)];
    }

    method AddFile(path: Path)
      requires Valid()
      modifies this
      ensures Valid()
      ensures Written(old(entries), entries, path, Alive)
    {
      Write(path, Alive);
    }

    method DeleteFile(path: Path)
      requires Valid()
      modifies this
      ensures Valid()
      ensures Written(old(entries), entries, path, Deleted)
    {
      Write(path, Deleted);
    }

    /** Both inserts of one transaction; `between` is the state no peer ever sees. */
    method RenameFile(oldPath: Path, newPath: Path) returns (ghost between: Entries)
      requires Valid()
      modifies this
      ensures Valid()
      ensures Written(old(entries), between, oldPath, Deleted) && Written(between, entries, newPath, Alive)
    {
      Write(oldPath, Deleted);
      between := entries;
      Write(newPath, Alive);
    }

    /** The alive paths, each once, in whatever order the map iterates. */
    method ListFiles() returns (files: seq<Path>)
      ensures Distinct(files) && forall p :: p in files <==> IsAlive(entries, p)
    {
      files := [];
      var rest := entries.Keys;
      while rest != {}
        invariant rest <= entries.Keys
        invariant Distinct(files)
        invariant forall p :: p in files <==> IsAlive(entries, p) && p !in rest
      {
        var p :| p in rest;
        rest := rest - {p};
        if entries[p].value == Alive {
          files := files + [p];
        }
      }
    }

    method ApplyUpdate(update: Update) returns (ok: bool)
      requires Valid()
      modifies this
      ensures Valid()
      ensures ok == update.decoded.Some?
      ensures entries == if ok then Merge(old(entries), update.decoded.value) else old(entries)
    {
      if update.decoded.None? {
        return false;
      }
      entries := Merge(entries, update.decoded.value);
      var rest := entries.Keys;
      while rest != {}
        invariant rest <= entries.Keys && entries == Merge(old(entries), update.decoded.value)
        invariant forall p :: p in entries && p !in rest ==> entries[p].stamp.clock <= clock
      {
        var p :| p in rest;
        rest := rest - {p};
        clock := Max(clock, entries[p].stamp.clock);
      }
      ok := true;
    }
  }

  /** One path was written and no other changed. */
  ghost predicate Written(before: Entries, after: Entries, path: Path, value: Value) {
    && after.Keys == before.Keys + {path}
    && after[path].value == value
    && (forall p :: p in before && p != path ==> after[p] == before[p])
  }

  // ---------------------------------------------------------------- the registry

  datatype DocumentVariant = Plain | Encrypted

  type Documents = map<Path, DocumentVariant>

  class DocumentRegistry {
    var documents: Documents

    constructor ()
      ensures documents == map[]
    {
      documents := map[];
    }

    method Create(id: Path) returns (ok: bool)
      modifies this
      ensures ok <==> id !in old(documents)
      ensures documents == if ok then old(documents)[id := Plain] else old(documents)
    {
      if id in documents {
        return false;
      }
      documents := documents[id := Plain];
      ok := true;
    }

    predicate Get(id: Path)
      reads this
    {
      id in documents && documents[id] == Plain
    }

    predicate GetEncrypted(id: Path)
      reads this
    {
      id in documents && documents[id] == Encrypted
    }

    method CloseAny(id: Path)
      modifies this
      ensures documents == old(documents) - {id}
    {
      documents := documents - {id};
    }
  }

  // ---------------------------------------------------------------- scope

  /** `extensionOf` is the platform's notion of a file extension. */
  datatype VaultSyncConfig = VaultSyncConfig(
    syncFolders: seq<string>, excludePatterns: seq<string>, extensions: set<string>,
    syncDeletions: bool, syncRenames: bool, extensionOf: string -> string)

  function TrimGlob(pattern: string): string {
    if |pattern| >= 2 && pattern[|pattern| - 2..] == "/*" then TrimGlob(pattern[..|pattern| - 2]) else pattern
  }

  predicate ShouldSync(cfg: VaultSyncConfig, path: Path) {
    && cfg.extensionOf(path) in cfg.extensions
    && (cfg.syncFolders == [] || exists i :: 0 <= i < |cfg.syncFolders| && InFolder(path, cfg.syncFolders[i]))
    && !(exists i :: 0 <= i < |cfg.excludePatterns| && TrimGlob(cfg.excludePatterns[i]) <= path)
  }

  predicate InFolder(path: Path, folder: string) {
    path == folder || folder + "/" <= path
  }

  const MAX_NEW_PATHS_PER_APPLY := 1024
  const MAX_MANIFEST_UPDATE_BYTES := 1024 * 1024

  /** `k` copies of the directory suffix. */
  function Stars(k: nat): string {
    if k == 0 then "" else Stars(k - 1) + "/*"
  }

  predicate EndsInStar(p: string) {
    |p| >= 2 && p[|p| - 2] == '/' && p[|p| - 1] == '*'
  }

  lemma StarSuffix(p: string)
    ensures EndsInStar(p) <==> |p| >= 2 && p[|p| - 2..] == "/*"
  {
    if |p| >= 2 {
      assert p[|p| - 2..][0] == p[|p| - 2] && p[|p| - 2..][1] == p[|p| - 1];
    }
  }

  /** What is left of a pattern is what stands before all its trailing directory suffixes. */
  lemma {:induction false} TrimGlobExact(pattern: string) returns (k: nat)
    ensures pattern == TrimGlob(pattern) + Stars(k) && !EndsInStar(TrimGlob(pattern))
  {
    StarSuffix(pattern);
    if |pattern| >= 2 && pattern[|pattern| - 2..] == "/*" {
      var front := pattern[..|pattern| - 2];
      var n := TrimGlobExact(front);
      k := n + 1;
      assert pattern == front + "/*";
    } else {
      k := 0;
    }
  }

  predicate StartsWith(p: string, prefix: string) {
    |prefix| <= |p| && p[..|prefix|] == prefix
  }

  /** The path is the entry itself or lies behind the entry's own separator. */
  predicate UnderEntry(path: Path, entry: string) {
    path == entry || (StartsWith(path, entry) && |entry| < |path| && path[|entry|] == '/')
  }

  lemma InFolderExact(path: Path, entry: string)
    ensures InFolder(path, entry) <==> UnderEntry(path, entry)
  {
    var e := entry + "/";
    if |e| <= |path| {
      assert path[..|e|] == path[..|entry|] + [path[|entry|]];
      assert e[..|entry|] == entry && e[|entry|] == '/';
    }
  }

  /**
   Scope, written out: the extension is listed; there is no folder list, or the path is an entry of
   it or lies behind an entry's own separator; and the path starts with no exclude pattern, each
   taken without its trailing directory suffixes.
   */
  lemma ScopeExact(cfg: VaultSyncConfig, path: Path)
    ensures ShouldSync(cfg, path) <==>
      && cfg.extensionOf(path) in cfg.extensions
      && (cfg.syncFolders == [] || exists f :: f in cfg.syncFolders && UnderEntry(path, f))
      && (forall e :: e in cfg.excludePatterns ==> !StartsWith(path, TrimGlob(e)))
  {
    hide InFolder, UnderEntry, TrimGlob;
    forall f
      ensures InFolder(path, f) <==> UnderEntry(path, f)
    {
      InFolderExact(path, f);
    }
    if f :| f in cfg.syncFolders && UnderEntry(path, f) {
      var i :| 0 <= i < |cfg.syncFolders| && cfg.syncFolders[i] == f;
      assert InFolder(path, cfg.syncFolders[i]);
    }
    if e :| e in cfg.excludePatterns && StartsWith(path, TrimGlob(e)) {
      var i :| 0 <= i < |cfg.excludePatterns| && cfg.excludePatterns[i] == e;
      assert TrimGlob(cfg.excludePatterns[i]) <= path;
    }
  }

  // ---------------------------------------------------------------- agreement

  /** The registry holds exactly the in-scope alive paths. */
  ghost predicate Agrees(cfg: VaultSyncConfig, e: Entries, docs: Documents) {
    forall p :: p in docs <==> ShouldSync(cfg, p) && IsAlive(e, p)
  }

  /** The part that holds even among peers that write non-booleans: open paths are in scope and not deleted. */
  ghost predicate NearlyAgrees(cfg: VaultSyncConfig, e: Entries, docs: Documents) {
    && (forall p :: p in docs ==> ShouldSync(cfg, p) && (IsAlive(e, p) || IsForeign(e, p)))
    && (forall p :: ShouldSync(cfg, p) && IsAlive(e, p) ==> p in docs)
    && (forall p :: p in docs ==> docs[p] == Plain)
  }

  /** In-scope alive paths of `e` that are not open yet. */
  ghost predicate ToOpen(cfg: VaultSyncConfig, e: Entries, docs: Documents, p: Path) {
    IsAlive(e, p) && ShouldSync(cfg, p) && p !in docs
  }

  /** The registry after a remote update that merged the manifest to `e`. */
  ghost predicate Reconciled(cfg: VaultSyncConfig, e: Entries, before: Documents, after: Documents) {
    && (forall p :: p in after <==> (p in before || ToOpen(cfg, e, before, p)) && !IsTombstone(e, p))
    && (forall p :: p in after ==> after[p] == if p in before then before[p] else Plain)
  }

  /**
   A remote apply keeps the near agreement always, and restores full agreement exactly when the
   merge left none of the previously open paths holding a non-boolean.
   */
  lemma RemoteApplyExact(cfg: VaultSyncConfig, e: Entries, update: Entries, before: Documents, after: Documents)
    requires NearlyAgrees(cfg, e, before) && Reconciled(cfg, Merge(e, update), before, after)
    ensures NearlyAgrees(cfg, Merge(e, update), after)
    ensures Agrees(cfg, Merge(e, update), after) <==> forall p :: p in before ==> !IsForeign(Merge(e, update), p)
  {
    hide ShouldSync;
    var e' := Merge(e, update);
    forall p | p in before
      ensures p in e'
    {
    }
    if p :| p in before && IsForeign(e', p) {
      assert p in after && !IsAlive(e', p);
    }
  }

  lemma AllPlain(cfg: VaultSyncConfig, e: Entries, docs: Documents)
    requires NearlyAgrees(cfg, e, docs)
    ensures forall p :: p in docs ==> docs[p] == Plain
  {
  }

  /** Opening a path and marking it alive keeps either kind of agreement. */
  lemma OpenKeeps(cfg: VaultSyncConfig, e: Entries, e': Entries, docs: Documents, path: Path)
    requires NearlyAgrees(cfg, e, docs) && ShouldSync(cfg, path) && Written(e, e', path, Alive)
    ensures NearlyAgrees(cfg, e', docs[path := Plain])
    ensures Agrees(cfg, e, docs) ==> Agrees(cfg, e', docs[path := Plain])
  {
    hide ShouldSync;
  }

  /** Closing a path and marking it deleted keeps either kind of agreement. */
  lemma CloseKeeps(cfg: VaultSyncConfig, e: Entries, e': Entries, docs: Documents, path: Path)
    requires NearlyAgrees(cfg, e, docs) && Written(e, e', path, Deleted)
    ensures NearlyAgrees(cfg, e', docs - {path})
    ensures Agrees(cfg, e, docs) ==> Agrees(cfg, e', docs - {path})
  {
    hide ShouldSync;
  }

  // ---------------------------------------------------------------- whole histories

  datatype VaultState = VaultState(entries: Entries, documents: Documents)

  datatype VaultEvent =
    | CreatedAt(path: Path)
    | DeletedAt(path: Path)
    | RenamedAt(oldPath: Path, newPath: Path, between: Entries)
    | Received(update: Entries)
    | NothingDone

  /** One event, as the manager's methods below are proved to carry it out. */
  ghost predicate VaultStep(cfg: VaultSyncConfig, s: VaultState, ev: VaultEvent, s': VaultState) {
    match ev
    case CreatedAt(p) =>
      ShouldSync(cfg, p) && Written(s.entries, s'.entries, p, Alive) && s'.documents == s.documents[p := Plain]
    case DeletedAt(p) =>
      ShouldSync(cfg, p) && Written(s.entries, s'.entries, p, Deleted) && s'.documents == s.documents - {p}
    case RenamedAt(o, n, between) =>
      && ShouldSync(cfg, o) && ShouldSync(cfg, n)
      && Written(s.entries, between, o, Deleted) && Written(between, s'.entries, n, Alive)
      && s'.documents == (s.documents - {o})[n := Plain]
    case Received(update) =>
      s'.entries == Merge(s.entries, update) && Reconciled(cfg, s'.entries, s.documents, s'.documents)
    case NothingDone => s' == s
  }

  ghost predicate VaultHistory(cfg: VaultSyncConfig, states: seq<VaultState>, evs: seq<VaultEvent>) {
    && |states| == |evs| + 1
    && states[0] == VaultState(map[], map[])
    && (forall i :: 0 <= i < |evs| ==> VaultStep(cfg, states[i], evs[i], states[i + 1]))
  }

  /** No open path is ever overwritten with a non-boolean by a received update. */
  ghost predicate BooleanOnly(states: seq<VaultState>, evs: seq<VaultEvent>)
    requires |states| == |evs| + 1
  {
    forall i, p :: 0 <= i < |evs| && evs[i].Received? && p in states[i].documents ==> !IsForeign(states[i + 1].entries, p)
  }

  lemma VaultStepKeeps(cfg: VaultSyncConfig, s: VaultState, ev: VaultEvent, s': VaultState)
    requires VaultStep(cfg, s, ev, s') && NearlyAgrees(cfg, s.entries, s.documents)
    ensures NearlyAgrees(cfg, s'.entries, s'.documents)
    ensures Agrees(cfg, s.entries, s.documents)
      && (ev.Received? ==> forall p :: p in s.documents ==> !IsForeign(s'.entries, p))
      ==> Agrees(cfg, s'.entries, s'.documents)
  {
    hide ShouldSync, NearlyAgrees, Agrees, Written, Merge, Reconciled;
    match ev
    case CreatedAt(p) => OpenKeeps(cfg, s.entries, s'.entries, s.documents, p);
    case DeletedAt(p) => CloseKeeps(cfg, s.entries, s'.entries, s.documents, p);
    case RenamedAt(o, n, between) =>
      CloseKeeps(cfg, s.entries, between, s.documents, o);
      OpenKeeps(cfg, between, s'.entries, s.documents - {o}, n);
    case Received(update) => RemoteApplyExact(cfg, s.entries, update, s.documents, s'.documents);
    case NothingDone =>
  }

  /**
   Vault index agreement: after any mix of local events and remote applies every open path is in
   scope and not deleted and every in-scope alive path is open; and as long as no open path is
   overwritten with a non-boolean the registry holds exactly the in-scope alive paths.
   */
  lemma {:induction false} VaultIndexAgrees(cfg: VaultSyncConfig, states: seq<VaultState>, evs: seq<VaultEvent>)
    requires VaultHistory(cfg, states, evs)
    ensures NearlyAgrees(cfg, states[|evs|].entries, states[|evs|].documents)
    ensures BooleanOnly(states, evs) ==> Agrees(cfg, states[|evs|].entries, states[|evs|].documents)
  {
    hide ShouldSync, VaultStep;
    if evs != [] {
      var n := |evs| - 1;
      var states', evs' := states[..n + 1], evs[..n];
      VaultIndexAgrees(cfg, states', evs');
      VaultStepKeeps(cfg, states[n], evs[n], states[n + 1]);
      assert BooleanOnly(states, evs) ==> BooleanOnly(states', evs');
    }
  }

  /** Nothing out of scope is ever open, and nothing out of scope is marked by a local event. */
  lemma OutOfScopeUntouched(cfg: VaultSyncConfig, states: seq<VaultState>, evs: seq<VaultEvent>, p: Path, i: nat)
    requires VaultHistory(cfg, states, evs) && i <= |evs|
    requires cfg.extensionOf(p) !in cfg.extensions || exists e :: e in cfg.excludePatterns && StartsWith(p, TrimGlob(e))
    ensures p !in states[i].documents
    ensures i < |evs| && !evs[i].Received? && p in states[i + 1].entries ==>
      p in states[i].entries && states[i + 1].entries[p] == states[i].entries[p]
  {
    hide ShouldSync, Reconciled;
    ScopeExact(cfg, p);
    VaultIndexAgrees(cfg, states[..i + 1], evs[..i]);
    if i < |evs| {
      assert VaultStep(cfg, states[i], evs[i], states[i + 1]);
    }
  }

  /**
   The exact condition, over whole histories: registry and alive paths agree at every point if and
   only if no received update ever overwrote an open path with a non-boolean.
   */
  lemma {:induction false} VaultAgreesExact(cfg: VaultSyncConfig, states: seq<VaultState>, evs: seq<VaultEvent>)
    requires VaultHistory(cfg, states, evs)
    ensures (forall i :: 0 <= i <= |evs| ==> Agrees(cfg, states[i].entries, states[i].documents)) <==> BooleanOnly(states, evs)
  {
    hide ShouldSync, VaultStep, Agrees, NearlyAgrees;
    forall i | 0 <= i <= |evs|
      ensures BooleanOnly(states, evs) ==> Agrees(cfg, states[i].entries, states[i].documents)
    {
      VaultIndexAgrees(cfg, states[..i + 1], evs[..i]);
      assert BooleanOnly(states, evs) ==> BooleanOnly(states[..i + 1], evs[..i]);
    }
    if forall i :: 0 <= i <= |evs| ==> Agrees(cfg, states[i].entries, states[i].documents) {
      forall i, p | 0 <= i < |evs| && evs[i].Received? && p in states[i].documents
        ensures !IsForeign(states[i + 1].entries, p)
      {
        VaultIndexAgrees(cfg, states[..i + 1], evs[..i]);
        AgreementNeedsBooleans(cfg, states[i], evs[i], states[i + 1], p);
      }
    }
  }

  lemma AgreementNeedsBooleans(cfg: VaultSyncConfig, s: VaultState, ev: VaultEvent, s': VaultState, p: Path)
    requires VaultStep(cfg, s, ev, s') && ev.Received? && NearlyAgrees(cfg, s.entries, s.documents)
    requires Agrees(cfg, s'.entries, s'.documents) && p in s.documents
    ensures !IsForeign(s'.entries, p)
  {
    hide ShouldSync, NearlyAgrees, Agrees, Merge, Reconciled, IsForeign;
    RemoteApplyExact(cfg, s.entries, ev.update, s.documents, s'.documents);
  }

  /**
   A history without `BooleanOnly` need not agree: a file is created, then a peer's later cell for
   its path holds a non-boolean. The document stays open although its path is not alive.
   */
  lemma NonBooleanBreaksAgreement(cfg: VaultSyncConfig, path: Path, peer: nat) returns (states: seq<VaultState>, evs: seq<VaultEvent>)
    requires ShouldSync(cfg, path)
    ensures VaultHistory(cfg, states, evs)
    ensures !Agrees(cfg, states[|evs|].entries, states[|evs|].documents) && path in states[|evs|].documents
  {
    hide ShouldSync;
    var created := map[path := Cell(Stamp(1, peer), Alive)];
    var overwritten := map[path := Cell(Stamp(2, peer), Other)];
    var documents := map[path := Plain];
    states := [VaultState(map[], map[]), VaultState(created, documents), VaultState(overwritten, documents)];
    evs := [CreatedAt(path), Received(overwritten)];
    assert Merge(created, overwritten) == overwritten;
    assert VaultStep(cfg, states[0], evs[0], states[1]);
    assert VaultStep(cfg, states[1], evs[1], states[2]);
    assert path in documents && !IsAlive(overwritten, path);
  }

  // ---------------------------------------------------------------- the manager

  datatype SyncActionKind = FileCreated | FileDeleted | FileRenamed(newPath: Path) | Ignored

  class VaultSyncManager {
    const manifest: VaultManifest
    const registry: DocumentRegistry
    const config: VaultSyncConfig

    ghost predicate Valid()
      reads this, manifest, registry
    {
      && manifest.Valid()
      && NearlyAgrees(config, manifest.entries, registry.documents)
    }

    ghost function State(): VaultState
      reads this, manifest, registry
    {
      VaultState(manifest.entries, registry.documents)
    }

    ghost predicate InStep()
      reads this, manifest, registry
    {
      Agrees(config, manifest.entries, registry.documents)
    }

    constructor (config: VaultSyncConfig, peer: nat)
      ensures Valid() && InStep() && this.config == config
      ensures manifest.entries == map[] && registry.documents == map[]
    {
      this.config := config;
      manifest := new VaultManifest(peer);
      registry := new DocumentRegistry();
    }

    method HandleCreated(path: Path) returns (result: Result<SyncActionKind, ()>)
      requires Valid()
      modifies manifest, registry
      ensures Valid() && (old(InStep()) ==> InStep())
      ensures result == Ok(if ShouldSync(config, path) then FileCreated else Ignored)
      ensures VaultStep(config, old(State()), if ShouldSync(config, path) then CreatedAt(path) else NothingDone, State())
    {
      hide ShouldSync, Agrees, Written;
      if !ShouldSync(config, path) {
        return Ok(Ignored);
      }
      if !registry.Get(path) {
        var created := registry.Create(path);
        if !created {
          return Err(());
        }
      }
      manifest.AddFile(path);
      assert registry.documents == old(registry.documents)[path := Plain];
      OpenKeeps(config, old(manifest.entries), manifest.entries, old(registry.documents), path);
      return Ok(FileCreated);
    }

    method HandleDeleted(path: Path) returns (kind: SyncActionKind)
      requires Valid()
      modifies manifest, registry
      ensures Valid() && (old(InStep()) ==> InStep())
      ensures kind == if ShouldSync(config, path) && config.syncDeletions then FileDeleted else Ignored
      ensures VaultStep(config, old(State()), if kind == FileDeleted then DeletedAt(path) else NothingDone, State())
    {
      hide ShouldSync, Agrees, NearlyAgrees, Written;
      if !ShouldSync(config, path) || !config.syncDeletions {
        return Ignored;
      }
      registry.CloseAny(path);
      manifest.DeleteFile(path);
      CloseKeeps(config, old(manifest.entries), manifest.entries, old(registry.documents), path);
      return FileDeleted;
    }

    /** Close the old path, open the new one; renaming a path to itself leaves it open and alive. */
    method HandleRenamed(oldPath: Path, newPath: Path)
      returns (result: Result<SyncActionKind, ()>, ghost between: Entries)
      requires Valid()
      modifies manifest, registry
      ensures Valid() && (old(InStep()) ==> InStep())
      ensures var acts := config.syncRenames && ShouldSync(config, oldPath) && ShouldSync(config, newPath);
        result == Ok(if acts then FileRenamed(newPath) else Ignored)
      ensures VaultStep(config, old(State()),
        if result == Ok(Ignored) then NothingDone else RenamedAt(oldPath, newPath, between), State())
    {
      hide ShouldSync, Agrees, Written, NearlyAgrees;
      AllPlain(config, manifest.entries, registry.documents);
      between := manifest.entries;
      if !config.syncRenames || !ShouldSync(config, oldPath) || !ShouldSync(config, newPath) {
        return Ok(Ignored), between;
      }
      registry.CloseAny(oldPath);
      if !registry.Get(newPath) {
        var created := registry.Create(newPath);
        if !created {
          return Err(()), between;
        }
      }
      between := manifest.RenameFile(oldPath, newPath);
      assert registry.documents == (old(registry.documents) - {oldPath})[newPath := Plain];
      CloseKeeps(config, old(manifest.entries), between, old(registry.documents), oldPath);
      OpenKeeps(config, between, manifest.entries, old(registry.documents) - {oldPath}, newPath);
      return Ok(FileRenamed(newPath)), between;
    }

    /** The scratch copy: what the manifest would be, and which paths that would open. */
    method Preview(update: Update) returns (toOpen: Option<seq<Path>>)
      requires manifest.Valid()
      ensures toOpen.Some? <==> update.decoded.Some?
      ensures toOpen.Some? ==> Distinct(toOpen.value)
      ensures toOpen.Some? ==> forall p :: p in toOpen.value <==>
        ToOpen(config, Merge(manifest.entries, update.decoded.value), registry.documents, p)
    {
      hide ShouldSync, Merge;
      var scratch := new VaultManifest(0);
      var seeded := scratch.ApplyUpdate(Update(0, Some(manifest.entries)));
      MergeFromEmpty(manifest.entries);
      var applied := scratch.ApplyUpdate(update);
      if !applied {
        return None;
      }
      var files := scratch.ListFiles();
      var selected := Select(files);
      return Some(selected);
    }

    /** Register every path of a repeat-free list of unopened ones; no `create` fails. */
    method OpenAll(toOpen: seq<Path>) returns (registered: seq<Path>)
      requires Distinct(toOpen) && forall p :: p in toOpen ==> p !in registry.documents
      modifies registry
      ensures registered == toOpen
      ensures forall p :: p in registry.documents <==> p in old(registry.documents) || p in toOpen
      ensures forall p :: p in registry.documents ==>
        registry.documents[p] == if p in old(registry.documents) then old(registry.documents)[p] else Plain
    {
      registered := [];
      for i := 0 to |toOpen|
        invariant registered == toOpen[..i]
        invariant forall p :: p in registry.documents <==> p in old(registry.documents) || p in toOpen[..i]
        invariant forall p :: p in registry.documents ==>
          registry.documents[p] == if p in old(registry.documents) then old(registry.documents)[p] else Plain
      {
        assert toOpen[..i + 1] == toOpen[..i] + [toOpen[i]];
        assert toOpen[i] in toOpen && toOpen[i] !in toOpen[..i];
        var created := registry.Create(toOpen[i]);
        assert created;
        registered := registered + [toOpen[i]];
      }
      assert toOpen[..|toOpen|] == toOpen;
    }

    /**
     Apply a peer's manifest update, validated on a scratch copy first. It is refused, with nothing
     changed, exactly when it is too large, malformed or announces too many new paths; otherwise it
     returns exactly the newly opened paths. Full agreement then survives exactly when no open path
     was overwritten with a non-boolean.
     */
    method ApplyRemoteManifest(update: Update) returns (result: Result<seq<Path>, ()>)
      requires Valid()
      modifies manifest, registry
      ensures Valid()
      ensures result.Ok? && old(InStep()) ==>
        (InStep() <==> forall p :: p in old(registry.documents) ==> !IsForeign(manifest.entries, p))
      ensures result.Err? ==>
        && manifest.entries == old(manifest.entries)
        && registry.documents == old(registry.documents)
      ensures result.Ok? ==>
        && update.size <= 1_048_576 && update.decoded.Some?
        && VaultStep(config, old(State()), Received(update.decoded.value), State())
        && Distinct(result.value) && |result.value| <= 1024
        && (forall p :: p in result.value <==> ToOpen(config, manifest.entries, old(registry.documents), p))
      ensures result.Err? && update.size <= 1_048_576 && update.decoded.Some? ==>
        exists paths: seq<Path> ::
          && Distinct(paths) && |paths| > 1024
          && forall p :: p in paths ==>
               ToOpen(config, Merge(old(manifest.entries), update.decoded.value), old(registry.documents), p)
    {
      hide ShouldSync, Agrees, NearlyAgrees, Merge, IsTombstone, IsAlive, IsForeign, Distinct;
      if update.size > MAX_MANIFEST_UPDATE_BYTES {
        return Err(());
      }
      var toOpen := Preview(update);
      if toOpen.None? {
        return Err(());
      }
      if |toOpen.value| > MAX_NEW_PATHS_PER_APPLY {
        return Err(());
      }
      var merged := manifest.ApplyUpdate(update);
      var registered := OpenAll(toOpen.value);
      CloseTombstones();
      RemoteApplyExact(config, old(manifest.entries), update.decoded.value, old(registry.documents), registry.documents);
      return Ok(registered);
    }

    /** The in-scope paths among `files` that are open neither as plain nor as encrypted documents. */
    method Select(files: seq<Path>) returns (toOpen: seq<Path>)
      requires Distinct(files)
      ensures Distinct(toOpen)
      ensures forall p :: p in toOpen <==> p in files && ShouldSync(config, p) && p !in registry.documents
    {
      toOpen := [];
      for i := 0 to |files|
        invariant Distinct(toOpen)
        invariant forall p :: p in toOpen <==> p in files[..i] && ShouldSync(config, p) && p !in registry.documents
      {
        assert files[..i + 1] == files[..i] + [files[i]];
        if ShouldSync(config, files[i]) && !registry.Get(files[i]) && !registry.GetEncrypted(files[i]) {
          toOpen := toOpen + [files[i]];
        }
      }
      assert files[..|files|] == files;
    }

    /** Close every open document whose path the manifest says is deleted. */
    method CloseTombstones()
      modifies registry
      ensures forall p :: p in registry.documents <==> p in old(registry.documents) && !IsTombstone(manifest.entries, p)
      ensures forall p :: p in registry.documents ==> registry.documents[p] == old(registry.documents)[p]
    {
      var rest := registry.documents.Keys;
      while rest != {}
        invariant rest <= old(registry.documents).Keys
        invariant forall p :: p in registry.documents <==>
          p in old(registry.documents) && (p in rest || !IsTombstone(manifest.entries, p))
        invariant forall p :: p in registry.documents ==> registry.documents[p] == old(registry.documents)[p]
      {
        var p :| p in rest;
        rest := rest - {p};
        if p in manifest.entries && manifest.entries[p].value == Deleted {
          registry.CloseAny(p);
        }
      }
    }
  }

  lemma MergeFromEmpty(e: Entries)
    ensures Merge(map[], e) == e
  {
  }
}
