/**
 The plaintext layout of an encrypted snapshot (crates/collab-core/src/persistence.rs): the
 length-prefixed header, the storage map printed in whatever order the hash map iterates, and the
 cursor that reads both back from any bytes at all. The AEAD around it is not part of this model.
 */
module Snapshot {
  import opened Common
  import opened Sequences

  type Bytes = seq<byte>

  type Storage = map<Bytes, Bytes>

  type Entry = (Bytes, Bytes)

  const SNAPSHOT_VERSION: byte := 1
  const MAX_STORAGE_ENTRIES := 100_000

  datatype SnapshotError = Corrupt

  /** A parser's value and the cursor after it, or failure. */
  datatype Parsed<+T> = Got(value: T, pos: nat) | Bad

  // ---------------------------------------------------------------- printing

  /** A length that does not fit 32 bits is printed as the largest one that does. */
  function PutBytes(b: Bytes): Bytes {
    LittleEndian(Min(|b|, U32_LIMIT - 1), 4) + b
  }

  function PrintEntry(e: Entry): Bytes {
    LittleEndian(|e.0|, 8) + (e.0 + (LittleEndian(|e.1|, 8) + e.1))
  }

  function PrintEntries(es: seq<Entry>): Bytes {
    if es == [] then [] else PrintEntry(es[0]) + PrintEntries(es[1..])
  }

  function PrintStorage(es: seq<Entry>): Bytes {
    LittleEndian(|es|, 8) + PrintEntries(es)
  }

  datatype Header = Header(groupId: Bytes, userId: Bytes, scheme: nat, publicKey: Bytes, epoch: u64)

  function PrintHeader(h: Header): Bytes {
    [SNAPSHOT_VERSION]
    + (PutBytes(h.groupId)
       + (PutBytes(h.userId)
          + (LittleEndian(h.scheme, 2)
             + (PutBytes(h.publicKey)
                + LittleEndian(h.epoch, 8)))))
  }

  // ---------------------------------------------------------------- parsing

  /** `usize` is 4 or 8 bytes wide; no buffer is longer than it can count. */
  datatype Machine = Machine(wordMax: nat)

  /** `Reader::take`: checked addition, then a checked slice. */
  function TakeBytes(buf: Bytes, pos: nat, n: nat, mc: Machine): (r: Parsed<Bytes>)
    ensures r.Got? ==> pos <= r.pos == pos + n <= |buf| && r.value == buf[pos..r.pos]
  {
    if pos + n > mc.wordMax || pos + n > |buf| then Bad else Got(buf[pos..pos + n], pos + n)
  }

  function TakeWord(buf: Bytes, pos: nat, width: nat, mc: Machine): (r: Parsed<nat>)
    ensures r.Got? ==> pos <= r.pos == pos + width <= |buf| && r.value < Pow256(width)
  {
    var b := TakeBytes(buf, pos, width, mc);
    if b.Bad? then Bad else Got(FromLittleEndian(b.value), b.pos)
  }

  /** A length word of `width` bytes (which must fit a machine word) and that many bytes. */
  function TakeCounted(buf: Bytes, pos: nat, width: nat, mc: Machine): (r: Parsed<Bytes>)
    ensures r.Got? ==> pos + width <= r.pos <= |buf|
  {
    var n := TakeWord(buf, pos, width, mc);
    if n.Bad? || n.value > mc.wordMax then Bad else TakeBytes(buf, n.pos, n.value, mc)
  }

  /** `count` entries into `acc`; a repeated key keeps its last value. */
  function ParseEntries(buf: Bytes, pos: nat, count: nat, acc: Storage, mc: Machine): (r: Parsed<Storage>)
    ensures r.Got? ==> pos <= r.pos && (pos <= |buf| ==> r.pos <= |buf|)
    decreases count
  {
    if count == 0 then Got(acc, pos)
    else
      var k := TakeCounted(buf, pos, 8, mc);
      if k.Bad? then Bad
      else
        var v := TakeCounted(buf, k.pos, 8, mc);
        if v.Bad? then Bad else ParseEntries(buf, v.pos, count - 1, acc[k.value := v.value], mc)
  }

  function ParseStorage(buf: Bytes, pos: nat, mc: Machine): Parsed<Storage> {
    var count := TakeWord(buf, pos, 8, mc);
    if count.Bad? || count.value > MAX_STORAGE_ENTRIES then Bad
    else ParseEntries(buf, count.pos, count.value, map[], mc)
  }

  /** Checks made by foreign code on header fields: UTF-8 validity and known signature schemes. */
  datatype Checks = Checks(utf8: Bytes -> bool, scheme: nat -> bool)

  function ParseHeader(buf: Bytes, ck: Checks, mc: Machine): Parsed<Header> {
    var version := TakeWord(buf, 0, 1, mc);
    if version.Bad? || version.value != SNAPSHOT_VERSION then Bad
    else
      var groupId := TakeCounted(buf, version.pos, 4, mc);
      if groupId.Bad? then Bad
      else
        var userId := TakeCounted(buf, groupId.pos, 4, mc);
        if userId.Bad? || !ck.utf8(userId.value) then Bad
        else
          var scheme := TakeWord(buf, userId.pos, 2, mc);
          if scheme.Bad? || !ck.scheme(scheme.value) then Bad
          else
            var publicKey := TakeCounted(buf, scheme.pos, 4, mc);
            if publicKey.Bad? then Bad
            else
              var epoch := TakeWord(buf, publicKey.pos, 8, mc);
              if epoch.Bad? then Bad
              else
                WordWidths();
                Got(Header(groupId.value, userId.value, scheme.value, publicKey.value, epoch.value), epoch.pos)
  }

  datatype Restored = Fresh(header: Header, storage: Storage) | Stale

  /** The parsing part of `restore_encrypted`: a stale epoch stops before the storage is read. */
  function ParseSnapshot(buf: Bytes, minEpoch: u64, ck: Checks, mc: Machine): Parsed<Restored> {
    var header := ParseHeader(buf, ck, mc);
    if header.Bad? then Bad
    else if header.value.epoch < minEpoch then Got(Stale, header.pos)
    else
      var storage := ParseStorage(buf, header.pos, mc);
      if storage.Bad? then Bad else Got(Fresh(header.value, storage.value), storage.pos)
  }

  // ---------------------------------------------------------------- parsers look no further than their cursor

  lemma TakeExtends(buf: Bytes, more: Bytes, pos: nat, n: nat, mc: Machine)
    requires TakeBytes(buf, pos, n, mc).Got?
    ensures TakeBytes(buf + more, pos, n, mc) == TakeBytes(buf, pos, n, mc)
  {
    assert (buf + more)[pos..pos + n] == buf[pos..pos + n];
  }

  lemma TakeWordExtends(buf: Bytes, more: Bytes, pos: nat, width: nat, mc: Machine)
    requires TakeWord(buf, pos, width, mc).Got?
    ensures TakeWord(buf + more, pos, width, mc) == TakeWord(buf, pos, width, mc)
  {
    TakeExtends(buf, more, pos, width, mc);
  }

  lemma TakeCountedExtends(buf: Bytes, more: Bytes, pos: nat, width: nat, mc: Machine)
    requires TakeCounted(buf, pos, width, mc).Got?
    ensures TakeCounted(buf + more, pos, width, mc) == TakeCounted(buf, pos, width, mc)
  {
    var n := TakeWord(buf, pos, width, mc);
    TakeWordExtends(buf, more, pos, width, mc);
    TakeExtends(buf, more, n.pos, n.value, mc);
  }

  lemma {:induction false} ParseEntriesExtends(buf: Bytes, more: Bytes, pos: nat, count: nat, acc: Storage, mc: Machine)
    requires ParseEntries(buf, pos, count, acc, mc).Got?
    ensures ParseEntries(buf + more, pos, count, acc, mc) == ParseEntries(buf, pos, count, acc, mc)
    decreases count
  {
    hide TakeCounted;
    if count > 0 {
      var k := TakeCounted(buf, pos, 8, mc);
      TakeCountedExtends(buf, more, pos, 8, mc);
      var v := TakeCounted(buf, k.pos, 8, mc);
      TakeCountedExtends(buf, more, k.pos, 8, mc);
      ParseEntriesExtends(buf, more, v.pos, count - 1, acc[k.value := v.value], mc);
    }
  }

  lemma ParseHeaderExtends(buf: Bytes, more: Bytes, ck: Checks, mc: Machine)
    requires ParseHeader(buf, ck, mc).Got?
    ensures ParseHeader(buf + more, ck, mc) == ParseHeader(buf, ck, mc)
  {
    hide TakeWord, TakeCounted;
    TakeWordExtends(buf, more, 0, 1, mc);
    var p1 := TakeWord(buf, 0, 1, mc).pos;
    TakeCountedExtends(buf, more, p1, 4, mc);
    var p2 := TakeCounted(buf, p1, 4, mc).pos;
    TakeCountedExtends(buf, more, p2, 4, mc);
    var p3 := TakeCounted(buf, p2, 4, mc).pos;
    TakeWordExtends(buf, more, p3, 2, mc);
    var p4 := TakeWord(buf, p3, 2, mc).pos;
    TakeCountedExtends(buf, more, p4, 4, mc);
    TakeWordExtends(buf, more, TakeCounted(buf, p4, 4, mc).pos, 8, mc);
  }

  lemma ParseSnapshotExtends(buf: Bytes, more: Bytes, minEpoch: u64, ck: Checks, mc: Machine)
    requires ParseSnapshot(buf, minEpoch, ck, mc).Got?
    ensures ParseSnapshot(buf + more, minEpoch, ck, mc) == ParseSnapshot(buf, minEpoch, ck, mc)
  {
    hide ParseHeader, TakeWord, ParseEntries;
    ParseHeaderExtends(buf, more, ck, mc);
    var header := ParseHeader(buf, ck, mc);
    if header.value.epoch >= minEpoch {
      TakeWordExtends(buf, more, header.pos, 8, mc);
      var count := TakeWord(buf, header.pos, 8, mc);
      ParseEntriesExtends(buf, more, count.pos, count.value, map[], mc);
    }
  }

  // ---------------------------------------------------------------- round trip

  lemma TakeHere(pre: Bytes, b: Bytes, post: Bytes, mc: Machine)
    requires |pre + (b + post)| <= mc.wordMax
    ensures TakeBytes(pre + (b + post), |pre|, |b|, mc) == Got(b, |pre| + |b|)
  {
    assert (pre + (b + post))[|pre|..|pre| + |b|] == b;
  }

  lemma TakeWordHere(pre: Bytes, n: nat, width: nat, post: Bytes, mc: Machine)
    requires n < Pow256(width) && |pre + (LittleEndian(n, width) + post)| <= mc.wordMax
    ensures TakeWord(pre + (LittleEndian(n, width) + post), |pre|, width, mc) == Got(n, |pre| + width)
  {
    TakeHere(pre, LittleEndian(n, width), post, mc);
    LittleEndianRoundTrip(n, width);
  }

  lemma TakeCountedHere(pre: Bytes, b: Bytes, width: nat, post: Bytes, mc: Machine)
    requires |b| < Pow256(width) && |pre + (LittleEndian(|b|, width) + (b + post))| <= mc.wordMax
    ensures TakeCounted(pre + (LittleEndian(|b|, width) + (b + post)), |pre|, width, mc)
      == Got(b, |pre| + width + |b|)
  {
    var len := LittleEndian(|b|, width);
    TakeWordHere(pre, |b|, width, b + post, mc);
    assert pre + (len + (b + post)) == (pre + len) + (b + post);
    TakeHere(pre + len, b, post, mc);
  }

  /** The map that inserting the entries in order builds. */
  function MapOf(es: seq<Entry>, acc: Storage): Storage {
    if es == [] then acc else MapOf(es[1..], acc[es[0].0 := es[0].1])
  }

  lemma EntryHere(pre: Bytes, e: Entry, post: Bytes, mc: Machine)
    requires |e.0| < U64_LIMIT && |e.1| < U64_LIMIT && |pre + (PrintEntry(e) + post)| <= mc.wordMax
    ensures var buf := pre + (PrintEntry(e) + post);
      var k := TakeCounted(buf, |pre|, 8, mc);
      && k.Got? && k.value == e.0
      && TakeCounted(buf, k.pos, 8, mc) == Got(e.1, |pre| + |PrintEntry(e)|)
  {
    WordWidths();
    var buf := pre + (PrintEntry(e) + post);
    var l0, l1 := LittleEndian(|e.0|, 8), LittleEndian(|e.1|, 8);
    assert buf == pre + (l0 + (e.0 + (l1 + (e.1 + post))));
    TakeCountedHere(pre, e.0, 8, l1 + (e.1 + post), mc);
    var pre' := pre + (l0 + e.0);
    assert buf == pre' + (l1 + (e.1 + post));
    TakeCountedHere(pre', e.1, 8, post, mc);
  }

  lemma {:induction false} EntriesHere(pre: Bytes, es: seq<Entry>, post: Bytes, acc: Storage, mc: Machine)
    requires forall e :: e in es ==> |e.0| < U64_LIMIT && |e.1| < U64_LIMIT
    requires |pre + (PrintEntries(es) + post)| <= mc.wordMax
    ensures ParseEntries(pre + (PrintEntries(es) + post), |pre|, |es|, acc, mc)
      == Got(MapOf(es, acc), |pre| + |PrintEntries(es)|)
    decreases |es|
  {
    hide TakeCounted, PrintEntry;
    if es != [] {
      var e, rest := es[0], es[1..];
      var buf := pre + (PrintEntries(es) + post);
      assert PrintEntries(es) == PrintEntry(e) + PrintEntries(rest);
      assert buf == pre + (PrintEntry(e) + (PrintEntries(rest) + post));
      EntryHere(pre, e, PrintEntries(rest) + post, mc);
      var pre' := pre + PrintEntry(e);
      assert buf == pre' + (PrintEntries(rest) + post);
      EntriesHere(pre', rest, post, acc[e.0 := e.1], mc);
    }
  }

  /** `es` lists the entries of `m`, each once: one possible iteration of the hash map. */
  ghost predicate Iterates(es: seq<Entry>, m: Storage) {
    && (forall e :: e in es ==> e.0 in m && m[e.0] == e.1)
    && (forall k :: k in m ==> (k, m[k]) in es)
    && (forall i, j :: 0 <= i < j < |es| ==> es[i].0 != es[j].0)
  }

  lemma {:induction false} MapOfLookup(es: seq<Entry>, acc: Storage, k: Bytes)
    requires forall i, j :: 0 <= i < j < |es| ==> es[i].0 != es[j].0
    ensures k in MapOf(es, acc) <==> k in acc || exists e :: e in es && e.0 == k
    ensures forall e :: e in es && e.0 == k ==> k in MapOf(es, acc) && MapOf(es, acc)[k] == e.1
    ensures k in acc && (forall e :: e in es ==> e.0 != k) ==> MapOf(es, acc)[k] == acc[k]
    decreases |es|
  {
    if es != [] {
      var head, rest := es[0], es[1..];
      assert es == [head] + rest;
      MapOfLookup(rest, acc[head.0 := head.1], k);
      assert forall e :: e in es <==> e == head || e in rest;
      assert head.0 == k ==> forall e :: e in rest ==> e.0 != k;
    }
  }

  lemma MapOfIteration(es: seq<Entry>, m: Storage)
    requires Iterates(es, m)
    ensures MapOf(es, map[]) == m
  {
    forall k
      ensures k in MapOf(es, map[]) <==> k in m
      ensures k in m ==> MapOf(es, map[])[k] == m[k]
    {
      MapOfLookup(es, map[], k);
      if k in m {
        assert (k, m[k]) in es;
      }
    }
  }

  /** What the printed lengths can carry. */
  ghost predicate Printable(h: Header, m: Storage, ck: Checks) {
    && |h.groupId| < U32_LIMIT && |h.userId| < U32_LIMIT && |h.publicKey| < U32_LIMIT
    && h.scheme < 0x1_0000 && ck.utf8(h.userId) && ck.scheme(h.scheme)
    && |m| <= 100_000
    && (forall k :: k in m ==> |k| < U64_LIMIT && |m[k]| < U64_LIMIT)
  }

  lemma Regroup(a: Bytes, b: Bytes, c: Bytes)
    ensures (a + b) + c == a + (b + c)
  {
  }

  /** The printed header with what follows it, field after field. */
  lemma HeaderLayout(h: Header, post: Bytes)
    ensures PrintHeader(h) + post
      == [SNAPSHOT_VERSION]
         + (PutBytes(h.groupId)
            + (PutBytes(h.userId)
               + (LittleEndian(h.scheme, 2) + (PutBytes(h.publicKey) + (LittleEndian(h.epoch, 8) + post)))))
    ensures |PrintHeader(h)| == 1 + |PutBytes(h.groupId)| + |PutBytes(h.userId)| + 2 + |PutBytes(h.publicKey)| + 8
  {
    hide PutBytes, LittleEndian;
    var groupId, userId, publicKey := PutBytes(h.groupId), PutBytes(h.userId), PutBytes(h.publicKey);
    var scheme, epoch := LittleEndian(h.scheme, 2), LittleEndian(h.epoch, 8);
    Regroup([SNAPSHOT_VERSION], groupId + (userId + (scheme + (publicKey + epoch))), post);
    Regroup(groupId, userId + (scheme + (publicKey + epoch)), post);
    Regroup(userId, scheme + (publicKey + epoch), post);
    Regroup(scheme, publicKey + epoch, post);
    Regroup(publicKey, epoch, post);
  }

  /** The fields after the user id, read at the end of `pre`. */
  lemma KeyFieldsHere(pre: Bytes, h: Header, post: Bytes, mc: Machine)
    requires h.scheme < 0x1_0000 && |h.publicKey| < U32_LIMIT
    requires |pre + (LittleEndian(h.scheme, 2) + (PutBytes(h.publicKey) + (LittleEndian(h.epoch, 8) + post)))| <= mc.wordMax
    ensures var buf := pre + (LittleEndian(h.scheme, 2) + (PutBytes(h.publicKey) + (LittleEndian(h.epoch, 8) + post)));
      var p1 := |pre| + 2;
      var p2 := p1 + |PutBytes(h.publicKey)|;
      && TakeWord(buf, |pre|, 2, mc) == Got(h.scheme, p1)
      && TakeCounted(buf, p1, 4, mc) == Got(h.publicKey, p2)
      && TakeWord(buf, p2, 8, mc) == Got(h.epoch as nat, p2 + 8)
  {
    hide TakeWord, TakeCounted, PutBytes, LittleEndian, Pow256;
    WordWidths();
    var scheme, publicKey, epoch := LittleEndian(h.scheme, 2), PutBytes(h.publicKey), LittleEndian(h.epoch, 8);
    TakeWordHere(pre, h.scheme, 2, publicKey + (epoch + post), mc);
    Regroup(pre, scheme, publicKey + (epoch + post));
    PutBytesHere(pre + scheme, h.publicKey, epoch + post, mc);
    Regroup(pre + scheme, publicKey, epoch + post);
    TakeWordHere(pre + scheme + publicKey, h.epoch, 8, post, mc);
  }

  /** The version and the two ids, read from the start. */
  lemma IdFieldsHere(groupId: Bytes, userId: Bytes, post: Bytes, mc: Machine)
    requires |groupId| < U32_LIMIT && |userId| < U32_LIMIT
    requires |[SNAPSHOT_VERSION] + (PutBytes(groupId) + (PutBytes(userId) + post))| <= mc.wordMax
    ensures var buf := [SNAPSHOT_VERSION] + (PutBytes(groupId) + (PutBytes(userId) + post));
      var p1 := 1 + |PutBytes(groupId)|;
      && TakeWord(buf, 0, 1, mc) == Got(SNAPSHOT_VERSION as nat, 1)
      && TakeCounted(buf, 1, 4, mc) == Got(groupId, p1)
      && TakeCounted(buf, p1, 4, mc) == Got(userId, p1 + |PutBytes(userId)|)
  {
    hide TakeWord, TakeCounted, PutBytes;
    var version := [SNAPSHOT_VERSION];
    VersionHere(PutBytes(groupId) + (PutBytes(userId) + post), mc);
    PutBytesHere(version, groupId, PutBytes(userId) + post, mc);
    Regroup(version, PutBytes(groupId), PutBytes(userId) + post);
    PutBytesHere(version + PutBytes(groupId), userId, post, mc);
  }

  /** Six fields that read back one after the other are a header. */
  lemma FieldsMakeHeader(buf: Bytes, h: Header, p2: nat, p3: nat, p5: nat, p6: nat, ck: Checks, mc: Machine)
    requires TakeWord(buf, 0, 1, mc) == Got(SNAPSHOT_VERSION as nat, 1)
    requires TakeCounted(buf, 1, 4, mc) == Got(h.groupId, p2) && TakeCounted(buf, p2, 4, mc) == Got(h.userId, p3)
    requires TakeWord(buf, p3, 2, mc) == Got(h.scheme, p3 + 2) && TakeCounted(buf, p3 + 2, 4, mc) == Got(h.publicKey, p5)
    requires TakeWord(buf, p5, 8, mc) == Got(h.epoch as nat, p6)
    requires ck.utf8(h.userId) && ck.scheme(h.scheme)
    ensures ParseHeader(buf, ck, mc) == Got(h, p6)
  {
    hide TakeWord, TakeCounted;
  }

  lemma HeaderIds(h: Header, buf: Bytes, rest: Bytes, mc: Machine)
    requires |h.groupId| < U32_LIMIT && |h.userId| < U32_LIMIT && |buf| <= mc.wordMax
    requires buf == [SNAPSHOT_VERSION] + (PutBytes(h.groupId) + (PutBytes(h.userId) + rest))
    ensures var p2 := 1 + |PutBytes(h.groupId)|;
      && TakeWord(buf, 0, 1, mc) == Got(SNAPSHOT_VERSION as nat, 1)
      && TakeCounted(buf, 1, 4, mc) == Got(h.groupId, p2)
      && TakeCounted(buf, p2, 4, mc) == Got(h.userId, p2 + |PutBytes(h.userId)|)
  {
    IdFieldsHere(h.groupId, h.userId, rest, mc);
  }

  lemma HeaderKeys(h: Header, buf: Bytes, rest: Bytes, post: Bytes, mc: Machine)
    requires h.scheme < 0x1_0000 && |h.publicKey| < U32_LIMIT && |buf| <= mc.wordMax
    requires buf == [SNAPSHOT_VERSION] + (PutBytes(h.groupId) + (PutBytes(h.userId) + rest))
    requires rest == LittleEndian(h.scheme, 2) + (PutBytes(h.publicKey) + (LittleEndian(h.epoch, 8) + post))
    ensures var p3 := 1 + |PutBytes(h.groupId)| + |PutBytes(h.userId)|;
      var p5 := p3 + 2 + |PutBytes(h.publicKey)|;
      && TakeWord(buf, p3, 2, mc) == Got(h.scheme, p3 + 2)
      && TakeCounted(buf, p3 + 2, 4, mc) == Got(h.publicKey, p5)
      && TakeWord(buf, p5, 8, mc) == Got(h.epoch as nat, p5 + 8)
  {
    hide PutBytes, LittleEndian, TakeWord, TakeCounted;
    var ids := [SNAPSHOT_VERSION] + PutBytes(h.groupId) + PutBytes(h.userId);
    Regroup([SNAPSHOT_VERSION], PutBytes(h.groupId), PutBytes(h.userId) + rest);
    Regroup([SNAPSHOT_VERSION] + PutBytes(h.groupId), PutBytes(h.userId), rest);
    KeyFieldsHere(ids, h, post, mc);
  }

  lemma HeaderFields(h: Header, buf: Bytes, rest: Bytes, post: Bytes, ck: Checks, mc: Machine)
    requires |h.groupId| < U32_LIMIT && |h.userId| < U32_LIMIT && |h.publicKey| < U32_LIMIT
    requires h.scheme < 0x1_0000 && ck.utf8(h.userId) && ck.scheme(h.scheme) && |buf| <= mc.wordMax
    requires buf == [SNAPSHOT_VERSION] + (PutBytes(h.groupId) + (PutBytes(h.userId) + rest))
    requires rest == LittleEndian(h.scheme, 2) + (PutBytes(h.publicKey) + (LittleEndian(h.epoch, 8) + post))
    ensures ParseHeader(buf, ck, mc)
      == Got(h, 1 + |PutBytes(h.groupId)| + |PutBytes(h.userId)| + 2 + |PutBytes(h.publicKey)| + 8)
  {
    hide TakeWord, TakeCounted, PutBytes, LittleEndian, ParseHeader;
    HeaderIds(h, buf, rest, mc);
    HeaderKeys(h, buf, rest, post, mc);
    var p2 := 1 + |PutBytes(h.groupId)|;
    var p3 := p2 + |PutBytes(h.userId)|;
    var p5 := p3 + 2 + |PutBytes(h.publicKey)|;
    FieldsMakeHeader(buf, h, p2, p3, p5, p5 + 8, ck, mc);
  }

  lemma HeaderHere(h: Header, m: Storage, post: Bytes, ck: Checks, mc: Machine)
    requires Printable(h, m, ck) && |PrintHeader(h) + post| <= mc.wordMax
    ensures ParseHeader(PrintHeader(h) + post, ck, mc) == Got(h, |PrintHeader(h)|)
  {
    hide PutBytes, LittleEndian, ParseHeader, PrintHeader;
    HeaderLayout(h, post);
    var rest := LittleEndian(h.scheme, 2) + (PutBytes(h.publicKey) + (LittleEndian(h.epoch, 8) + post));
    HeaderFields(h, PrintHeader(h) + post, rest, post, ck, mc);
  }

  lemma VersionHere(rest: Bytes, mc: Machine)
    requires |[SNAPSHOT_VERSION] + rest| <= mc.wordMax
    ensures TakeWord([SNAPSHOT_VERSION] + rest, 0, 1, mc) == Got(SNAPSHOT_VERSION as nat, 1)
  {
    var buf := [SNAPSHOT_VERSION] + rest;
    assert buf[0..1] == [SNAPSHOT_VERSION];
    assert FromLittleEndian([]) == 0;
    assert [SNAPSHOT_VERSION][1..] == [];
  }

  lemma PutBytesHere(pre: Bytes, b: Bytes, post: Bytes, mc: Machine)
    requires |b| < U32_LIMIT && |pre + (PutBytes(b) + post)| <= mc.wordMax
    ensures TakeCounted(pre + (PutBytes(b) + post), |pre|, 4, mc) == Got(b, |pre| + |PutBytes(b)|)
  {
    WordWidths();
    assert PutBytes(b) + post == LittleEndian(|b|, 4) + (b + post);
    TakeCountedHere(pre, b, 4, post, mc);
  }

  /**
   Snapshot round trip: for every header and storage map within the format's limits and whatever
   order the map iterates in, parsing what was printed gives both back with the cursor at the end;
   or, when the epoch is older than the caller accepts, stops as stale right after the header.
   */
  lemma SnapshotRoundTrip(h: Header, m: Storage, es: seq<Entry>, minEpoch: u64, ck: Checks, mc: Machine)
    requires Printable(h, m, ck) && Iterates(es, m)
    requires |PrintHeader(h) + PrintStorage(es)| <= mc.wordMax
    ensures ParseSnapshot(PrintHeader(h) + PrintStorage(es), minEpoch, ck, mc)
      == if h.epoch < minEpoch then Got(Stale, |PrintHeader(h)|)
         else Got(Fresh(h, m), |PrintHeader(h) + PrintStorage(es)|)
  {
    hide ParseHeader, PrintHeader, ParseStorage, PrintStorage, Iterates;
    HeaderHere(h, m, PrintStorage(es), ck, mc);
    StorageHere(PrintHeader(h), m, es, mc);
  }

  /** The storage half: a printed map parses back to itself wherever it starts. */
  lemma StorageHere(pre: Bytes, m: Storage, es: seq<Entry>, mc: Machine)
    requires Iterates(es, m) && |m| <= MAX_STORAGE_ENTRIES
    requires forall k :: k in m ==> |k| < U64_LIMIT && |m[k]| < U64_LIMIT
    requires |pre + PrintStorage(es)| <= mc.wordMax
    ensures ParseStorage(pre + PrintStorage(es), |pre|, mc) == Got(m, |pre + PrintStorage(es)|)
  {
    hide TakeWord, LittleEndian, Pow256, ParseEntries, MapOf;
    WordWidths();
    IterationLength(es, m);
    var count := LittleEndian(|es|, 8);
    TakeWordHere(pre, |es|, 8, PrintEntries(es), mc);
    assert pre + PrintStorage(es) == (pre + count) + (PrintEntries(es) + []);
    EntriesHere(pre + count, es, [], map[], mc);
    MapOfIteration(es, m);
  }

  lemma IterationLength(es: seq<Entry>, m: Storage)
    requires Iterates(es, m)
    ensures |es| == |m|
  {
    var keys := seq(|es|, i requires 0 <= i < |es| => es[i].0);
    assert forall k :: k in m ==> (k, m[k]) in es;
    forall k
      ensures k in keys <==> k in m.Keys
    {
      if k in m {
        var i :| 0 <= i < |es| && es[i] == (k, m[k]);
        assert keys[i] == k;
      }
    }
    DistinctLength(keys, m.Keys);
  }

  /**
   No strict prefix of a printed snapshot is taken for a snapshot, except that one whose epoch is
   older than the caller accepts is stale as soon as its whole header is there.
   */
  lemma StrictPrefixRejected(h: Header, m: Storage, es: seq<Entry>, cut: nat, minEpoch: u64, ck: Checks, mc: Machine)
    requires Printable(h, m, ck) && Iterates(es, m)
    requires |PrintHeader(h) + PrintStorage(es)| <= mc.wordMax
    requires cut < |PrintHeader(h) + PrintStorage(es)|
    ensures ParseSnapshot((PrintHeader(h) + PrintStorage(es))[..cut], minEpoch, ck, mc)
      == if h.epoch < minEpoch && |PrintHeader(h)| <= cut then Got(Stale, |PrintHeader(h)|) else Bad
  {
    hide ParseSnapshot, PrintHeader, PrintStorage, Iterates, Printable;
    var buf := PrintHeader(h) + PrintStorage(es);
    if ParseSnapshot(buf[..cut], minEpoch, ck, mc).Got? {
      assert buf == buf[..cut] + buf[cut..];
      ParseSnapshotExtends(buf[..cut], buf[cut..], minEpoch, ck, mc);
      SnapshotRoundTrip(h, m, es, minEpoch, ck, mc);
      CursorInBounds(buf[..cut], minEpoch, ck, mc);
    } else if h.epoch < minEpoch && |PrintHeader(h)| <= cut {
      assert buf[..cut] == PrintHeader(h) + buf[..cut][|PrintHeader(h)|..];
      StaleAfterHeader(h, m, buf[..cut][|PrintHeader(h)|..], minEpoch, ck, mc);
    }
  }

  lemma StaleAfterHeader(h: Header, m: Storage, post: Bytes, minEpoch: u64, ck: Checks, mc: Machine)
    requires Printable(h, m, ck) && |PrintHeader(h) + post| <= mc.wordMax && h.epoch < minEpoch
    ensures ParseSnapshot(PrintHeader(h) + post, minEpoch, ck, mc) == Got(Stale, |PrintHeader(h)|)
  {
    hide PrintHeader, ParseHeader, Printable;
    HeaderHere(h, m, post, ck, mc);
  }

  lemma CursorInBounds(buf: Bytes, minEpoch: u64, ck: Checks, mc: Machine)
    ensures var r := ParseSnapshot(buf, minEpoch, ck, mc); r.Got? ==> r.pos <= |buf|
  {
  }

  // ---------------------------------------------------------------- the format, by offsets

  lemma SliceAt(pre: Bytes, x: Bytes, post: Bytes)
    ensures (pre + (x + post))[|pre|..|pre| + |x|] == x
  {
  }

  /** A counted field: four bytes of length, then the field. */
  lemma FieldAt(pre: Bytes, b: Bytes, post: Bytes)
    requires |b| < U32_LIMIT
    ensures var out := pre + (PutBytes(b) + post);
      && |PutBytes(b)| == 4 + |b|
      && out[|pre|..|pre| + 4] == LittleEndian(|b|, 4) && out[|pre| + 4..|pre| + 4 + |b|] == b
  {
    hide LittleEndian;
    var n := LittleEndian(|b|, 4);
    Regroup(n, b, post);
    SliceAt(pre, n, b + post);
    Regroup(pre, n, b + post);
    SliceAt(pre + n, b, post);
  }

  /** Where each header field stands: version, group id, user id, scheme, public key, epoch. */
  lemma HeaderFormat(h: Header)
    requires |h.groupId| < U32_LIMIT && |h.userId| < U32_LIMIT && |h.publicKey| < U32_LIMIT
    ensures var out, g, u, k := PrintHeader(h), |h.groupId|, |h.userId|, |h.publicKey|;
      && |out| == 23 + g + u + k
      && out[0] == 1
      && out[1..5] == LittleEndian(g, 4) && out[5..5 + g] == h.groupId
      && out[5 + g..9 + g] == LittleEndian(u, 4) && out[9 + g..9 + g + u] == h.userId
      && out[9 + g + u..11 + g + u] == LittleEndian(h.scheme, 2)
      && out[11 + g + u..15 + g + u] == LittleEndian(k, 4) && out[15 + g + u..15 + g + u + k] == h.publicKey
      && out[15 + g + u + k..] == LittleEndian(h.epoch, 8)
  {
    hide PutBytes, LittleEndian;
    var v, g, u, k := [SNAPSHOT_VERSION], PutBytes(h.groupId), PutBytes(h.userId), PutBytes(h.publicKey);
    var s, e := LittleEndian(h.scheme, 2), LittleEndian(h.epoch, 8);
    FieldAt(v, h.groupId, u + (s + (k + e)));
    Regroup(v, g, u + (s + (k + e)));
    FieldAt(v + g, h.userId, s + (k + e));
    Regroup(v + g, u, s + (k + e));
    SliceAt(v + g + u, s, k + e);
    Regroup(v + g + u, s, k + e);
    FieldAt(v + g + u + s, h.publicKey, e);
    Regroup(v + g + u + s, k, e);
  }

  /** The map: its size in eight bytes, then per entry the key's length, the key, the value's length, the value. */
  lemma StorageFormat(e: Entry, rest: seq<Entry>)
    ensures var out, k, v := PrintStorage([e] + rest), |e.0|, |e.1|;
      && |out| >= 24 + k + v
      && out[..8] == LittleEndian(1 + |rest|, 8)
      && out[8..16] == LittleEndian(k, 8) && out[16..16 + k] == e.0
      && out[16 + k..24 + k] == LittleEndian(v, 8) && out[24 + k..24 + k + v] == e.1
      && out[24 + k + v..] == PrintEntries(rest)
  {
    hide LittleEndian;
    var n, a, b := LittleEndian(1 + |rest|, 8), LittleEndian(|e.0|, 8), LittleEndian(|e.1|, 8);
    var tail := PrintEntries(rest);
    assert ([e] + rest)[1..] == rest;
    assert PrintStorage([e] + rest) == n + (PrintEntry(e) + tail);
    Regroup(a, e.0 + (b + e.1), tail);
    Regroup(e.0, b + e.1, tail);
    Regroup(b, e.1, tail);
    SliceAt(n, a, e.0 + (b + (e.1 + tail)));
    Regroup(n, a, e.0 + (b + (e.1 + tail)));
    SliceAt(n + a, e.0, b + (e.1 + tail));
    Regroup(n + a, e.0, b + (e.1 + tail));
    SliceAt(n + a + e.0, b, e.1 + tail);
    Regroup(n + a + e.0, b, e.1 + tail);
    SliceAt(n + a + e.0 + b, e.1, tail);
    Regroup(n + a + e.0 + b, e.1, tail);
  }

  // ---------------------------------------------------------------- what is accepted is a print

  /** A word read is the word's own bytes. */
  lemma WordConsumed(buf: Bytes, pos: nat, width: nat, mc: Machine)
    requires TakeWord(buf, pos, width, mc).Got?
    ensures var w := TakeWord(buf, pos, width, mc); buf[pos..w.pos] == LittleEndian(w.value, width)
  {
    hide LittleEndian, FromLittleEndian, Pow256;
    FromLittleEndianRoundTrip(buf[pos..pos + width]);
  }

  /** A counted field read is its length word and its bytes. */
  lemma CountedConsumed(buf: Bytes, pos: nat, width: nat, mc: Machine)
    requires TakeCounted(buf, pos, width, mc).Got?
    ensures var f := TakeCounted(buf, pos, width, mc);
      buf[pos..f.pos] == LittleEndian(|f.value|, width) + f.value && |f.value| < Pow256(width)
  {
    hide LittleEndian, FromLittleEndian, Pow256;
    var n := TakeWord(buf, pos, width, mc);
    WordConsumed(buf, pos, width, mc);
    Join(buf, pos, n.pos, n.pos + n.value);
  }

  lemma Join(buf: Bytes, a: nat, b: nat, c: nat)
    requires a <= b <= c <= |buf|
    ensures buf[a..c] == buf[a..b] + buf[b..c]
  {
  }

  lemma PutBytesConsumed(buf: Bytes, pos: nat, mc: Machine)
    requires TakeCounted(buf, pos, 4, mc).Got?
    ensures var f := TakeCounted(buf, pos, 4, mc); buf[pos..f.pos] == PutBytes(f.value) && |f.value| < U32_LIMIT
  {
    hide LittleEndian, TakeCounted;
    WordWidths();
    CountedConsumed(buf, pos, 4, mc);
  }

  /** The consumed bytes of a header, field by field. */
  lemma FieldsConsumed(buf: Bytes, p2: nat, p3: nat, p4: nat, p5: nat, p6: nat, g: Bytes, u: Bytes, s: Bytes, k: Bytes, e: Bytes)
    requires 1 <= p2 <= p3 <= p4 <= p5 <= p6 <= |buf|
    requires buf[0..1] == [SNAPSHOT_VERSION] && buf[1..p2] == g && buf[p2..p3] == u && buf[p3..p4] == s
    requires buf[p4..p5] == k && buf[p5..p6] == e
    ensures buf[..p6] == [SNAPSHOT_VERSION] + (g + (u + (s + (k + e))))
  {
    Join(buf, p4, p5, p6);
    Join(buf, p3, p4, p6);
    Join(buf, p2, p3, p6);
    Join(buf, 1, p2, p6);
    Join(buf, 0, 1, p6);
    assert buf[..p6] == buf[0..p6];
  }

  /**
   Only printed headers are accepted: the bytes a parsed header consumed are exactly that header's
   print, with the version byte in front, and its user id and scheme passed their checks.
   */
  lemma HeaderConsumed(buf: Bytes, ck: Checks, mc: Machine)
    requires ParseHeader(buf, ck, mc).Got?
    ensures var p := ParseHeader(buf, ck, mc);
      && p.pos <= |buf| && buf[..p.pos] == PrintHeader(p.value)
      && buf[0] == 1 && ck.utf8(p.value.userId) && ck.scheme(p.value.scheme)
  {
    hide TakeCounted, PutBytes, LittleEndian, Pow256;
    var p := ParseHeader(buf, ck, mc);
    WordWidths();
    var p2 := TakeCounted(buf, 1, 4, mc).pos;
    var p3 := TakeCounted(buf, p2, 4, mc).pos;
    var p4 := p3 + 2;
    var p5 := TakeCounted(buf, p4, 4, mc).pos;
    VersionConsumed(buf, mc);
    PutBytesConsumed(buf, 1, mc);
    PutBytesConsumed(buf, p2, mc);
    WordConsumed(buf, p3, 2, mc);
    PutBytesConsumed(buf, p4, mc);
    WordConsumed(buf, p5, 8, mc);
    FieldsConsumed(buf, p2, p3, p4, p5, p5 + 8, PutBytes(p.value.groupId), PutBytes(p.value.userId),
      LittleEndian(p.value.scheme, 2), PutBytes(p.value.publicKey), LittleEndian(p.value.epoch, 8));
  }

  lemma VersionConsumed(buf: Bytes, mc: Machine)
    requires TakeWord(buf, 0, 1, mc).Got? && TakeWord(buf, 0, 1, mc).value == SNAPSHOT_VERSION
    ensures |buf| >= 1 && buf[0..1] == [SNAPSHOT_VERSION] && buf[0] == 1
  {
    assert buf[0..1][0] == buf[0] && buf[0..1][1..] == [];
    assert FromLittleEndian([]) == 0;
  }

  lemma EntryConsumed(buf: Bytes, pos: nat, mid: nat, end: nat, k: Bytes, v: Bytes)
    requires pos <= mid <= end <= |buf|
    requires buf[pos..mid] == LittleEndian(|k|, 8) + k && buf[mid..end] == LittleEndian(|v|, 8) + v
    ensures buf[pos..end] == PrintEntry((k, v))
  {
    hide LittleEndian;
    Join(buf, pos, mid, end);
    Regroup(LittleEndian(|k|, 8), k, LittleEndian(|v|, 8) + v);
  }

  lemma {:induction false} EntriesConsumed(buf: Bytes, pos: nat, count: nat, acc: Storage, mc: Machine) returns (es: seq<Entry>)
    requires pos <= |buf| && ParseEntries(buf, pos, count, acc, mc).Got?
    ensures var p := ParseEntries(buf, pos, count, acc, mc);
      |es| == count && buf[pos..p.pos] == PrintEntries(es) && p.value == MapOf(es, acc)
    decreases count
  {
    hide TakeCounted, PrintEntry, LittleEndian;
    if count == 0 {
      es := [];
    } else {
      var k := TakeCounted(buf, pos, 8, mc);
      var v := TakeCounted(buf, k.pos, 8, mc);
      CountedConsumed(buf, pos, 8, mc);
      CountedConsumed(buf, k.pos, 8, mc);
      EntryConsumed(buf, pos, k.pos, v.pos, k.value, v.value);
      var rest := EntriesConsumed(buf, v.pos, count - 1, acc[k.value := v.value], mc);
      es := [(k.value, v.value)] + rest;
      assert es[1..] == rest;
      Join(buf, pos, v.pos, ParseEntries(buf, pos, count, acc, mc).pos);
    }
  }

  /** A key printed more than once has its last value. */
  lemma {:induction false} LastValueWins(es: seq<Entry>, acc: Storage, i: nat)
    requires i < |es| && forall j :: i < j < |es| ==> es[j].0 != es[i].0
    ensures es[i].0 in MapOf(es, acc) && MapOf(es, acc)[es[i].0] == es[i].1
    decreases |es|
  {
    var rest, acc' := es[1..], acc[es[0].0 := es[0].1];
    if i > 0 {
      assert forall j :: i - 1 < j < |rest| ==> rest[j] == es[j + 1];
      LastValueWins(rest, acc', i - 1);
    } else {
      KeptWhenAbsent(rest, acc', es[0].0);
    }
  }

  lemma {:induction false} KeptWhenAbsent(es: seq<Entry>, acc: Storage, k: Bytes)
    requires k in acc && forall j :: 0 <= j < |es| ==> es[j].0 != k
    ensures k in MapOf(es, acc) && MapOf(es, acc)[k] == acc[k]
    decreases |es|
  {
    if es != [] {
      KeptWhenAbsent(es[1..], acc[es[0].0 := es[0].1], k);
    }
  }

  /**
   Only prints are accepted: whenever fresh state is read from any bytes, the consumed bytes are the
   printed header followed by a printed list of at most 100000 entries whose last values make the map.
   */
  lemma OnlyPrintsAccepted(buf: Bytes, minEpoch: u64, ck: Checks, mc: Machine) returns (es: seq<Entry>)
    requires ParseSnapshot(buf, minEpoch, ck, mc).Got? && ParseSnapshot(buf, minEpoch, ck, mc).value.Fresh?
    ensures var p := ParseSnapshot(buf, minEpoch, ck, mc);
      && p.pos <= |buf| && buf[..p.pos] == PrintHeader(p.value.header) + PrintStorage(es)
      && |es| <= 100_000 && p.value.storage == MapOf(es, map[])
      && p.value.header.epoch >= minEpoch
      && buf[0] == 1 && ck.utf8(p.value.header.userId) && ck.scheme(p.value.header.scheme)
  {
    hide ParseHeader, PrintHeader, PrintEntries, ParseEntries, LittleEndian, MapOf;
    var h := ParseHeader(buf, ck, mc);
    HeaderConsumed(buf, ck, mc);
    WordConsumed(buf, h.pos, 8, mc);
    var count := TakeWord(buf, h.pos, 8, mc);
    var end := ParseSnapshot(buf, minEpoch, ck, mc).pos;
    es := EntriesConsumed(buf, count.pos, count.value, map[], mc);
    Join(buf, h.pos, count.pos, end);
    assert buf[..end] == buf[..h.pos] + buf[h.pos..end];
  }

  // ---------------------------------------------------------------- the code

  class Reader {
    const buf: Bytes
    const mc: Machine
    var pos: nat

    ghost predicate Valid()
      reads this
    {
      pos <= |buf|
    }

    constructor (buf: Bytes, mc: Machine)
      ensures Valid() && this.buf == buf && this.mc == mc && pos == 0
    {
      this.buf, this.mc, pos := buf, mc, 0;
    }

    /** On failure the cursor does not move. */
    method Take(n: nat) returns (r: Result<Bytes, SnapshotError>)
      requires Valid()
      modifies this
      ensures Valid()
      ensures var p := TakeBytes(buf, old(pos), n, mc);
        if p.Bad? then r == Err(Corrupt) && pos == old(pos) else r == Ok(p.value) && pos == p.pos
    {
      if pos + n > mc.wordMax || pos + n > |buf| {
        return Err(Corrupt);
      }
      var slice := buf[pos..pos + n];
      pos := pos + n;
      return Ok(slice);
    }

    /** `u8`, `u32` and `u64`, by width. */
    method Word(width: nat) returns (r: Result<nat, SnapshotError>)
      requires Valid()
      modifies this
      ensures Valid()
      ensures var p := TakeWord(buf, old(pos), width, mc);
        if p.Bad? then r == Err(Corrupt) else r == Ok(p.value) && pos == p.pos
    {
      var b := Take(width);
      if b.Err? {
        return Err(Corrupt);
      }
      return Ok(FromLittleEndian(b.value));
    }

    /** A length word and that many bytes. */
    method Counted(width: nat) returns (r: Result<Bytes, SnapshotError>)
      requires Valid()
      modifies this
      ensures Valid()
      ensures var p := TakeCounted(buf, old(pos), width, mc);
        if p.Bad? then r == Err(Corrupt) else r == Ok(p.value) && pos == p.pos
    {
      var n := Word(width);
      if n.Err? || n.value > mc.wordMax {
        return Err(Corrupt);
      }
      r := Take(n.value);
    }
  }

  class Provider {
    var values: Storage

    constructor ()
      ensures values == map[]
    {
      values := map[];
    }

    /** Print the map in whatever order it iterates; `order` is that order. */
    method EncodeStorage() returns (out: Bytes, ghost order: seq<Entry>)
      ensures Iterates(order, values)
      ensures out == PrintStorage(order)
    {
      order := [];
      var body := [];
      var rest := values.Keys;
      while rest != {}
        invariant rest <= values.Keys
        invariant forall e :: e in order ==> e.0 in values && e.0 !in rest && values[e.0] == e.1
        invariant forall k :: k in values && k !in rest ==> (k, values[k]) in order
        invariant forall i, j :: 0 <= i < j < |order| ==> order[i].0 != order[j].0
        invariant body == PrintEntries(order)
      {
        var k :| k in rest;
        rest := rest - {k};
        var v := values[k];
        PrintEntriesSnoc(order, (k, v));
        body := body + LittleEndian(|k|, 8);
        body := body + k;
        body := body + LittleEndian(|v|, 8);
        body := body + v;
        order := order + [(k, v)];
      }
      IterationLength(order, values);
      out := LittleEndian(|values|, 8) + body;
    }

    /** Parse the map from any bytes; storage changes only if all of it parsed. */
    method DecodeStorage(reader: Reader) returns (r: Result<(), SnapshotError>)
      requires reader.Valid()
      modifies this, reader
      ensures reader.Valid()
      ensures var p := ParseStorage(reader.buf, old(reader.pos), reader.mc);
        if p.Bad? then r == Err(Corrupt) && values == old(values)
        else r == Ok(()) && values == p.value && reader.pos == p.pos
    {
      hide TakeBytes, TakeWord, TakeCounted;
      var count := reader.Word(8);
      if count.Err? || count.value > MAX_STORAGE_ENTRIES {
        return Err(Corrupt);
      }
      var decoded: Storage := map[];
      ghost var start := reader.pos;
      var i := 0;
      while i < count.value
        invariant i <= count.value && reader.Valid() && values == old(values)
        invariant ParseEntries(reader.buf, start, count.value, map[], reader.mc)
          == ParseEntries(reader.buf, reader.pos, count.value - i, decoded, reader.mc)
      {
        var k := reader.Counted(8);
        if k.Err? {
          return Err(Corrupt);
        }
        var v := reader.Counted(8);
        if v.Err? {
          return Err(Corrupt);
        }
        decoded := decoded[k.value := v.value];
        i := i + 1;
      }
      values := decoded;
      return Ok(());
    }
  }

  /** The plaintext that `snapshot_encrypted` seals. */
  method BuildSnapshot(h: Header, provider: Provider) returns (out: Bytes, ghost order: seq<Entry>)
    ensures Iterates(order, provider.values)
    ensures out == PrintHeader(h) + PrintStorage(order)
  {
    hide PutBytes, LittleEndian, PrintStorage, Iterates;
    out := [SNAPSHOT_VERSION];
    out := out + PutBytes(h.groupId);
    out := out + PutBytes(h.userId);
    out := out + LittleEndian(h.scheme, 2);
    out := out + PutBytes(h.publicKey);
    out := out + LittleEndian(h.epoch, 8);
    assert out == PrintHeader(h);
    var storage;
    storage, order := provider.EncodeStorage();
    out := out + storage;
  }

  /** What `restore_encrypted` reads back; the provider changes only if everything parsed. */
  method RestoreSnapshot(plaintext: Bytes, provider: Provider, minEpoch: u64, ck: Checks, mc: Machine)
    returns (r: Result<Option<Header>, SnapshotError>)
    modifies provider
    ensures var p := ParseSnapshot(plaintext, minEpoch, ck, mc);
      match p
      case Bad => r == Err(Corrupt) && provider.values == old(provider.values)
      case Got(Stale, _) => r == Ok(None) && provider.values == old(provider.values)
      case Got(Fresh(header, storage), _) => r == Ok(Some(header)) && provider.values == storage
  {
    hide TakeWord, TakeCounted, ParseStorage;
    var reader := new Reader(plaintext, mc);
    var version := reader.Word(1);
    if version.Err? || version.value != SNAPSHOT_VERSION {
      return Err(Corrupt);
    }
    var groupId := reader.Counted(4);
    if groupId.Err? {
      return Err(Corrupt);
    }
    var userId := reader.Counted(4);
    if userId.Err? || !ck.utf8(userId.value) {
      return Err(Corrupt);
    }
    var scheme := reader.Word(2);
    if scheme.Err? || !ck.scheme(scheme.value) {
      return Err(Corrupt);
    }
    var publicKey := reader.Counted(4);
    if publicKey.Err? {
      return Err(Corrupt);
    }
    var epoch := reader.Word(8);
    if epoch.Err? {
      return Err(Corrupt);
    }
    WordWidths();
    var header := Header(groupId.value, userId.value, scheme.value, publicKey.value, epoch.value);
    if header.epoch < minEpoch {
      return Ok(None);
    }
    var decoded := provider.DecodeStorage(reader);
    if decoded.Err? {
      return Err(Corrupt);
    }
    return Ok(Some(header));
  }

  lemma PrintEntriesSnoc(es: seq<Entry>, e: Entry)
    ensures PrintEntries(es + [e])
      == (((PrintEntries(es) + LittleEndian(|e.0|, 8)) + e.0) + LittleEndian(|e.1|, 8)) + e.1
  {
    hide LittleEndian, PrintEntry;
    PrintEntriesAppend(es, e);
    PrintedEntry(PrintEntries(es), e);
  }

  lemma {:induction false} PrintEntriesAppend(es: seq<Entry>, e: Entry)
    ensures PrintEntries(es + [e]) == PrintEntries(es) + PrintEntry(e)
  {
    hide PrintEntry;
    if es == [] {
      assert (es + [e])[1..] == [];
      assert PrintEntries([e]) == PrintEntry(e) + [];
    } else {
      assert (es + [e])[1..] == es[1..] + [e];
      PrintEntriesAppend(es[1..], e);
      Regroup(PrintEntry(es[0]), PrintEntries(es[1..]), PrintEntry(e));
    }
  }

  lemma PrintedEntry(pre: Bytes, e: Entry)
    ensures pre + PrintEntry(e) == (((pre + LittleEndian(|e.0|, 8)) + e.0) + LittleEndian(|e.1|, 8)) + e.1
  {
    hide LittleEndian;
    var n, v := LittleEndian(|e.0|, 8), LittleEndian(|e.1|, 8);
    Regroup(pre, n, e.0 + (v + e.1));
    Regroup(pre + n, e.0, v + e.1);
    Regroup(pre + n + e.0, v, e.1);
  }
}
