/**
 Subscribe capabilities, registration self-proofs and anchor-rotation proofs
 (crates/collab-proto/src/capability.rs): the three canonical byte strings that are signed, and
 the checks the relay makes. Ed25519 is ideal: the only signature that verifies for a key and a
 message is the one made with that key over that message.
 */
module Capability {
  import opened Common
  import opened Protocol

  type PublicKey = k: seq<byte> | |k| == 32 witness seq(32, _ => 0)

  /** `Signed(signer, message)` stands for the 64 bytes that the private half of `signer` made over `message`. */
  datatype Signature = Signed(signer: PublicKey, message: seq<byte>) | Unsigned(length: nat) {
    function Length(): nat {
      if Signed? then 64 else length
    }
  }

  predicate VerifyStrict(key: PublicKey, message: seq<byte>, signature: Signature) {
    signature == Signed(key, message)
  }

  function Ascii(s: string): seq<byte> {
    seq(|s|, i requires 0 <= i < |s| => (s[i] as int) % 256)
  }

  const LABEL_MSG := Ascii("obsidian-ee/subscribe-capability/v1")
  const REGISTER_LABEL := Ascii("obsidian-ee/register-doc-key/v1")
  const ROTATE_LABEL := Ascii("obsidian-ee/anchor-rotation/v1")

  // ---------------------------------------------------------------- canonical bytes

  function Prefixed(b: seq<byte>): seq<byte> {
    LittleEndian(|b|, 4) + b
  }

  function SigningBytes(user: UserId, doc: DocId, epoch: u64, expiry: u64): seq<byte> {
    LABEL_MSG + (Prefixed(user.utf8) + (Prefixed(doc.utf8) + (LittleEndian(epoch, 8) + LittleEndian(expiry, 8))))
  }

  function RegisterProofBytes(doc: DocId, epoch: u64): seq<byte> {
    REGISTER_LABEL + (Prefixed(doc.utf8) + LittleEndian(epoch, 8))
  }

  function RotationProofBytes(doc: DocId, epoch: u64, key: PublicKey): seq<byte> {
    ROTATE_LABEL + (Prefixed(doc.utf8) + (LittleEndian(epoch, 8) + key))
  }

  /** The source panics on ids of 4 GiB or more; handlers only pass ids of at most 256 bytes. */
  method BuildSigningBytes(user: UserId, doc: DocId, epoch: u64, expiry: u64) returns (out: seq<byte>)
    requires |user.utf8| < U32_LIMIT && |doc.utf8| < U32_LIMIT
    ensures out == SigningBytes(user, doc, epoch, expiry)
  {
    hide LittleEndian, Ascii;
    out := [];
    out := out + LABEL_MSG;
    out := out + LittleEndian(|user.utf8|, 4);
    out := out + user.utf8;
    out := out + LittleEndian(|doc.utf8|, 4);
    out := out + doc.utf8;
    out := out + LittleEndian(epoch, 8);
    out := out + LittleEndian(expiry, 8);
  }

  method BuildRegisterProofBytes(doc: DocId, epoch: u64) returns (out: seq<byte>)
    requires |doc.utf8| < U32_LIMIT
    ensures out == RegisterProofBytes(doc, epoch)
  {
    out := [];
    out := out + REGISTER_LABEL;
    out := out + LittleEndian(|doc.utf8|, 4);
    out := out + doc.utf8;
    out := out + LittleEndian(epoch, 8);
  }

  method BuildRotationProofBytes(doc: DocId, epoch: u64, key: PublicKey) returns (out: seq<byte>)
    requires |doc.utf8| < U32_LIMIT
    ensures out == RotationProofBytes(doc, epoch, key)
  {
    out := [];
    out := out + ROTATE_LABEL;
    out := out + LittleEndian(|doc.utf8|, 4);
    out := out + doc.utf8;
    out := out + LittleEndian(epoch, 8);
    out := out + key;
  }

  /** `b` stands in `out` at `pos`. */
  predicate At(out: seq<byte>, pos: nat, b: seq<byte>) {
    pos + |b| <= |out| && out[pos..pos + |b|] == b
  }

  lemma AtHead(a: seq<byte>, b: seq<byte>)
    ensures At(a + b, 0, a)
  {
  }

  lemma AtTail(a: seq<byte>, b: seq<byte>, pos: nat, x: seq<byte>)
    requires At(b, pos, x)
    ensures At(a + b, |a| + pos, x)
  {
    assert (a + b)[|a| + pos..|a| + pos + |x|] == b[pos..pos + |x|];
  }

  /** A length-prefixed field: its length, little-endian in four bytes, then the field. */
  lemma PrefixedAt(b: seq<byte>, rest: seq<byte>)
    ensures At(Prefixed(b) + rest, 0, LittleEndian(|b|, 4)) && At(Prefixed(b) + rest, 4, b)
  {
    hide At, LittleEndian;
    var n := LittleEndian(|b|, 4);
    assert Prefixed(b) + rest == n + (b + rest);
    AtHead(n, b + rest);
    AtHead(b, rest);
    AtTail(n, b + rest, 0, b);
  }

  /** Where each field of the signed capability stands. */
  lemma SigningLayout(user: UserId, doc: DocId, epoch: u64, expiry: u64)
    ensures var out, u, d := SigningBytes(user, doc, epoch, expiry), |user.utf8|, |doc.utf8|;
      && |out| == 59 + u + d
      && At(out, 0, Ascii("obsidian-ee/subscribe-capability/v1"))
      && At(out, 35, LittleEndian(u, 4)) && At(out, 39, user.utf8)
      && At(out, 39 + u, LittleEndian(d, 4)) && At(out, 43 + u, doc.utf8)
      && At(out, 43 + u + d, LittleEndian(epoch, 8)) && At(out, 51 + u + d, LittleEndian(expiry, 8))
  {
    hide At, LittleEndian, Ascii;
    var u, d := |user.utf8|, |doc.utf8|;
    var e, x := LittleEndian(epoch, 8), LittleEndian(expiry, 8);
    var t2 := Prefixed(doc.utf8) + (e + x);
    var t1 := Prefixed(user.utf8) + t2;
    LabelLengths();
    AtHead(LABEL_MSG, t1);
    PrefixedAt(user.utf8, t2);
    AtTail(LABEL_MSG, t1, 0, LittleEndian(u, 4));
    AtTail(LABEL_MSG, t1, 4, user.utf8);
    DocAndTail(doc.utf8, e, x);
    ThroughTwo(LABEL_MSG, Prefixed(user.utf8), t2, 0, LittleEndian(d, 4));
    ThroughTwo(LABEL_MSG, Prefixed(user.utf8), t2, 4, doc.utf8);
    ThroughTwo(LABEL_MSG, Prefixed(user.utf8), t2, 4 + d, e);
    ThroughTwo(LABEL_MSG, Prefixed(user.utf8), t2, 12 + d, x);
  }

  lemma ThroughTwo(a: seq<byte>, b: seq<byte>, c: seq<byte>, pos: nat, x: seq<byte>)
    requires At(c, pos, x)
    ensures At(a + (b + c), |a| + |b| + pos, x)
  {
    AtTail(b, c, pos, x);
    AtTail(a, b + c, |b| + pos, x);
  }

  lemma DocAndTail(doc: seq<byte>, e: seq<byte>, x: seq<byte>)
    ensures var t := Prefixed(doc) + (e + x);
      && At(t, 0, LittleEndian(|doc|, 4)) && At(t, 4, doc)
      && At(t, 4 + |doc|, e) && At(t, 4 + |doc| + |e|, x)
  {
    hide At, LittleEndian;
    PrefixedAt(doc, e + x);
    AtHead(e, x);
    AtTail(Prefixed(doc), e + x, 0, e);
    WholeAt(x);
    AtTail(e, x, 0, x);
    AtTail(Prefixed(doc), e + x, |e|, x);
  }

  lemma WholeAt(x: seq<byte>)
    ensures At(x, 0, x)
  {
  }

  lemma LabelLengths()
    ensures |LABEL_MSG| == 35 && |REGISTER_LABEL| == 31 && |ROTATE_LABEL| == 30
  {
  }

  lemma RegisterProofLayout(doc: DocId, epoch: u64)
    ensures var out, d := RegisterProofBytes(doc, epoch), |doc.utf8|;
      && |out| == 43 + d
      && At(out, 0, Ascii("obsidian-ee/register-doc-key/v1"))
      && At(out, 31, LittleEndian(d, 4)) && At(out, 35, doc.utf8) && At(out, 35 + d, LittleEndian(epoch, 8))
  {
    hide At, LittleEndian, Ascii;
    var e := LittleEndian(epoch, 8);
    var t := Prefixed(doc.utf8) + (e + []);
    assert e + [] == e;
    LabelLengths();
    AtHead(REGISTER_LABEL, t);
    DocAndTail(doc.utf8, e, []);
    AtTail(REGISTER_LABEL, t, 0, LittleEndian(|doc.utf8|, 4));
    AtTail(REGISTER_LABEL, t, 4, doc.utf8);
    AtTail(REGISTER_LABEL, t, 4 + |doc.utf8|, e);
  }

  lemma RotationProofLayout(doc: DocId, epoch: u64, key: PublicKey)
    ensures var out, d := RotationProofBytes(doc, epoch, key), |doc.utf8|;
      && |out| == 74 + d
      && At(out, 0, Ascii("obsidian-ee/anchor-rotation/v1"))
      && At(out, 30, LittleEndian(d, 4)) && At(out, 34, doc.utf8)
      && At(out, 34 + d, LittleEndian(epoch, 8)) && At(out, 42 + d, key)
  {
    hide At, LittleEndian, Ascii;
    var e := LittleEndian(epoch, 8);
    var t := Prefixed(doc.utf8) + (e + key);
    LabelLengths();
    AtHead(ROTATE_LABEL, t);
    DocAndTail(doc.utf8, e, key);
    AtTail(ROTATE_LABEL, t, 0, LittleEndian(|doc.utf8|, 4));
    AtTail(ROTATE_LABEL, t, 4, doc.utf8);
    AtTail(ROTATE_LABEL, t, 4 + |doc.utf8|, e);
    AtTail(ROTATE_LABEL, t, 12 + |doc.utf8|, key);
  }

  lemma SplitEqual<T>(a: seq<T>, b: seq<T>, a': seq<T>, b': seq<T>)
    requires |a| == |a'| && a + b == a' + b'
    ensures a == a' && b == b'
  {
    assert (a + b)[..|a|] == a && (a' + b')[..|a'|] == a';
    assert (a + b)[|a|..] == b && (a' + b')[|a'|..] == b';
  }

  /** A length prefix makes the field boundary unambiguous, whatever follows. */
  lemma PrefixedSplit(a: seq<byte>, b: seq<byte>, a': seq<byte>, b': seq<byte>)
    requires |a| < U32_LIMIT && |a'| < U32_LIMIT
    requires Prefixed(a) + b == Prefixed(a') + b'
    ensures a == a' && b == b'
  {
    WordWidths();
    assert Prefixed(a) + b == LittleEndian(|a|, 4) + (a + b);
    assert Prefixed(a') + b' == LittleEndian(|a'|, 4) + (a' + b');
    SplitEqual(LittleEndian(|a|, 4), a + b, LittleEndian(|a'|, 4), a' + b');
    LittleEndianInjective(|a|, |a'|, 4);
    SplitEqual(a, b, a', b');
  }

  ghost predicate ShortIds(user: UserId, doc: DocId) {
    |user.utf8| < U32_LIMIT && |doc.utf8| < U32_LIMIT
  }

  /** The signed capability bytes determine every field. */
  lemma SigningBytesInjective(u: UserId, d: DocId, e: u64, x: u64, u': UserId, d': DocId, e': u64, x': u64)
    requires ShortIds(u, d) && ShortIds(u', d')
    requires SigningBytes(u, d, e, x) == SigningBytes(u', d', e', x')
    ensures u == u' && d == d' && e == e' && x == x'
  {
    WordWidths();
    var tail := LittleEndian(e, 8) + LittleEndian(x, 8);
    var tail' := LittleEndian(e', 8) + LittleEndian(x', 8);
    SplitEqual(LABEL_MSG, Prefixed(u.utf8) + (Prefixed(d.utf8) + tail),
               LABEL_MSG, Prefixed(u'.utf8) + (Prefixed(d'.utf8) + tail'));
    PrefixedSplit(u.utf8, Prefixed(d.utf8) + tail, u'.utf8, Prefixed(d'.utf8) + tail');
    PrefixedSplit(d.utf8, tail, d'.utf8, tail');
    SplitEqual(LittleEndian(e, 8), LittleEndian(x, 8), LittleEndian(e', 8), LittleEndian(x', 8));
    LittleEndianInjective(e, e', 8);
    LittleEndianInjective(x, x', 8);
  }

  lemma RegisterProofBytesInjective(d: DocId, e: u64, d': DocId, e': u64)
    requires |d.utf8| < U32_LIMIT && |d'.utf8| < U32_LIMIT
    requires RegisterProofBytes(d, e) == RegisterProofBytes(d', e')
    ensures d == d' && e == e'
  {
    WordWidths();
    SplitEqual(REGISTER_LABEL, Prefixed(d.utf8) + LittleEndian(e, 8),
               REGISTER_LABEL, Prefixed(d'.utf8) + LittleEndian(e', 8));
    PrefixedSplit(d.utf8, LittleEndian(e, 8), d'.utf8, LittleEndian(e', 8));
    LittleEndianInjective(e, e', 8);
  }

  lemma RotationProofBytesInjective(d: DocId, e: u64, k: PublicKey, d': DocId, e': u64, k': PublicKey)
    requires |d.utf8| < U32_LIMIT && |d'.utf8| < U32_LIMIT
    requires RotationProofBytes(d, e, k) == RotationProofBytes(d', e', k')
    ensures d == d' && e == e' && k == k'
  {
    WordWidths();
    var tail, tail' := LittleEndian(e, 8) + k, LittleEndian(e', 8) + k';
    SplitEqual(ROTATE_LABEL, Prefixed(d.utf8) + tail, ROTATE_LABEL, Prefixed(d'.utf8) + tail');
    PrefixedSplit(d.utf8, tail, d'.utf8, tail');
    SplitEqual(LittleEndian(e, 8), k, LittleEndian(e', 8), k');
    LittleEndianInjective(e, e', 8);
  }

  /** No byte string is two of the three kinds of statement: byte 12 already tells them apart. */
  lemma StatementsDisjoint(u: UserId, d: DocId, e: u64, x: u64, d1: DocId, e1: u64, d2: DocId, e2: u64, k: PublicKey)
    ensures SigningBytes(u, d, e, x) != RegisterProofBytes(d1, e1)
    ensures SigningBytes(u, d, e, x) != RotationProofBytes(d2, e2, k)
    ensures RegisterProofBytes(d1, e1) != RotationProofBytes(d2, e2, k)
  {
    assert LABEL_MSG[12] == 's' as int && REGISTER_LABEL[12] == 'r' as int && ROTATE_LABEL[12] == 'a' as int;
    assert SigningBytes(u, d, e, x)[12] == 's' as int;
    assert RegisterProofBytes(d1, e1)[12] == 'r' as int;
    assert RotationProofBytes(d2, e2, k)[12] == 'a' as int;
  }

  // ---------------------------------------------------------------- signing and verifying

  datatype SubscribeCapability =
    SubscribeCapability(userId: UserId, docId: DocId, epoch: u64, expiry: u64, signature: Signature)

  /** A key that is not a curve point signs nothing, so it fails as a signature here. */
  datatype CapabilityError =
    | UserIdMismatch | DocIdMismatch | EpochMismatch | Expired
    | MalformedSignature | SignatureVerificationFailed

  function SignCapability(key: PublicKey, user: UserId, doc: DocId, epoch: u64, expiry: u64): SubscribeCapability {
    SubscribeCapability(user, doc, epoch, expiry, Signed(key, SigningBytes(user, doc, epoch, expiry)))
  }

  function CheckSignature(key: PublicKey, message: seq<byte>, signature: Signature): Result<(), CapabilityError> {
    if signature.Length() != 64 then Err(MalformedSignature)
    else if !VerifyStrict(key, message, signature) then Err(SignatureVerificationFailed)
    else Ok(())
  }

  function VerifyCapability(cap: SubscribeCapability, key: PublicKey, user: UserId, doc: DocId, epoch: u64, now: u64)
    : Result<(), CapabilityError>
  {
    if cap.userId != user then Err(UserIdMismatch)
    else if cap.docId != doc then Err(DocIdMismatch)
    else if cap.epoch != epoch then Err(EpochMismatch)
    else if now > cap.expiry then Err(Expired)
    else CheckSignature(key, SigningBytes(cap.userId, cap.docId, cap.epoch, cap.expiry), cap.signature)
  }

  function VerifyDocKeyProof(doc: DocId, epoch: u64, key: PublicKey, proof: Signature): Result<(), CapabilityError> {
    CheckSignature(key, RegisterProofBytes(doc, epoch), proof)
  }

  function VerifyRotation(doc: DocId, epoch: u64, newKey: PublicKey, current: PublicKey, proof: Signature)
    : Result<(), CapabilityError>
  {
    CheckSignature(current, RotationProofBytes(doc, epoch, newKey), proof)
  }

  /**
   A verified capability was signed, by exactly the anchor's key, for exactly this user, document
   and epoch and for its own unexpired expiry; and its signature passes as nothing else: not for
   other fields, not as a registration proof, not as a rotation proof, under any key.
   */
  lemma VerifiedCapabilityMeans(cap: SubscribeCapability, key: PublicKey, user: UserId, doc: DocId, epoch: u64,
                                now: u64, key': PublicKey, u': UserId, d': DocId, e': u64, x': u64, k': PublicKey)
    requires VerifyCapability(cap, key, user, doc, epoch, now).Ok?
    requires ShortIds(user, doc) && ShortIds(u', d')
    ensures now <= cap.expiry
    ensures cap.signature == SignCapability(key', u', d', e', x').signature
      <==> key' == key && u' == user && d' == doc && e' == epoch && x' == cap.expiry
    ensures VerifyDocKeyProof(d', e', key', cap.signature).Err?
    ensures VerifyRotation(d', e', k', key', cap.signature).Err?
  {
    if cap.signature == SignCapability(key', u', d', e', x').signature {
      SigningBytesInjective(user, doc, epoch, cap.expiry, u', d', e', x');
    }
    StatementsDisjoint(user, doc, epoch, cap.expiry, d', e', d', e', k');
  }

  /** Minting then verifying succeeds exactly for the named user, document and epoch, until expiry. */
  lemma SignVerifyRoundTrip(key: PublicKey, u: UserId, d: DocId, e: u64, x: u64,
                            key': PublicKey, u': UserId, d': DocId, e': u64, now: u64)
    ensures VerifyCapability(SignCapability(key, u, d, e, x), key', u', d', e', now).Ok?
      <==> key' == key && u' == u && d' == d && e' == e && now <= x
  {
  }

  /** The first failing check names the error: user, document, epoch, expiry, then the signature. */
  lemma CapabilityErrorsInOrder(cap: SubscribeCapability, key: PublicKey, user: UserId, doc: DocId, epoch: u64, now: u64)
    ensures var r := VerifyCapability(cap, key, user, doc, epoch, now);
      && (r == Err(UserIdMismatch) <==> cap.userId != user)
      && (r == Err(DocIdMismatch) <==> cap.userId == user && cap.docId != doc)
      && (r == Err(EpochMismatch) <==> cap.userId == user && cap.docId == doc && cap.epoch != epoch)
      && (r == Err(Expired) <==> cap.userId == user && cap.docId == doc && cap.epoch == epoch && cap.expiry < now)
      && (r == Err(MalformedSignature) ==> cap.signature.Unsigned? && cap.signature.length != 64)
      && (r == Err(SignatureVerificationFailed) ==>
            cap.signature != Signed(key, SigningBytes(user, doc, epoch, cap.expiry)))
  {
    hide SigningBytes;
  }

  /** A rotation proof binds the outgoing key to one document, one epoch and one new key. */
  lemma VerifiedRotationMeans(doc: DocId, epoch: u64, newKey: PublicKey, current: PublicKey, proof: Signature,
                              d': DocId, e': u64, k': PublicKey, key': PublicKey)
    requires VerifyRotation(doc, epoch, newKey, current, proof).Ok?
    requires |doc.utf8| < U32_LIMIT && |d'.utf8| < U32_LIMIT
    ensures VerifyRotation(d', e', k', key', proof).Ok?
      <==> d' == doc && e' == epoch && k' == newKey && key' == current
    ensures VerifyDocKeyProof(d', e', key', proof).Err?
  {
    if VerifyRotation(d', e', k', key', proof).Ok? {
      RotationProofBytesInjective(doc, epoch, newKey, d', e', k');
    }
    StatementsDisjoint(UserId([]), doc, 0, 0, d', e', doc, epoch, newKey);
  }
}
