/** From a pre-key bundle to a lockstep pair, through both stores. */
module Handshake {
  import opened Prelude
  import opened Crypto
  import opened Ratchet
  import opened Session
  import opened Origins
  import opened Lockstep
  import opened Runs
  import opened X3dh
  import opened Record
  import opened Store

  /** The responder's store holds the private keys behind the bundle. */
  predicate BundleOf(b: PreKeyBundle, bob: Store) {
    && SignatureValid(b) && b.identityKey == bob.identity
    && b.signedPreKeyId in bob.signedPreKeys && bob.signedPreKeys[b.signedPreKeyId] == b.signedPreKey
    && (b.oneTime.Some? ==> b.oneTime.value.0 in bob.preKeys && bob.preKeys[b.oneTime.value.0] == b.oneTime.value.1)
  }

  /** The first message an initiator sends on the session a bundle gave it. */
  function FirstMessage(alice: Store, b: PreKeyBundle, baseKey: KeyId, sendingKey: KeyId,
                        plaintext: Bytes): CiphertextMessage {
    var r := Encrypt(InitiatorSession(alice, b, baseKey, sendingKey), plaintext).1;
    if r.Ok? then r.value else Whisper(SignalMessage(Content(0, 0, 0, 0, Noise([])), Junk([])))
  }

  /** Processing a bundle and encrypting returns that message, as a pre-key message. */
  lemma FirstMessageIsReturned(alice: Store, bobAddr: Address, b: PreKeyBundle, baseKey: KeyId, sendingKey: KeyId,
                               plaintext: Bytes)
    requires Trusted(alice, bobAddr, b.identityKey) && SignatureValid(b)
    ensures var (alice', done) := ProcessBundleAt(alice, bobAddr, b, baseKey, sendingKey);
      var (alice'', wire) := EncryptAt(alice', bobAddr, plaintext);
      && done.Ok?
      && wire == Ok(FirstMessage(alice, b, baseKey, sendingKey, plaintext))
      && wire.value.PreKey?
      && wire.value.preKey == PreKeySignalMessage(
           3, if b.oneTime.Some? && b.oneTime.value.0 != 0 then Some(b.oneTime.value.0) else None,
           b.signedPreKeyId, baseKey, alice.identity, Inner(wire.value))
      && bobAddr in alice''.sessions
      && alice''.sessions[bobAddr].current
         == Some(Encrypt(InitiatorSession(alice, b, baseKey, sendingKey), plaintext).0)
  {
  }

  /** The responder's parameters name the initiator's keys; they use the same one-time pre-key
      exactly when its id is not the one that stands for "none". */
  lemma ParametersMatch(alice: Store, bob: Store, b: PreKeyBundle, baseKey: KeyId, sendingKey: KeyId, plaintext: Bytes)
    requires BundleOf(b, bob)
    ensures var wire := FirstMessage(alice, b, baseKey, sendingKey, plaintext);
      && wire.PreKey?
      && ResponderSession(bob, wire.preKey).Ok?
      && var p := BobParameters(
           bob.identity, b.signedPreKey,
           if b.oneTime.Some? && b.oneTime.value.0 != 0 then Some(b.oneTime.value.1) else None,
           b.signedPreKey, alice.identity, baseKey);
         && Matching(InitiatorParameters(alice, b, baseKey), p)
         && ResponderSession(bob, wire.preKey).value == BobSession(p).(aliceBaseKey := Some(baseKey))
  {
  }

  /** The two sessions right after set-up, with their history. */
  function Opening(alice: Store, bob: Store, b: PreKeyBundle, baseKey: KeyId, sendingKey: KeyId,
                   plaintext: Bytes): System
    requires BundleOf(b, bob)
  {
    ParametersMatch(alice, bob, b, baseKey, sendingKey, plaintext);
    System(InitiatorSession(alice, b, baseKey, sendingKey),
           ResponderSession(bob, FirstMessage(alice, b, baseKey, sendingKey, plaintext).preKey).value,
           InitialHistory(InitiatorParameters(alice, b, baseKey), sendingKey))
  }

  predicate UsableOneTimeKey(b: PreKeyBundle) { b.oneTime.Some? ==> b.oneTime.value.0 != 0 }

  lemma OpeningIsLockstep(alice: Store, bob: Store, b: PreKeyBundle, baseKey: KeyId, sendingKey: KeyId,
                          plaintext: Bytes)
    requires BundleOf(b, bob) && UsableOneTimeKey(b) && sendingKey != b.signedPreKey
    ensures Inv(Opening(alice, bob, b, baseKey, sendingKey, plaintext))
  {
    ParametersMatch(alice, bob, b, baseKey, sendingKey, plaintext);
    var a := InitiatorParameters(alice, b, baseKey);
    var p := BobParameters(bob.identity, b.signedPreKey, a.theirOneTimePreKey, b.signedPreKey, alice.identity, baseKey);
    InitialisersStartLockstep(a, p, sendingKey);
    var sys := Opening(alice, bob, b, baseKey, sendingKey, plaintext);
    assert SessionOk(AliceSession(a, sendingKey), sys.past, Initiator);
    assert SessionOk(BobSession(p), sys.past, Responder);
  }

  /** The first message decrypts on the responder's new session and keeps lockstep. */
  lemma FirstMessageOpens(alice: Store, bob: Store, b: PreKeyBundle, baseKey: KeyId, sendingKey: KeyId,
                          plaintext: Bytes, newKey: KeyId)
    returns (h: History)
    requires BundleOf(b, bob) && UsableOneTimeKey(b) && sendingKey != b.signedPreKey
    requires newKey != b.signedPreKey && newKey != sendingKey
    ensures var sys := Opening(alice, bob, b, baseKey, sendingKey, plaintext);
      var wire := FirstMessage(alice, b, baseKey, sendingKey, plaintext);
      var (after, text) := Decrypt(sys.responder, Inner(wire), newKey);
      && text == Ok(plaintext)
      && Inv(System(Encrypt(sys.initiator, plaintext).0, after, h))
      && |h.ledgers[1].sent| > 0 && Inner(wire) == MessageAt(h, 1, 0)
  {
    hide Decrypt, SessionOk;
    var sys := Opening(alice, bob, b, baseKey, sendingKey, plaintext);
    OpeningIsLockstep(alice, bob, b, baseKey, sendingKey, plaintext);
    var sent := Send(Initiator, plaintext);
    assert Epoch(sys.past, Initiator) == 1 && Epoch(sys.past, Responder) == 0;
    SendReturnsLoggedMessage(sys, Initiator, plaintext);
    SendKeepsInv(sys, Initiator, plaintext);
    var sys1 := Apply(sys, sent);
    var m := MessageAt(sys1.past, 1, 0);
    DeliveryIff(sys1, Responder, 1, 0, newKey);
    HonestMessageTravels(sys1.past, 1, 0);
    StepKeepsInv(sys1, Deliver(Responder, m, newKey));
    DeliverOutcome(sys1, Responder, m, newKey);
    h := Apply(sys1, Deliver(Responder, m, newKey)).past;
    StepGrows(sys1, Deliver(Responder, m, newKey));
    MessageStays(sys1.past, h, 1, 0);
  }

  /** Set-up round trip.  For every bundle backed by the responder's store, with no one-time
      pre-key or one whose id is not 0, the responder decrypts the initiator's first message
      to what was encrypted, and both stores then hold a lockstep pair as current sessions. */
  lemma BundleRoundTrip(alice: Store, bob: Store, aliceAddr: Address, bobAddr: Address, b: PreKeyBundle,
                        baseKey: KeyId, sendingKey: KeyId, plaintext: Bytes, newKey: KeyId)
    returns (h: History)
    requires BundleOf(b, bob) && UsableOneTimeKey(b)
    requires Trusted(alice, bobAddr, b.identityKey) && Trusted(bob, aliceAddr, alice.identity)
    requires !HasSession(Load(bob, aliceAddr), CURRENT_VERSION, baseKey)
    requires sendingKey != b.signedPreKey && newKey != b.signedPreKey && newKey != sendingKey
    ensures var alice' := EncryptAt(ProcessBundleAt(alice, bobAddr, b, baseKey, sendingKey).0, bobAddr, plaintext).0;
      var wire := FirstMessage(alice, b, baseKey, sendingKey, plaintext);
      && wire.PreKey?
      && var (bob', text) := DecryptPreKeyAt(bob, aliceAddr, wire.preKey, newKey);
         && text == Ok(plaintext)
         && bobAddr in alice'.sessions && alice'.sessions[bobAddr].current.Some?
         && aliceAddr in bob'.sessions && bob'.sessions[aliceAddr].current.Some?
         && Inv(System(alice'.sessions[bobAddr].current.value, bob'.sessions[aliceAddr].current.value, h))
         && alice'.sessions[bobAddr].current.value.aliceBaseKey == Some(baseKey)
         && bob'.sessions[aliceAddr].current.value.aliceBaseKey == Some(baseKey)
         && |h.ledgers[1].sent| > 0 && Inner(wire) == MessageAt(h, 1, 0)
  {
    FirstMessageIsReturned(alice, bobAddr, b, baseKey, sendingKey, plaintext);
    DecryptKeepsIdentity(Opening(alice, bob, b, baseKey, sendingKey, plaintext).responder,
                         Inner(FirstMessage(alice, b, baseKey, sendingKey, plaintext)), newKey);
    h := FirstMessageOpens(alice, bob, b, baseKey, sendingKey, plaintext, newKey);
    NewSessionAcceptsFirst(alice, bob, aliceAddr, b, baseKey, sendingKey, plaintext, newKey);
  }

  /** The responder's store tries the new session first. */
  lemma NewSessionAcceptsFirst(alice: Store, bob: Store, aliceAddr: Address, b: PreKeyBundle,
                               baseKey: KeyId, sendingKey: KeyId, plaintext: Bytes, newKey: KeyId)
    requires BundleOf(b, bob) && Trusted(bob, aliceAddr, alice.identity)
    requires !HasSession(Load(bob, aliceAddr), CURRENT_VERSION, baseKey)
    ensures var wire := FirstMessage(alice, b, baseKey, sendingKey, plaintext);
      && wire.PreKey?
      && var (s, text) := Decrypt(Opening(alice, bob, b, baseKey, sendingKey, plaintext).responder, Inner(wire),
         newKey);
         var (bob', r) := DecryptPreKeyAt(bob, aliceAddr, wire.preKey, newKey);
         text.Ok? ==> r == text && aliceAddr in bob'.sessions && bob'.sessions[aliceAddr].current == Some(s)
  {
    ParametersMatch(alice, bob, b, baseKey, sendingKey, plaintext);
  }

  /** When set-up succeeds, at the level of both stores.  The initiator's secrets are new to the
      responder, because the base key was just generated.  The first message is then decrypted to
      its plaintext if and only if the bundle has no one-time pre-key or one whose id is not 0;
      otherwise no session filed for the address opens it, the new one included. */
  lemma RoundTripIff(alice: Store, bob: Store, aliceAddr: Address, b: PreKeyBundle,
                     baseKey: KeyId, sendingKey: KeyId, plaintext: Bytes, newKey: KeyId)
    requires BundleOf(b, bob) && Trusted(bob, aliceAddr, alice.identity)
    requires !HasSession(Load(bob, aliceAddr), CURRENT_VERSION, baseKey)
    requires AllForeign(Load(bob, aliceAddr), AliceSecrets(InitiatorParameters(alice, b, baseKey)))
    requires sendingKey != b.signedPreKey && newKey != b.signedPreKey && newKey != sendingKey
    ensures var wire := FirstMessage(alice, b, baseKey, sendingKey, plaintext);
      && wire.PreKey?
      && (DecryptPreKeyAt(bob, aliceAddr, wire.preKey, newKey).1 == Ok(plaintext) <==> UsableOneTimeKey(b))
      && (DecryptPreKeyAt(bob, aliceAddr, wire.preKey, newKey).1.Err? <==> !UsableOneTimeKey(b))
  {
    hide Decrypt, DecryptRecord;
    ParametersMatch(alice, bob, b, baseKey, sendingKey, plaintext);
    if UsableOneTimeKey(b) {
      var _ := FirstMessageOpens(alice, bob, b, baseKey, sendingKey, plaintext, newKey);
      NewSessionAcceptsFirst(alice, bob, aliceAddr, b, baseKey, sendingKey, plaintext, newKey);
    } else {
      var pm := FirstMessage(alice, b, baseKey, sendingKey, plaintext).preKey;
      var rec, s := Load(bob, aliceAddr), ResponderSession(bob, pm).value;
      FirstMessageOrigin(alice, b, baseKey, sendingKey, plaintext);
      UnannouncedKeyIsForeign(alice, bob, b, baseKey, sendingKey, plaintext);
      PromotedSessions(rec, s);
      ForeignRecordRejects(Promote(rec, s), pm.message, newKey, AliceSecrets(InitiatorParameters(alice, b, baseKey)));
    }
  }

  lemma FirstMessageOrigin(alice: Store, b: PreKeyBundle, baseKey: KeyId, sendingKey: KeyId, plaintext: Bytes)
    ensures var m := Inner(FirstMessage(alice, b, baseKey, sendingKey, plaintext));
      m.tag.Hmac? && ChainOrigin(m.tag.key.chain) == AliceSecrets(InitiatorParameters(alice, b, baseKey))
  {
  }

  /** With id 0 the initiator uses the key but announces none, so the responder's new session
      has other secrets. */
  lemma UnannouncedKeyIsForeign(alice: Store, bob: Store, b: PreKeyBundle, baseKey: KeyId, sendingKey: KeyId,
                                plaintext: Bytes)
    requires BundleOf(b, bob) && !UsableOneTimeKey(b)
    ensures var wire := FirstMessage(alice, b, baseKey, sendingKey, plaintext);
      && wire.PreKey? && ResponderSession(bob, wire.preKey).Ok?
      && Foreign(ResponderSession(bob, wire.preKey).value, AliceSecrets(InitiatorParameters(alice, b, baseKey)))
  {
    ParametersMatch(alice, bob, b, baseKey, sendingKey, plaintext);
    var p := BobParameters(bob.identity, b.signedPreKey, None, b.signedPreKey, alice.identity, baseKey);
    SecretsAgreeIff(InitiatorParameters(alice, b, baseKey), p);
  }

  /** Whatever else is filed, the session that a message with id 0 starts rejects it. */
  lemma PreKeyIdZeroFails(alice: Store, bob: Store, b: PreKeyBundle, baseKey: KeyId, sendingKey: KeyId,
                          plaintext: Bytes, newKey: KeyId)
    requires BundleOf(b, bob) && !UsableOneTimeKey(b)
    ensures var wire := FirstMessage(alice, b, baseKey, sendingKey, plaintext);
      Decrypt(Opening(alice, bob, b, baseKey, sendingKey, plaintext).responder, Inner(wire), newKey).1.Err?
  {
    hide Decrypt;
    UnannouncedKeyIsForeign(alice, bob, b, baseKey, sendingKey, plaintext);
    FirstMessageOrigin(alice, b, baseKey, sendingKey, plaintext);
    var wire := FirstMessage(alice, b, baseKey, sendingKey, plaintext);
    var s := ResponderSession(bob, wire.preKey).value;
    OpensOnlyOwnOrigin(s, Inner(wire), newKey, RootOrigin(s.root));
  }

  lemma ForeignRecordRejects(rec: Record, m: SignalMessage, newKey: KeyId, x: seq<Dh>)
    requires AllForeign(rec, x) && m.tag.Hmac? && ChainOrigin(m.tag.key.chain) == x
    ensures DecryptRecord(rec, m, newKey).1.Err?
  {
    hide DecryptRecord, Decrypt;
    if DecryptRecord(rec, m, newKey).1.Ok? { AcceptorHasOrigin(rec, m, newKey); }
  }

  // -------------------------------------------------- pre-key messages until the reply

  datatype SessionOp = Enc(plaintext: Bytes) | Dec(message: SignalMessage, newKey: KeyId)

  /** One operation on a session as the store performs it: a failed decryption is discarded. */
  function ApplyOp(s: Session, op: SessionOp): Session {
    match op
    case Enc(plaintext) => if Encrypt(s, plaintext).1.Ok? then Encrypt(s, plaintext).0 else s
    case Dec(m, newKey) => if Decrypt(s, m, newKey).1.Ok? then Decrypt(s, m, newKey).0 else s
  }

  function RunOps(s: Session, ops: seq<SessionOp>): Session
    decreases |ops|
  {
    if ops == [] then s else RunOps(ApplyOp(s, ops[0]), ops[1..])
  }

  predicate AnyAccepted(s: Session, ops: seq<SessionOp>)
    decreases |ops|
  {
    && ops != []
    && ((ops[0].Dec? && Decrypt(s, ops[0].message, ops[0].newKey).1.Ok?) || AnyAccepted(ApplyOp(s, ops[0]), ops[1..]))
  }

  lemma {:induction false} PendingTracksReplies(s: Session, ops: seq<SessionOp>)
    ensures RunOps(s, ops).pending == if AnyAccepted(s, ops) then None else s.pending
    ensures RunOps(s, ops).rawVersion == s.rawVersion && RunOps(s, ops).localIdentity == s.localIdentity
    decreases |ops|
  {
    if ops != [] {
      OpEffect(s, ops[0]);
      PendingTracksReplies(ApplyOp(s, ops[0]), ops[1..]);
    }
  }

  lemma OpEffect(s: Session, op: SessionOp)
    ensures ApplyOp(s, op).pending == if op.Dec? && Decrypt(s, op.message, op.newKey).1.Ok? then None else s.pending
    ensures ApplyOp(s, op).rawVersion == s.rawVersion && ApplyOp(s, op).localIdentity == s.localIdentity
  {
    match op
    case Enc(_) =>
    case Dec(m, newKey) =>
      DecryptKeepsIdentity(s, m, newKey);
      if Decrypt(s, m, newKey).1.Err? {
        assert ApplyOp(s, op) == s;
      }
  }

  /** A message sent on an initiator's session is a pre-key message exactly until the session's
      first successful decryption, and all of them carry the same base key and ids. */
  lemma PreKeyMessagesUntilReply(alice: Store, b: PreKeyBundle, baseKey: KeyId, sendingKey: KeyId, ops: seq<SessionOp>,
                                 plaintext: Bytes)
    requires Encrypt(RunOps(InitiatorSession(alice, b, baseKey, sendingKey), ops), plaintext).1.Ok?
    ensures var s := InitiatorSession(alice, b, baseKey, sendingKey);
      var wire := Encrypt(RunOps(s, ops), plaintext).1.value;
      && (wire.PreKey? <==> !AnyAccepted(s, ops))
      && (wire.PreKey? ==> wire.preKey == PreKeySignalMessage(
           CURRENT_VERSION, if b.oneTime.Some? && b.oneTime.value.0 != 0 then Some(b.oneTime.value.0) else None,
           b.signedPreKeyId, baseKey, alice.identity, Inner(wire)))
  {
    PendingTracksReplies(InitiatorSession(alice, b, baseKey, sendingKey), ops);
  }
}
