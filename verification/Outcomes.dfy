/** The outcome of every store operation in terms of the fields of the store and of the message:
    exactly when it succeeds, which error it gives otherwise, and what a success leaves behind. */
module Outcomes {
  import opened Prelude
  import opened Crypto
  import opened Session
  import opened Record
  import opened Store

  /** An identity is refused if another one is known for the address. */
  predicate Refuses(st: Store, a: Address, id: KeyId) { a in st.known && st.known[a] != id }

  /** Which retained session a wrapper's version and base key find: version 0 is stored for 2. */
  lemma LookupOutcome(rec: Record, version: nat, baseKey: KeyId)
    ensures HasSession(rec, version, baseKey) <==>
      exists s :: s in Sessions(rec) && s.aliceBaseKey == Some(baseKey)
                  && (if s.rawVersion == 0 then version == 2 else version == s.rawVersion)
  {
    HasSessionIsMembership(rec, version, baseKey);
  }

  // ----------------------------------------------------------------------- encryption

  predicate CanEncrypt(s: Session) {
    s.sender.Some? && (s.rawVersion == 0 || s.rawVersion == 2 || s.rawVersion == 3) && s.remoteIdentity.Some?
  }

  /** `message_encrypt` succeeds exactly with a complete current session whose remote identity is
      not refused; every other call leaves the store alone and says why. */
  lemma EncryptionOutcome(st: Store, a: Address, plaintext: Bytes)
    ensures var (st', r) := EncryptAt(st, a, plaintext);
      if a !in st.sessions then st' == st && r == Err(SessionNotFound)
      else if st.sessions[a].current.None? || st.sessions[a].current.value.sender.None? then
        st' == st && r == Err(InvalidState)
      else
        var s := st.sessions[a].current.value;
        if CanEncrypt(s) && Refuses(st, a, s.remoteIdentity.value) then st' == st && r == Err(UntrustedIdentity)
        else if !CanEncrypt(s) then st' == st && r.Err?
        else
          && r.Ok?
          && st'.known == st.known[a := s.remoteIdentity.value]
          && st'.sessions.Keys == st.sessions.Keys
             && (forall b :: b in st.sessions && b != a ==> st'.sessions[b] == st.sessions[b])
          && st'.sessions[a].previous == st.sessions[a].previous
          && (st'.identity, st'.preKeys, st'.signedPreKeys) == (st.identity, st.preKeys, st.signedPreKeys)
  {
  }

  /** A message is encrypted with bytes 0 to 32 of the key material of the sending chain, bytes 64
      to 80 as initial vector, and authenticated with bytes 32 to 64; the chain moves on by one. */
  lemma SentMessageKeys(st: Store, a: Address, plaintext: Bytes)
    requires EncryptAt(st, a, plaintext).1.Ok?
    ensures var (st', r) := EncryptAt(st, a, plaintext);
      var s, s' := st.sessions[a].current.value, st'.sessions[a].current;
      var chain, m := s.sender.value.chainKey, Inner(r.value);
      && m.content.body
           == Cbc(Slice(chain.version, chain.key, 0, 32), Slice(chain.version, chain.key, 64, 80), plaintext)
      && m.tag == Hmac(Slice(chain.version, chain.key, 32, 64), s.localIdentity, s.remoteIdentity.value, m.content)
      && m.content.ratchetKey == s.sender.value.ratchetKey && m.content.counter == chain.index % U32_SIZE
      && m.content.version == (if s.rawVersion == 0 then 2 else s.rawVersion)
         && m.content.previousCounter == s.previousCounter
      && s' == Some(s.(sender := Some(SenderChain(s.sender.value.ratchetKey,
                   ChainKey(chain.version, NextChain(chain.key), (chain.index + 1) % U32_SIZE)))))
      && (r.value.PreKey? <==> s.pending.Some?)
  {
  }

  // ----------------------------------------------------------------------- decryption

  /** The keys fit the message: the MAC is that of its content under the MAC key and the two
      identities, and the body is an encryption under the cipher key and initial vector. */
  predicate KeysFit(m: SignalMessage, k: MessageKeys, theirs: KeyId, ours: KeyId) {
    && m.tag == Hmac(k.macKey, theirs, ours, m.content)
    && m.content.body.Cbc? && m.content.body.key == k.cipherKey && m.content.body.iv == k.iv
  }

  /** What `decrypt_message_with_state` refuses, in the order of its checks, and with which error;
      it succeeds exactly if the chain hands out keys that fit, and gives the encrypted text. */
  lemma SessionDecryptionOutcome(s: Session, m: SignalMessage, k: KeyId)
    ensures var r := Decrypt(s, m, k).1;
      if s.sender.None? then r == Err(InvalidSessionStructure)
      else if m.content.version != (if s.rawVersion == 0 then 2 else s.rawVersion) || s.rawVersion !in {0, 2, 3} then
        r == Err(UnrecognizedMessageVersion(m.content.version))
      else
        var keys := FetchKeys(s, m.content.ratchetKey, m.content.counter, k).1;
        if keys.Err? then r == Err(keys.error)
        else if s.remoteIdentity.None? then r == Err(InvalidSessionStructure)
        else if KeysFit(m, keys.value, s.remoteIdentity.value, s.localIdentity) then
          r == Ok(m.content.body.plaintext) && Decrypt(s, m, k).0.pending == None
        else r == Err(InvalidCiphertext)
  {
    hide FetchKeys;
    if s.sender.Some? { FetchKeepsIdentities(s, m.content.ratchetKey, m.content.counter, k); }
  }

  lemma FetchKeepsIdentities(s: Session, theirs: KeyId, counter: u32, k: KeyId)
    requires s.sender.Some?
    ensures var s' := FetchKeys(s, theirs, counter, k).0;
      s'.remoteIdentity == s.remoteIdentity && s'.localIdentity == s.localIdentity
  {
    hide TakeKeys;
  }

  /** An attempt ends the search of the record: it succeeded or reported a duplicate. */
  predicate Ends(r: Result<Bytes, Error>) { r.Ok? || r.error.DuplicatedMessage? }

  /** Session `i` is the first one whose attempt ends the search. */
  ghost predicate EndsFirst(all: seq<Session>, i: nat, m: SignalMessage, k: KeyId) {
    && i < |all| && Ends(Decrypt(all[i], m, k).1)
    && forall j :: 0 <= j < i ==> !Ends(Decrypt(all[j], m, k).1)
  }

  /** What the search of a record gives: nothing without a current session; otherwise the result of
      the first session, the current one first, whose attempt ends the search; and if there is none,
      that no session matches. */
  lemma SearchOutcome(rec: Record, m: SignalMessage, k: KeyId)
    ensures var all, r := Sessions(rec), DecryptRecord(rec, m, k).1;
      && (rec.current.None? ==> r == Err(InvalidState))
      && (rec.current.Some? && (forall i :: 0 <= i < |all| ==> !Ends(Decrypt(all[i], m, k).1)) ==>
          r == Err(NoMatchingSession))
      && (rec.current.Some? ==>
          forall i: nat :: EndsFirst(all, i, m, k) ==> r == Decrypt(all[i], m, k).1)
  {
    hide Decrypt;
    if rec.current.Some? {
      var all, f := Sessions(rec), FirstStop(rec.previous, m, k);
      assert all[0] == rec.current.value;
      forall j | 0 <= j < |rec.previous| ensures all[j + 1] == rec.previous[j] {
      }
      if f < |rec.previous| { assert Ends(Decrypt(all[f + 1], m, k).1); }
      forall i: nat | EndsFirst(all, i, m, k) ensures DecryptRecord(rec, m, k).1 == Decrypt(all[i], m, k).1 {
        if i > 0 {
          assert !Ends(Decrypt(all[0], m, k).1);
          assert Stops(rec.previous[i - 1], m, k);
          assert f <= i - 1;
          assert f == i - 1;
        }
      }
    }
  }

  /** `message_decrypt_signal` stores what the record's search accepted, unless the identity of the
      accepting session is refused; every other call leaves the store alone. */
  lemma SignalOutcome(st: Store, a: Address, m: SignalMessage, k: KeyId)
    ensures var (st', r) := DecryptSignalAt(st, a, m, k);
      if a !in st.sessions then st' == st && r == Err(SessionNotFound)
      else
        var (rec, text) := DecryptRecord(st.sessions[a], m, k);
        if text.Err? then st' == st && r == text
        else if rec.current.None? || rec.current.value.remoteIdentity.None?
          then st' == st && r == Err(InvalidSessionStructure)
        else if Refuses(st, a, rec.current.value.remoteIdentity.value) then st' == st && r == Err(UntrustedIdentity)
        else
          && r == text && st'.known == st.known[a := rec.current.value.remoteIdentity.value]
          && st'.sessions == st.sessions[a := rec]
          && (st'.identity, st'.preKeys, st'.signedPreKeys) == (st.identity, st.preKeys, st.signedPreKeys)
  {
    hide DecryptRecord;
  }

  /** What a pre-key message needs before it is decrypted, and the error otherwise: a trusted
      identity, and a retained session of its version and base key or the keys that it names. */
  lemma PreKeyProcessingOutcome(st: Store, a: Address, rec: Record, pm: PreKeySignalMessage)
    ensures var p := ProcessPreKey(st, a, rec, pm);
      if Refuses(st, a, pm.identityKey) then p == Err(UntrustedIdentity)
      else if HasSession(rec, pm.version, pm.baseKey) then p == Ok((rec, None))
      else if pm.signedPreKeyId !in st.signedPreKeys then p == Err(InvalidSignedPreKeyId)
      else if pm.preKeyId.Some? && pm.preKeyId.value !in st.preKeys then p == Err(InvalidPreKeyId)
      else p.Ok? && p.value.1 == pm.preKeyId && p.value.0.current.Some?
           && p.value.0.current.value.aliceBaseKey == Some(pm.baseKey) && p.value.0.current.value.rawVersion == 3
  {
  }

  /** What `message_decrypt_prekey` leaves behind: the identity as soon as the message could be
      processed, and on success the record and all pre-keys but the one it names. */
  lemma PreKeyMessageOutcome(st: Store, a: Address, pm: PreKeySignalMessage, k: KeyId)
    ensures var (st', r) := DecryptPreKeyAt(st, a, pm, k);
      var p := ProcessPreKey(st, a, if a in st.sessions then st.sessions[a] else Record(None, []), pm);
      if p.Err? then st' == st && r == Err(p.error)
      else
        var (rec, text) := DecryptRecord(p.value.0, pm.message, k);
        && r == text && st'.known == st.known[a := pm.identityKey]
        && st'.sessions == (if text.Ok? then st.sessions[a := rec] else st.sessions)
        && st'.preKeys == (if text.Ok? && p.value.1.Some? then st.preKeys - {p.value.1.value} else st.preKeys)
        && (st'.identity, st'.signedPreKeys) == (st.identity, st.signedPreKeys)
  {
    hide DecryptRecord, ProcessPreKey;
  }

  // -------------------------------------------------------------------------- bundles

  /** `process_prekey_bundle` succeeds exactly for a bundle whose identity is not refused and has
      signed the signed pre-key; the new session is then current, and nothing else changes. */
  lemma BundleOutcome(st: Store, a: Address, b: PreKeyBundle, baseKey: KeyId, sendingKey: KeyId)
    ensures var (st', r) := ProcessBundleAt(st, a, b, baseKey, sendingKey);
      if Refuses(st, a, b.identityKey) then st' == st && r == Err(UntrustedIdentity)
      else if b.signature != Signature(b.identityKey, b.signedPreKey)
        then st' == st && r == Err(SignatureValidationFailed)
      else
        && r == Ok(()) && st'.known == st.known[a := b.identityKey]
        && st'.sessions.Keys == st.sessions.Keys + {a}
           && (forall c :: c in st.sessions && c != a ==> st'.sessions[c] == st.sessions[c])
        && st'.sessions[a].current.Some? && st'.sessions[a].current.value.aliceBaseKey == Some(baseKey)
        && st'.sessions[a].current.value.rawVersion == 3
        && st'.sessions[a].current.value.remoteIdentity == Some(b.identityKey)
        && (st'.identity, st'.preKeys, st'.signedPreKeys) == (st.identity, st.preKeys, st.signedPreKeys)
  {
  }

  /** In particular: success if and only if the identity is unknown or the known one and the
      signature is the identity key's own signature of the signed pre-key. */
  lemma BundleIsAcceptedIff(st: Store, a: Address, b: PreKeyBundle, baseKey: KeyId, sendingKey: KeyId)
    ensures ProcessBundleAt(st, a, b, baseKey, sendingKey).1.Ok? <==>
      (a !in st.known || st.known[a] == b.identityKey) && b.signature == Signature(b.identityKey, b.signedPreKey)
  {
    BundleOutcome(st, a, b, baseKey, sendingKey);
  }

  /** `message_encrypt` succeeds if and only if the address has a complete current session whose
      remote identity is unknown for the address or the known one. */
  lemma EncryptionSucceedsIff(st: Store, a: Address, plaintext: Bytes)
    ensures EncryptAt(st, a, plaintext).1.Ok? <==>
      && a in st.sessions && st.sessions[a].current.Some? && CanEncrypt(st.sessions[a].current.value)
      && (a !in st.known || st.known[a] == st.sessions[a].current.value.remoteIdentity.value)
  {
    EncryptionOutcome(st, a, plaintext);
  }
}
