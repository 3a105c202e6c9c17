/** `storage/inmem.rs`, `session.rs` and the store half of `session_cipher.rs`. */
module Store {
  import opened Prelude
  import opened Crypto
  import opened Session
  import opened X3dh
  import opened Record

  type Address = nat

  datatype Signature = Signature(signer: KeyId, signed: KeyId) | Unsigned

  /** A bundle carries a one-time pre-key together with its id, or neither. */
  datatype PreKeyBundle = PreKeyBundle(
    identityKey: KeyId, signedPreKeyId: nat, signedPreKey: KeyId, signature: Signature,
    oneTime: Option<(nat, KeyId)>)

  datatype Store = Store(
    identity: KeyId,
    known: map<Address, KeyId>,
    sessions: map<Address, Record>,
    preKeys: map<nat, KeyId>,
    signedPreKeys: map<nat, KeyId>)

  function NewStore(identity: KeyId): Store { Store(identity, map[], map[], map[], map[]) }

  predicate Trusted(st: Store, addr: Address, id: KeyId) { addr !in st.known || st.known[addr] == id }

  function SaveIdentity(st: Store, addr: Address, id: KeyId): Store { st.(known := st.known[addr := id]) }

  function StoreSession(st: Store, addr: Address, rec: Record): Store { st.(sessions := st.sessions[addr := rec]) }

  function Load(st: Store, addr: Address): Record {
    if addr in st.sessions then st.sessions[addr] else FreshRecord
  }

  /** `message_encrypt`: trust is checked after the chain was advanced, on a loaded copy. */
  function EncryptAt(st: Store, addr: Address, plaintext: Bytes): (Store, Result<CiphertextMessage, Error>) {
    if addr !in st.sessions then (st, Err(SessionNotFound))
    else if st.sessions[addr].current.None? then (st, Err(InvalidState))
    else
      var (s, r) := Encrypt(st.sessions[addr].current.value, plaintext);
      if r.Err? then (st, r)
      else if s.remoteIdentity.None? || !Trusted(st, addr, s.remoteIdentity.value) then (st, Err(UntrustedIdentity))
      else
        (StoreSession(SaveIdentity(st, addr, s.remoteIdentity.value), addr, st.sessions[addr].(current := Some(s))), r)
  }

  /** `message_decrypt_signal`. */
  function DecryptSignalAt(st: Store, addr: Address, m: SignalMessage, newKey: KeyId): (Store, Result<Bytes, Error>) {
    if addr !in st.sessions then (st, Err(SessionNotFound))
    else
      var (rec, r) := DecryptRecord(st.sessions[addr], m, newKey);
      if r.Err? then (st, r)
      else if rec.current.None? || rec.current.value.remoteIdentity.None? then (st, Err(InvalidSessionStructure))
      else
        var theirs := rec.current.value.remoteIdentity.value;
        if !Trusted(st, addr, theirs) then (st, Err(UntrustedIdentity))
        else (StoreSession(SaveIdentity(st, addr, theirs), addr, rec), r)
  }

  /** The responder session that a pre-key message asks for. */
  function ResponderSession(st: Store, pm: PreKeySignalMessage): Result<Session, Error> {
    if pm.signedPreKeyId !in st.signedPreKeys then Err(InvalidSignedPreKeyId)
    else if pm.preKeyId.Some? && pm.preKeyId.value !in st.preKeys then Err(InvalidPreKeyId)
    else
      var signed := st.signedPreKeys[pm.signedPreKeyId];
      var oneTime := if pm.preKeyId.Some? then Some(st.preKeys[pm.preKeyId.value]) else None;
      Ok(BobSession(BobParameters(st.identity, signed, oneTime, signed, pm.identityKey, pm.baseKey))
         .(aliceBaseKey := Some(pm.baseKey)))
  }

  /** `process_prekey` on a loaded record: the record and the one-time pre-key to remove. */
  function ProcessPreKey(st: Store, addr: Address, rec: Record, pm: PreKeySignalMessage): Result<(Record, Option<nat>),
                         Error> {
    if !Trusted(st, addr, pm.identityKey) then Err(UntrustedIdentity)
    else if HasSession(rec, pm.version, pm.baseKey) then Ok((rec, None))
    else
      var s := ResponderSession(st, pm);
      if s.Err? then Err(s.error) else Ok((Promote(Archive(rec), s.value), pm.preKeyId))
  }

  /** `message_decrypt_prekey`: the identity is saved before the message is decrypted. */
  function DecryptPreKeyAt(st: Store, addr: Address, pm: PreKeySignalMessage, newKey: KeyId): (Store,
                           Result<Bytes, Error>) {
    var processed := ProcessPreKey(st, addr, Load(st, addr), pm);
    if processed.Err? then (st, Err(processed.error))
    else
      var (rec, used) := processed.value;
      var saved := SaveIdentity(st, addr, pm.identityKey);
      var (rec', r) := DecryptRecord(rec, pm.message, newKey);
      if r.Err? then (saved, r)
      else
        var stored := StoreSession(saved, addr, rec');
        (if used.Some? then stored.(preKeys := stored.preKeys - {used.value}) else stored, r)
  }

  function InitiatorParameters(st: Store, b: PreKeyBundle, baseKey: KeyId): AliceParameters {
    AliceParameters(st.identity, baseKey, b.identityKey, b.signedPreKey,
                    if b.oneTime.Some? then Some(b.oneTime.value.1) else None, b.signedPreKey)
  }

  /** `process_prekey_bundle`'s session; a missing one-time pre-key is recorded as id 0. */
  function InitiatorSession(st: Store, b: PreKeyBundle, baseKey: KeyId, sendingKey: KeyId): Session {
    AliceSession(InitiatorParameters(st, b, baseKey), sendingKey).(
      pending := Some(PendingPreKey(if b.oneTime.Some? then b.oneTime.value.0 else 0, b.signedPreKeyId, baseKey)),
      aliceBaseKey := Some(baseKey))
  }

  predicate SignatureValid(b: PreKeyBundle) { b.signature == Signature(b.identityKey, b.signedPreKey) }

  function ProcessBundleAt(st: Store, addr: Address, b: PreKeyBundle, baseKey: KeyId, sendingKey: KeyId): (Store,
                           Result<(), Error>) {
    if !Trusted(st, addr, b.identityKey) then (st, Err(UntrustedIdentity))
    else if !SignatureValid(b) then (st, Err(SignatureValidationFailed))
    else
      var s := InitiatorSession(st, b, baseKey, sendingKey);
      (StoreSession(SaveIdentity(st, addr, b.identityKey), addr, Promote(Load(st, addr), s)), Ok(()))
  }

  /** The in-memory stores, updated in the order in which the code updates them. */
  class ProtocolStore {
    var identity: KeyId
    var known: map<Address, KeyId>
    var sessions: map<Address, Record>
    var preKeys: map<nat, KeyId>
    var signedPreKeys: map<nat, KeyId>

    ghost function Value(): Store
      reads this
    {
      Store(identity, known, sessions, preKeys, signedPreKeys)
    }

    constructor (identity: KeyId)
      ensures Value() == NewStore(identity)
    {
      this.identity := identity;
      known, sessions, preKeys, signedPreKeys := map[], map[], map[], map[];
    }

    method SaveIdentityKey(addr: Address, id: KeyId) returns (replaced: bool)
      modifies this`known
      ensures Value() == SaveIdentity(old(Value()), addr, id)
      ensures replaced <==> !Trusted(old(Value()), addr, id)
    {
      if addr !in known {
        known := known[addr := id];
        replaced := false;
      } else if known[addr] == id {
        assert known == known[addr := id];
        replaced := false;
      } else {
        known := known[addr := id];
        replaced := true;
      }
    }

    method LoadSession(addr: Address) returns (rec: SessionRecord)
      ensures fresh(rec) && rec.Value() == Load(Value(), addr)
    {
      rec := new SessionRecord(if addr in sessions then sessions[addr] else FreshRecord);
    }

    method MessageEncrypt(addr: Address, plaintext: Bytes) returns (r: Result<CiphertextMessage, Error>)
      modifies this`known, this`sessions
      ensures Value() == EncryptAt(old(Value()), addr, plaintext).0
      ensures r == EncryptAt(old(Value()), addr, plaintext).1
    {
      if addr !in sessions {
        return Err(SessionNotFound);
      }
      var rec := LoadSession(addr);
      if rec.current.None? {
        return Err(InvalidState);
      }
      var state := new SessionState(rec.current.value);
      r := state.EncryptMessage(plaintext);
      if r.Err? {
        return;
      }
      var theirs := state.remoteIdentity;
      if theirs.None? || !(addr !in known || known[addr] == theirs.value) {
        return Err(UntrustedIdentity);
      }
      var s := state.Snapshot();
      rec.current := Some(s);
      var _ := SaveIdentityKey(addr, theirs.value);
      sessions := sessions[addr := Record(rec.current, rec.previous)];
    }

    method MessageDecryptSignal(addr: Address, m: SignalMessage, newKey: KeyId) returns (r: Result<Bytes, Error>)
      modifies this`known, this`sessions
      ensures Value() == DecryptSignalAt(old(Value()), addr, m, newKey).0
      ensures r == DecryptSignalAt(old(Value()), addr, m, newKey).1
    {
      if addr !in sessions {
        return Err(SessionNotFound);
      }
      var rec := LoadSession(addr);
      r := rec.DecryptMessage(m, newKey);
      if r.Err? {
        return;
      }
      if rec.current.None? || rec.current.value.remoteIdentity.None? {
        return Err(InvalidSessionStructure);
      }
      var theirs := rec.current.value.remoteIdentity.value;
      if !(addr !in known || known[addr] == theirs) {
        return Err(UntrustedIdentity);
      }
      var _ := SaveIdentityKey(addr, theirs);
      sessions := sessions[addr := Record(rec.current, rec.previous)];
    }

    method ProcessPreKeyMessage(addr: Address, rec: SessionRecord, pm: PreKeySignalMessage)
      returns (used: Result<Option<nat>, Error>)
      modifies this`known, rec
      ensures match ProcessPreKey(old(Value()), addr, old(rec.Value()), pm)
        case Ok(p) => used == Ok(p.1) && rec.Value() == p.0
          && Value() == SaveIdentity(old(Value()), addr, pm.identityKey)
        case Err(e) => used == Err(e) && Value() == old(Value()) && rec.Value() == old(rec.Value())
    {
      if !(addr !in known || known[addr] == pm.identityKey) {
        return Err(UntrustedIdentity);
      }
      var present := rec.HasSessionState(pm.version, pm.baseKey);
      if present {
        used := Ok(None);
      } else {
        if pm.signedPreKeyId !in signedPreKeys {
          return Err(InvalidSignedPreKeyId);
        }
        var signed := signedPreKeys[pm.signedPreKeyId];
        var oneTime: Option<KeyId> := None;
        if pm.preKeyId.Some? {
          if pm.preKeyId.value !in preKeys {
            return Err(InvalidPreKeyId);
          }
          oneTime := Some(preKeys[pm.preKeyId.value]);
        }
        rec.ArchiveCurrentState();
        var state := InitializeBobSession(BobParameters(identity, signed, oneTime, signed, pm.identityKey, pm.baseKey));
        state.aliceBaseKey := Some(pm.baseKey);
        var s := state.Snapshot();
        rec.PromoteState(s);
        used := Ok(pm.preKeyId);
      }
      var _ := SaveIdentityKey(addr, pm.identityKey);
    }

    method MessageDecryptPreKey(addr: Address, pm: PreKeySignalMessage, newKey: KeyId) returns (r: Result<Bytes, Error>)
      modifies this
      ensures Value() == DecryptPreKeyAt(old(Value()), addr, pm, newKey).0
      ensures r == DecryptPreKeyAt(old(Value()), addr, pm, newKey).1
    {
      var rec := LoadSession(addr);
      var used := ProcessPreKeyMessage(addr, rec, pm);
      if used.Err? {
        return Err(used.error);
      }
      r := rec.DecryptMessage(pm.message, newKey);
      if r.Err? {
        return;
      }
      sessions := sessions[addr := Record(rec.current, rec.previous)];
      if used.value.Some? {
        preKeys := preKeys - {used.value.value};
      }
    }

    method ProcessPreKeyBundle(addr: Address, b: PreKeyBundle, baseKey: KeyId, sendingKey: KeyId)
      returns (r: Result<(), Error>)
      modifies this`known, this`sessions
      ensures Value() == ProcessBundleAt(old(Value()), addr, b, baseKey, sendingKey).0
      ensures r == ProcessBundleAt(old(Value()), addr, b, baseKey, sendingKey).1
    {
      if !(addr !in known || known[addr] == b.identityKey) {
        return Err(UntrustedIdentity);
      }
      if b.signature != Signature(b.identityKey, b.signedPreKey) {
        return Err(SignatureValidationFailed);
      }
      var rec := LoadSession(addr);
      var oneTime := if b.oneTime.Some? then Some(b.oneTime.value.1) else None;
      var state := InitializeAliceSession(
        AliceParameters(identity, baseKey, b.identityKey, b.signedPreKey, oneTime, b.signedPreKey), sendingKey);
      state.pending := Some(PendingPreKey(if b.oneTime.Some? then b.oneTime.value.0 else 0, b.signedPreKeyId, baseKey));
      state.aliceBaseKey := Some(baseKey);
      var _ := SaveIdentityKey(addr, b.identityKey);
      var s := state.Snapshot();
      rec.PromoteState(s);
      sessions := sessions[addr := Record(rec.current, rec.previous)];
      r := Ok(());
    }
  }
}
