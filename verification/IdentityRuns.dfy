/** Trust on first use: what runs of a store do to the identity keys it knows. */
module IdentityRuns {
  import opened Prelude
  import opened Crypto
  import opened Session
  import opened Record
  import opened Store
  import opened PreKeyRuns

  ghost predicate AllFrom(rec: Record, id: KeyId) {
    Bounded(rec) && forall i :: 0 <= i < |Sessions(rec)| ==> Sessions(rec)[i].remoteIdentity == Some(id)
  }

  /** Every session filed under an address is with the identity known for that address. */
  ghost predicate IdentityInv(st: Store) {
    forall a :: a in st.sessions ==> a in st.known && AllFrom(st.sessions[a], st.known[a])
  }

  /** No known identity is lost or replaced. */
  ghost predicate Pinned(st: Store, st': Store) {
    forall a :: a in st.known ==> a in st'.known && st'.known[a] == st.known[a]
  }

  lemma DecryptKeepsRemote(rec: Record, m: SignalMessage, newKey: KeyId, id: KeyId)
    requires AllFrom(rec, id)
    ensures AllFrom(DecryptRecord(rec, m, newKey).0, id)
  {
    hide Decrypt;
    DecryptConservesSessions(rec, m, newKey);
    var (rec', r) := DecryptRecord(rec, m, newKey);
    if r.Ok? {
      var i := Acceptor(rec, m, newKey);
      DecryptKeepsIdentity(Sessions(rec)[i], m, newKey);
      var all, all' := Sessions(rec), Sessions(rec');
      forall j | 0 <= j < |all'| ensures all'[j].remoteIdentity == Some(id) {
        if j > 0 { assert all'[j] == all[if j <= i then j - 1 else j]; }
      }
    }
  }

  lemma PromoteKeepsRemote(rec: Record, s: Session, id: KeyId)
    requires AllFrom(rec, id) && s.remoteIdentity == Some(id)
    ensures AllFrom(Promote(rec, s), id) && AllFrom(Promote(Archive(rec), s), id) && AllFrom(Archive(rec), id)
  {
    var n := |Archive(rec).previous|;
    assert Archive(rec).previous == Sessions(rec)[..n];
    assert Sessions(Promote(rec, s)) == [s] + Sessions(rec)[..n];
    assert Sessions(Archive(rec)) == Sessions(rec)[..n];
    assert Promote(Archive(rec), s) == Promote(rec, s);
  }

  lemma StepPinsIdentities(st: Store, step: StoreStep)
    requires IdentityInv(st)
    ensures IdentityInv(ApplyStore(st, step)) && Pinned(st, ApplyStore(st, step))
  {
    hide Decrypt, DecryptRecord, Encrypt;
    match step
    case SavePreKey(_, _) =>
    case SaveSignedPreKey(_, _) =>
    case ProcessBundle(a, b, baseKey, sendingKey) =>
      if ProcessBundleAt(st, a, b, baseKey, sendingKey).1.Ok? {
        PromoteKeepsRemote(Load(st, a), InitiatorSession(st, b, baseKey, sendingKey), b.identityKey);
      }
    case EncryptMessage(a, plaintext) => EncryptPinsIdentities(st, a, plaintext);
    case DecryptSignal(a, m, newKey) =>
      if a in st.sessions { DecryptKeepsRemote(st.sessions[a], m, newKey, st.known[a]); }
    case DecryptPreKey(a, pm, newKey) => PreKeyMessagePinsIdentities(st, a, pm, newKey);
    case ArchiveSession(a) =>
      if a in st.sessions && st.sessions[a].current.Some? {
        assert Sessions(st.sessions[a])[0] == st.sessions[a].current.value;
        PromoteKeepsRemote(st.sessions[a], st.sessions[a].current.value, st.known[a]);
      }
  }

  lemma EncryptPinsIdentities(st: Store, a: Address, plaintext: Bytes)
    requires IdentityInv(st)
    ensures IdentityInv(EncryptAt(st, a, plaintext).0) && Pinned(st, EncryptAt(st, a, plaintext).0)
  {
    if EncryptAt(st, a, plaintext).1.Ok? {
      var rec := st.sessions[a];
      assert Sessions(rec)[0] == rec.current.value;
      var rec' := rec.(current := Some(Encrypt(rec.current.value, plaintext).0));
      assert Sessions(rec')[1..] == Sessions(rec)[1..];
      assert AllFrom(rec', st.known[a]);
    }
  }

  lemma PreKeyMessagePinsIdentities(st: Store, a: Address, pm: PreKeySignalMessage, newKey: KeyId)
    requires IdentityInv(st)
    ensures IdentityInv(DecryptPreKeyAt(st, a, pm, newKey).0) && Pinned(st, DecryptPreKeyAt(st, a, pm, newKey).0)
  {
    hide Decrypt, DecryptRecord;
    var processed := ProcessPreKey(st, a, Load(st, a), pm);
    if processed.Ok? {
      assert AllFrom(Load(st, a), pm.identityKey);
      if !HasSession(Load(st, a), pm.version, pm.baseKey) {
        PromoteKeepsRemote(Load(st, a), ResponderSession(st, pm).value, pm.identityKey);
      }
      DecryptKeepsRemote(processed.value.0, pm.message, newKey, pm.identityKey);
    }
  }

  ghost predicate Run(st: Store, steps: seq<StoreStep>, end: Store)
    decreases |steps|
  {
    if steps == [] then st == end else Run(ApplyStore(st, steps[0]), steps[1..], end)
  }

  /** In every run, whatever is received, an identity key once known for an address stays,
      and every session filed there is with that identity. */
  lemma {:induction false} RunPinsIdentities(st: Store, steps: seq<StoreStep>, end: Store)
    requires IdentityInv(st) && Run(st, steps, end)
    ensures IdentityInv(end) && Pinned(st, end)
    decreases |steps|
  {
    if steps != [] {
      StepPinsIdentities(st, steps[0]);
      RunPinsIdentities(ApplyStore(st, steps[0]), steps[1..], end);
    }
  }

  /** A store refuses to use another identity for a known address, and changes nothing. */
  lemma OtherIdentityIsRefused(st: Store, a: Address, pm: PreKeySignalMessage, newKey: KeyId, b: PreKeyBundle,
                               baseKey: KeyId, sendingKey: KeyId)
    requires a in st.known
    ensures pm.identityKey != st.known[a] ==> DecryptPreKeyAt(st, a, pm, newKey) == (st, Err(UntrustedIdentity))
    ensures b.identityKey != st.known[a] ==>
      ProcessBundleAt(st, a, b, baseKey, sendingKey) == (st, Err(UntrustedIdentity))
  {
  }
}
