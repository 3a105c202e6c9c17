/** Runs of one store over all remote addresses, and the life of one-time pre-keys. */
module PreKeyRuns {
  import opened Prelude
  import opened Crypto
  import opened Ratchet
  import opened Session
  import opened Origins
  import opened Record
  import opened Store
  import opened Labels

  datatype StoreStep =
    | SavePreKey(id: nat, key: KeyId)
    | SaveSignedPreKey(id: nat, key: KeyId)
    | ProcessBundle(addr: Address, bundle: PreKeyBundle, baseKey: KeyId, sendingKey: KeyId)
    | EncryptMessage(addr: Address, plaintext: Bytes)
    | DecryptSignal(addr: Address, signal: SignalMessage, newKey: KeyId)
    | DecryptPreKey(addr: Address, preKey: PreKeySignalMessage, newKey: KeyId)
    | ArchiveSession(addr: Address)

  function ApplyStore(st: Store, step: StoreStep): Store {
    match step
    case SavePreKey(id, key) => st.(preKeys := st.preKeys[id := key])
    case SaveSignedPreKey(id, key) => st.(signedPreKeys := st.signedPreKeys[id := key])
    case ProcessBundle(a, b, baseKey, sendingKey) => ProcessBundleAt(st, a, b, baseKey, sendingKey).0
    case EncryptMessage(a, plaintext) => EncryptAt(st, a, plaintext).0
    case DecryptSignal(a, m, newKey) => DecryptSignalAt(st, a, m, newKey).0
    case DecryptPreKey(a, pm, newKey) => DecryptPreKeyAt(st, a, pm, newKey).0
    case ArchiveSession(a) => if a in st.sessions then StoreSession(st, a, Archive(st.sessions[a])) else st
  }

  // --------------------------------------------------------------- failures, removals

  /** On any error the sessions and pre-keys stay as they were; only a pre-key message whose
      processing succeeded leaves a trace, its identity key. */
  lemma FailedDecryptionChangesNothing(st: Store, a: Address, m: SignalMessage, pm: PreKeySignalMessage, newKey: KeyId)
    ensures DecryptSignalAt(st, a, m, newKey).1.Err? ==> DecryptSignalAt(st, a, m, newKey).0 == st
    ensures var (st', r) := DecryptPreKeyAt(st, a, pm, newKey);
      r.Err? ==> st' == if ProcessPreKey(st, a, Load(st, a), pm).Ok? then SaveIdentity(st, a, pm.identityKey) else st
  {
  }

  /** A decrypted pre-key message: the stored record is the processed one, decrypted with. */
  lemma PreKeyOutcome(st: Store, a: Address, pm: PreKeySignalMessage, newKey: KeyId)
    requires DecryptPreKeyAt(st, a, pm, newKey).1.Ok?
    ensures ProcessPreKey(st, a, Load(st, a), pm).Ok?
    ensures var (rec, used) := ProcessPreKey(st, a, Load(st, a), pm).value;
      && DecryptRecord(rec, pm.message, newKey).1.Ok?
      && DecryptPreKeyAt(st, a, pm, newKey).0.sessions == st.sessions[a := DecryptRecord(rec, pm.message, newKey).0]
      && DecryptPreKeyAt(st, a, pm, newKey).0.preKeys == (if used.Some? then st.preKeys - {used.value} else st.preKeys)
      && used == (if HasSession(Load(st, a), pm.version, pm.baseKey) then None else pm.preKeyId)
      && (!HasSession(Load(st, a), pm.version, pm.baseKey) ==>
        ResponderSession(st, pm).Ok? && rec == Promote(Archive(Load(st, a)), ResponderSession(st, pm).value))
      && (HasSession(Load(st, a), pm.version, pm.baseKey) ==> a in st.sessions && rec == st.sessions[a])
  {
    hide Decrypt, DecryptRecord;
  }

  ghost predicate AllBounded(st: Store) { forall a :: a in st.sessions ==> Bounded(st.sessions[a]) }

  /** Sessions survive a decryption, whichever session accepts. */
  lemma DecryptionKeepsSessions(rec: Record, m: SignalMessage, newKey: KeyId, version: nat, baseKey: KeyId)
    requires Bounded(rec) && HasSession(rec, version, baseKey)
    ensures HasSession(DecryptRecord(rec, m, newKey).0, version, baseKey)
  {
    DecryptConservesSessions(rec, m, newKey);
    var (rec', r) := DecryptRecord(rec, m, newKey);
    if r.Ok? {
      HasSessionIsMembership(rec, version, baseKey);
      HasSessionIsMembership(rec', version, baseKey);
      var k := Acceptor(rec, m, newKey);
      var all, all' := Sessions(rec), Sessions(rec');
      var i :| 0 <= i < |all| && Is(all[i], version, baseKey);
      DecryptKeepsIdentity(all[k], m, newKey);
      MovedToFront(all, k, all'[0], i);
    }
  }

  /** A one-time pre-key leaves the store only when a message naming it was decrypted, and
      the session it started is then in the stored record. */
  lemma PreKeyRemoval(st: Store, step: StoreStep, id: nat)
    requires AllBounded(st) && id in st.preKeys && id !in ApplyStore(st, step).preKeys
    ensures step.DecryptPreKey? && step.preKey.preKeyId == Some(id)
    ensures DecryptPreKeyAt(st, step.addr, step.preKey, step.newKey).1.Ok?
    ensures step.addr in ApplyStore(st, step).sessions
    ensures HasSession(ApplyStore(st, step).sessions[step.addr], CURRENT_VERSION, step.preKey.baseKey)
  {
    hide Decrypt;
    assert step.DecryptPreKey?;
    var a, pm := step.addr, step.preKey;
    var rec := Load(st, a);
    var s := ResponderSession(st, pm).value;
    var _ := PromotedRow(s => None, rec, s);
    DecryptionKeepsSessions(Promote(rec, s), pm.message, step.newKey, CURRENT_VERSION, pm.baseKey);
  }

  /** The session that a one-time pre-key started opened the message that spent the key if and
      only if the message's MAC key descends from that session's secrets; otherwise an older
      session of the address opened it and the new one is stored unused. */
  lemma SpentByItsOwnSession(st: Store, a: Address, pm: PreKeySignalMessage, newKey: KeyId)
    requires Bounded(Load(st, a)) && !HasSession(Load(st, a), pm.version, pm.baseKey)
    requires DecryptPreKeyAt(st, a, pm, newKey).1.Ok?
    requires AllForeign(Load(st, a), RootOrigin(ResponderSession(st, pm).value.root))
    ensures var s := ResponderSession(st, pm).value;
      var rec := DecryptPreKeyAt(st, a, pm, newKey).0.sessions[a];
      && pm.message.tag.Hmac?
      && (if ChainOrigin(pm.message.tag.key.chain) == RootOrigin(s.root)
          then rec.current == Some(Decrypt(s, pm.message, newKey).0) && Decrypt(s, pm.message, newKey).1.Ok?
          else s in rec.previous && Decrypt(s, pm.message, newKey).1.Err?)
  {
    hide Decrypt, DecryptRecord;
    PreKeyOutcome(st, a, pm, newKey);
    var s, m := ResponderSession(st, pm).value, pm.message;
    var rec := Promote(Load(st, a), s);
    PromotedSessions(Load(st, a), s);
    var all := Sessions(rec);
    assert all[0] == s && Rooted(s, RootOrigin(s.root));
    DecryptConservesSessions(rec, m, newKey);
    AcceptorHasOrigin(rec, m, newKey);
    var i := Acceptor(rec, m, newKey);
    if i > 0 {
      assert Foreign(all[i], RootOrigin(s.root));
      MovedToFront(all, i, Decrypt(all[i], m, newKey).0, 0);
      assert !Stops(all[0], m, newKey);
      var rec' := DecryptRecord(rec, m, newKey).0;
      assert Sessions(rec') == [rec'.current.value] + rec'.previous;
      assert Sessions(rec')[1] == s;
    }
  }

  // ------------------------------------------------- a pre-key backs at most one session

  function Partner(dh: Dh, k: KeyId): KeyId { if dh.lo == k then dh.hi else dh.lo }

  /** A responder's root is an even number of ratchet steps away from the X3DH secrets, an
      initiator's an odd number. */
  predicate IsResponder(s: Session) { Depth(s.root) % 2 == 0 }

  /** The one-time pre-key that a responder session was started with: the partner of its base
      key in the fourth agreement. */
  function Backing(s: Session): Label {
    var x := RootOrigin(s.root);
    if IsResponder(s) && s.aliceBaseKey.Some? && |x| == 4 then Some(Partner(x[3], s.aliceBaseKey.value)) else None
  }

  /** A store with the one-time pre-keys ever saved to it. */
  datatype Tracked = Tracked(store: Store, saved: set<KeyId>)

  /** A one-time pre-key is saved once; everything else is free. */
  ghost predicate Enabled(t: Tracked, step: StoreStep) { step.SavePreKey? ==> step.key !in t.saved }

  function Track(t: Tracked, step: StoreStep): Tracked {
    Tracked(ApplyStore(t.store, step), if step.SavePreKey? then t.saved + {step.key} else t.saved)
  }

  /** Every backing is one of our own saved keys. */
  ghost predicate BackingsSaved(sessions: map<Address, Record>, saved: set<KeyId>) {
    forall a, i :: a in sessions && 0 <= i < |Sessions(sessions[a])| && Backing(Sessions(sessions[a])[i]).Some?
      ==> Backing(Sessions(sessions[a])[i]).value in saved
  }

  ghost predicate PreKeyInv(t: Tracked) {
    var table := Table(Backing, t.store.sessions);
    && AllBounded(t.store)
    && BackingsSaved(t.store.sessions, t.saved)
    && Unique(table)
    && (forall id :: id in t.store.preKeys ==> t.store.preKeys[id] in t.saved && Absent(table, t.store.preKeys[id]))
    && (forall i, j :: i in t.store.preKeys && j in t.store.preKeys && i != j ==>
        t.store.preKeys[i] != t.store.preKeys[j])
  }

  /** A decryption changes neither the X3DH secrets nor the base key nor the role of a session. */
  lemma DecryptKeepsBacking(s: Session, m: SignalMessage, newKey: KeyId)
    ensures RootOrigin(Decrypt(s, m, newKey).0.root) == RootOrigin(s.root)
    ensures Backing(Decrypt(s, m, newKey).0) == Backing(s)
  {
    hide FetchKeys;
    DecryptKeepsIdentity(s, m, newKey);
    if s.sender.Some? { FetchKeysKeepsOrigin(s, m.content.ratchetKey, m.content.counter, newKey); }
  }

  lemma FetchKeysKeepsOrigin(s: Session, theirs: KeyId, counter: u32, newKey: KeyId)
    requires s.sender.Some?
    ensures RootOrigin(FetchKeys(s, theirs, counter, newKey).0.root) == RootOrigin(s.root)
    ensures IsResponder(FetchKeys(s, theirs, counter, newKey).0) == IsResponder(s)
  {
    hide TakeKeys;
    var s1 := PrepareChain(s, theirs, newKey);
    assert RootOrigin(s1.root) == RootOrigin(s.root);
    assert Depth(s1.root) == Depth(s.root) || Depth(s1.root) == Depth(s.root) + 2;
    assert FetchKeys(s, theirs, counter, newKey).0.root == s1.root;
  }

  lemma EncryptKeepsBacking(s: Session, plaintext: Bytes)
    ensures Backing(Encrypt(s, plaintext).0) == Backing(s)
  {
  }

  // The sessions' part of the invariant, address by address.

  ghost predicate SessionsInv(sessions: map<Address, Record>, saved: set<KeyId>) {
    && (forall a :: a in sessions ==> Bounded(sessions[a]))
    && BackingsSaved(sessions, saved)
    && Unique(Table(Backing, sessions))
  }

  ghost predicate StillAbsent(sessions: map<Address, Record>, sessions': map<Address, Record>, except: Label) {
    forall k: KeyId :: Absent(Table(Backing, sessions), k) && except != Some(k) ==> Absent(Table(Backing, sessions'), k)
  }

  lemma RowsBackingsSaved(sessions: map<Address, Record>, a: Address, rec: Record, saved: set<KeyId>)
    requires BackingsSaved(sessions, saved)
    requires forall i :: 0 <= i < |Sessions(rec)| && Backing(Sessions(rec)[i]).Some? ==>
      Backing(Sessions(rec)[i]).value in saved
    ensures BackingsSaved(sessions[a := rec], saved)
  {
  }

  /** One session of a record replaced by a successor with the same backing. */
  lemma ReplaceKeepsSessionsInv(sessions: map<Address, Record>, saved: set<KeyId>,
                                a: Address, rec: Record, i: nat, s: Session)
    requires SessionsInv(sessions, saved) && a in sessions && i < |Sessions(sessions[a])|
    requires Bounded(rec) && Sessions(rec) == [s] + RemoveAt(Sessions(sessions[a]), i)
    requires Backing(s) == Backing(Sessions(sessions[a])[i])
    ensures SessionsInv(sessions[a := rec], saved)
    ensures StillAbsent(sessions, sessions[a := rec], None)
  {
    var f, all := Backing, Sessions(sessions[a]);
    var t := Table(f, sessions);
    TableUpdate(f, sessions, a, rec);
    LabelsMoved(f, all, i, s);
    ReplaceKeepsUnique(t, a, i, f(s));
    forall k: KeyId | Absent(t, k) ensures Absent(Table(f, sessions[a := rec]), k) {
      assert t[a][i] == f(s);
      RemovedStaysAbsent(t, a, i, f(s), k);
    }
    forall j | 0 <= j < |Sessions(rec)| && Backing(Sessions(rec)[j]).Some?
      ensures Backing(Sessions(rec)[j]).value in saved {
      if j > 0 { assert Sessions(rec)[j] == all[if j <= i then j - 1 else j]; }
    }
    RowsBackingsSaved(sessions, a, rec, saved);
  }

  /** A new session in front of a record. */
  lemma PromoteKeepsSessionsInv(sessions: map<Address, Record>, saved: set<KeyId>,
                                a: Address, old': Record, s: Session)
    requires SessionsInv(sessions, saved)
    requires old' == if a in sessions then sessions[a] else FreshRecord
    requires Backing(s).Some? ==> Backing(s).value in saved
    requires Backing(s).Some? ==> Absent(Table(Backing, sessions), Backing(s).value)
    ensures SessionsInv(sessions[a := Promote(old', s)], saved)
    ensures StillAbsent(sessions, sessions[a := Promote(old', s)], Backing(s))
    ensures Promote(Archive(old'), s) == Promote(old', s)
  {
    hide Backing;
    var f := Backing;
    var t, rec := Table(f, sessions), Promote(old', s);
    TableUpdate(f, sessions, a, rec);
    var n := PromotedRow(f, old', s);
    AddKeepsUnique(t, a, Row(f, old'), f(s), n);
    forall k: KeyId | Absent(t, k) && Backing(s) != Some(k) ensures Absent(Table(f, sessions[a := rec]), k) {
      AddedStaysAbsent(t, a, Row(f, old'), f(s), n, k);
    }
    var n' := |Archive(old').previous|;
    assert Sessions(rec) == [s] + Sessions(old')[..n'];
    RowsBackingsSaved(sessions, a, rec, saved);
  }

  lemma DecryptKeepsSessionsInv(sessions: map<Address, Record>, saved: set<KeyId>,
                                a: Address, m: SignalMessage, newKey: KeyId)
    requires SessionsInv(sessions, saved) && a in sessions
    ensures SessionsInv(sessions[a := DecryptRecord(sessions[a], m, newKey).0], saved)
    ensures StillAbsent(sessions, sessions[a := DecryptRecord(sessions[a], m, newKey).0], None)
  {
    hide Decrypt;
    var (rec, r) := DecryptRecord(sessions[a], m, newKey);
    DecryptConservesSessions(sessions[a], m, newKey);
    if r.Ok? {
      var i := Acceptor(sessions[a], m, newKey);
      DecryptKeepsBacking(Sessions(sessions[a])[i], m, newKey);
      ReplaceKeepsSessionsInv(sessions, saved, a, rec, i, Decrypt(Sessions(sessions[a])[i], m, newKey).0);
    } else {
      assert sessions[a := rec] == sessions;
    }
  }

  lemma ArchiveKeepsSessionsInv(sessions: map<Address, Record>, saved: set<KeyId>, a: Address)
    requires SessionsInv(sessions, saved) && a in sessions
    ensures SessionsInv(sessions[a := Archive(sessions[a])], saved)
    ensures StillAbsent(sessions, sessions[a := Archive(sessions[a])], None)
  {
    var f, rec := Backing, Archive(sessions[a]);
    var t, n := Table(f, sessions), |rec.previous|;
    assert Sessions(rec) == Sessions(sessions[a])[..n];
    TableUpdate(f, sessions, a, rec);
    LabelsTrimmed(f, Sessions(sessions[a]), n);
    TrimKeepsUnique(t, a, n);
    RowsBackingsSaved(sessions, a, rec, saved);
  }

  // ----------------------------------------------------------------------- all runs

  lemma SessionsInvGivesInv(t: Tracked, sessions: map<Address, Record>, known: map<Address, KeyId>)
    requires PreKeyInv(t) && SessionsInv(sessions, t.saved)
    requires StillAbsent(t.store.sessions, sessions, None)
    ensures PreKeyInv(t.(store := t.store.(sessions := sessions, known := known)))
  {
  }

  /** The backing label of a responder session is the one-time pre-key it was built with. */
  lemma ResponderBacking(st: Store, pm: PreKeySignalMessage)
    requires ResponderSession(st, pm).Ok?
    ensures Backing(ResponderSession(st, pm).value) ==
      if pm.preKeyId.Some? then Some(st.preKeys[pm.preKeyId.value]) else None
  {
    if pm.preKeyId.Some? {
      var k := st.preKeys[pm.preKeyId.value];
      var x := RootOrigin(ResponderSession(st, pm).value.root);
      assert x[3] == Agree(pm.baseKey, k);
    }
  }

  lemma InitiatorBacking(st: Store, b: PreKeyBundle, baseKey: KeyId, sendingKey: KeyId)
    ensures Backing(InitiatorSession(st, b, baseKey, sendingKey)) == None
  {
    assert Depth(InitiatorSession(st, b, baseKey, sendingKey).root) == 1;
  }

  /** A responder session enters the record and its one-time pre-key leaves the store. */
  lemma SpentPreKeyKeepsInv(t: Tracked, sessions: map<Address, Record>, known: map<Address, KeyId>, id: Option<nat>)
    requires PreKeyInv(t) && SessionsInv(sessions, t.saved)
    requires id.Some? ==> id.value in t.store.preKeys
    requires StillAbsent(t.store.sessions, sessions, if id.Some? then Some(t.store.preKeys[id.value]) else None)
    ensures PreKeyInv(t.(store := t.store.(sessions := sessions, known := known,
                                           preKeys := if id.Some?
                                             then t.store.preKeys - {id.value} else t.store.preKeys)))
  {
    hide Backing;
  }

  lemma NewResponderKeepsSessionsInv(t: Tracked, a: Address, pm: PreKeySignalMessage, newKey: KeyId)
    requires PreKeyInv(t) && ResponderSession(t.store, pm).Ok?
    ensures var rec := Promote(Archive(Load(t.store, a)), ResponderSession(t.store, pm).value);
      var sessions := t.store.sessions[a := DecryptRecord(rec, pm.message, newKey).0];
      && SessionsInv(sessions, t.saved)
      && StillAbsent(t.store.sessions, sessions,
                     if pm.preKeyId.Some? then Some(t.store.preKeys[pm.preKeyId.value]) else None)
  {
    hide Decrypt, DecryptRecord;
    var st, rec := t.store, Load(t.store, a);
    var s := ResponderSession(st, pm).value;
    ResponderBacking(st, pm);
    PromoteKeepsSessionsInv(st.sessions, t.saved, a, rec, s);
    var mid := st.sessions[a := Promote(rec, s)];
    DecryptKeepsSessionsInv(mid, t.saved, a, pm.message, newKey);
    var after := DecryptRecord(Promote(rec, s), pm.message, newKey).0;
    assert mid[a := after] == st.sessions[a := after];
  }

  lemma PreKeyMessageKeepsInv(t: Tracked, a: Address, pm: PreKeySignalMessage, newKey: KeyId)
    requires PreKeyInv(t)
    ensures PreKeyInv(Track(t, DecryptPreKey(a, pm, newKey)))
  {
    hide Decrypt, DecryptRecord;
    var st, rec := t.store, Load(t.store, a);
    var st' := ApplyStore(st, DecryptPreKey(a, pm, newKey));
    if DecryptPreKeyAt(st, a, pm, newKey).1.Err? {
      SessionsInvGivesInv(t, st.sessions, st'.known);
      return;
    }
    PreKeyOutcome(st, a, pm, newKey);
    if HasSession(rec, pm.version, pm.baseKey) {
      DecryptKeepsSessionsInv(st.sessions, t.saved, a, pm.message, newKey);
      SpentPreKeyKeepsInv(t, st'.sessions, st'.known, None);
    } else {
      NewResponderKeepsSessionsInv(t, a, pm, newKey);
      SpentPreKeyKeepsInv(t, st'.sessions, st'.known, pm.preKeyId);
    }
  }

  lemma BundleKeepsInv(t: Tracked, a: Address, b: PreKeyBundle, baseKey: KeyId, sendingKey: KeyId)
    requires PreKeyInv(t)
    ensures PreKeyInv(Track(t, ProcessBundle(a, b, baseKey, sendingKey)))
  {
    var st, t' := t.store, Track(t, ProcessBundle(a, b, baseKey, sendingKey));
    assert SessionsInv(st.sessions, t.saved);
    if ProcessBundleAt(st, a, b, baseKey, sendingKey).1.Ok? {
      var s := InitiatorSession(st, b, baseKey, sendingKey);
      InitiatorBacking(st, b, baseKey, sendingKey);
      PromoteKeepsSessionsInv(st.sessions, t.saved, a, Load(st, a), s);
    }
  }

  lemma EncryptionKeepsInv(t: Tracked, a: Address, plaintext: Bytes)
    requires PreKeyInv(t)
    ensures PreKeyInv(Track(t, EncryptMessage(a, plaintext)))
  {
    var st := t.store;
    if EncryptAt(st, a, plaintext).1.Ok? {
      var rec := st.sessions[a];
      var s := Encrypt(rec.current.value, plaintext).0;
      EncryptKeepsBacking(rec.current.value, plaintext);
      assert RemoveAt(Sessions(rec), 0) == rec.previous;
      ReplaceKeepsSessionsInv(st.sessions, t.saved, a, rec.(current := Some(s)), 0, s);
      SessionsInvGivesInv(t, st.sessions[a := rec.(current := Some(s))], EncryptAt(st, a, plaintext).0.known);
    }
  }

  /** A key that is saved for the first time backs no retained session. */
  lemma SavePreKeyKeepsInv(t: Tracked, id: nat, key: KeyId)
    requires PreKeyInv(t) && key !in t.saved
    ensures PreKeyInv(Track(t, SavePreKey(id, key)))
  {
    var table := Table(Backing, t.store.sessions);
    forall a, i | a in table && 0 <= i < |table[a]| ensures table[a][i] != Some(key) {
      assert table[a][i] == Backing(Sessions(t.store.sessions[a])[i]);
    }
  }

  lemma StepKeepsPreKeyInv(t: Tracked, step: StoreStep)
    requires PreKeyInv(t) && Enabled(t, step)
    ensures PreKeyInv(Track(t, step))
  {
    hide Decrypt, DecryptRecord;
    match step
    case SavePreKey(id, key) => SavePreKeyKeepsInv(t, id, key);
    case SaveSignedPreKey(id, key) =>
    case ProcessBundle(a, b, baseKey, sendingKey) => BundleKeepsInv(t, a, b, baseKey, sendingKey);
    case EncryptMessage(a, plaintext) => EncryptionKeepsInv(t, a, plaintext);
    case DecryptSignal(a, m, newKey) =>
      if DecryptSignalAt(t.store, a, m, newKey).1.Ok? {
        var st' := ApplyStore(t.store, step);
        DecryptKeepsSessionsInv(t.store.sessions, t.saved, a, m, newKey);
        SessionsInvGivesInv(t, st'.sessions, st'.known);
      }
    case DecryptPreKey(a, pm, newKey) => PreKeyMessageKeepsInv(t, a, pm, newKey);
    case ArchiveSession(a) =>
      if a in t.store.sessions {
        ArchiveKeepsSessionsInv(t.store.sessions, t.saved, a);
        SessionsInvGivesInv(t, t.store.sessions[a := Archive(t.store.sessions[a])], t.store.known);
      }
  }

  ghost predicate Run(t: Tracked, steps: seq<StoreStep>, end: Tracked)
    decreases |steps|
  {
    if steps == [] then t == end else Enabled(t, steps[0]) && Run(Track(t, steps[0]), steps[1..], end)
  }

  lemma {:induction false} RunKeepsPreKeyInv(t: Tracked, steps: seq<StoreStep>, end: Tracked)
    requires PreKeyInv(t) && Run(t, steps, end)
    ensures PreKeyInv(end)
    decreases |steps|
  {
    if steps != [] {
      StepKeepsPreKeyInv(t, steps[0]);
      RunKeepsPreKeyInv(Track(t, steps[0]), steps[1..], end);
    }
  }

  /** In every run of a new store, over all remote addresses and whatever the network presents,
      a one-time pre-key backs at most one retained responder session, and none while it is
      still in the store. */
  lemma OneSessionPerPreKey(identity: KeyId, steps: seq<StoreStep>, end: Tracked, k: KeyId,
                            a: Address, i: nat, b: Address, j: nat)
    requires Run(Tracked(NewStore(identity), {}), steps, end)
    requires a in end.store.sessions && i < |Sessions(end.store.sessions[a])|
      && Backing(Sessions(end.store.sessions[a])[i]) == Some(k)
    requires b in end.store.sessions && j < |Sessions(end.store.sessions[b])|
      && Backing(Sessions(end.store.sessions[b])[j]) == Some(k)
    ensures a == b && i == j
    ensures forall id :: id in end.store.preKeys ==> end.store.preKeys[id] != k
  {
    var start := Tracked(NewStore(identity), {});
    assert PreKeyInv(start);
    RunKeepsPreKeyInv(start, steps, end);
    var table := Table(Backing, end.store.sessions);
    assert table[a][i] == Some(k) && table[b][j] == Some(k);
  }
}
