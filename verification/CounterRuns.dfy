/** Runs of one store, and the sending chains and counters of the messages it returns. */
module CounterRuns {
  import opened Prelude
  import opened Crypto
  import opened Session
  import opened Record
  import opened Store
  import opened Labels
  import opened PreKeyRuns

  /** The sending chain of a session, named by its ratchet key.  A responder session that has
      not received anything still has the signed pre-key as ratchet key and cannot be current
      in a stored record. */
  function SendKey(s: Session): Label {
    if s.sender.Some? && s.receivers != [] then Some(s.sender.value.ratchetKey) else None
  }

  /** A store, the ratchet keys generated for it, and the (chain, counter) pairs on the wire. */
  datatype Wired = Wired(store: Store, generated: set<KeyId>, wire: set<(KeyId, nat)>)

  /** Generated keys are new, and no chain runs past the u32 counter. */
  ghost predicate Enabled(t: Wired, step: StoreStep) {
    match step
    case ProcessBundle(_, _, _, sendingKey) => sendingKey !in t.generated
    case DecryptSignal(_, _, newKey) => newKey !in t.generated
    case DecryptPreKey(_, _, newKey) => newKey !in t.generated
    case EncryptMessage(a, _) =>
      (a in t.store.sessions && t.store.sessions[a].current.Some? && t.store.sessions[a].current.value.sender.Some?)
      ==> t.store.sessions[a].current.value.sender.value.chainKey.index + 1 < U32_SIZE
    case _ => true
  }

  function PairOf(m: CiphertextMessage): (KeyId, nat) { (Inner(m).content.ratchetKey, Inner(m).content.counter) }

  function Track(t: Wired, step: StoreStep): Wired {
    var st := ApplyStore(t.store, step);
    match step
    case ProcessBundle(_, _, _, sendingKey) => Wired(st, t.generated + {sendingKey}, t.wire)
    case DecryptSignal(_, _, newKey) => Wired(st, t.generated + {newKey}, t.wire)
    case DecryptPreKey(_, _, newKey) => Wired(st, t.generated + {newKey}, t.wire)
    case EncryptMessage(a, plaintext) =>
      var r := EncryptAt(t.store, a, plaintext).1;
      Wired(st, t.generated, if r.Ok? then t.wire + {PairOf(r.value)} else t.wire)
    case _ => Wired(st, t.generated, t.wire)
  }

  /** A session's next counter is beyond every counter its chain has put on the wire. */
  ghost predicate SlotOk(s: Session, generated: set<KeyId>, wire: set<(KeyId, nat)>) {
    SendKey(s).Some? ==>
      && SendKey(s).value in generated
      && s.sender.value.chainKey.index < U32_SIZE
      && forall i: nat :: (SendKey(s).value, i) in wire ==> i < s.sender.value.chainKey.index
  }

  ghost predicate RowOk(rec: Record, generated: set<KeyId>, wire: set<(KeyId, nat)>) {
    Bounded(rec) && forall i :: 0 <= i < |Sessions(rec)| ==> SlotOk(Sessions(rec)[i], generated, wire)
  }

  ghost predicate SendersInv(sessions: map<Address, Record>, generated: set<KeyId>, wire: set<(KeyId, nat)>) {
    && (forall p :: p in wire ==> p.0 in generated)
    && (forall a :: a in sessions ==> RowOk(sessions[a], generated, wire))
    && Unique(Table(SendKey, sessions))
  }

  ghost predicate CounterInv(t: Wired) {
    && SendersInv(t.store.sessions, t.generated, t.wire)
    && forall a :: a in t.store.sessions && t.store.sessions[a].current.Some? ==>
       SendKey(t.store.sessions[a].current.value).Some?
  }

  lemma UngeneratedIsAbsent(sessions: map<Address, Record>, generated: set<KeyId>, wire: set<(KeyId, nat)>, k: KeyId)
    requires SendersInv(sessions, generated, wire) && k !in generated
    ensures Absent(Table(SendKey, sessions), k)
    ensures forall i: nat :: (k, i) !in wire
  {
    forall a, i | a in sessions && 0 <= i < |Row(SendKey, sessions[a])|
      ensures Row(SendKey, sessions[a])[i] != Some(k) {
      assert SlotOk(Sessions(sessions[a])[i], generated, wire);
    }
  }

  /** A successful decryption keeps the sending chain or replaces it by a new one. */
  lemma SenderAfterDecrypt(s: Session, m: SignalMessage, newKey: KeyId)
    requires Decrypt(s, m, newKey).1.Ok?
    ensures var s' := Decrypt(s, m, newKey).0;
      && SendKey(s').Some?
      && ((s'.sender == s.sender && SendKey(s') == SendKey(s))
          || (SendKey(s') == Some(newKey) && s'.sender.value.chainKey.index == 0))
  {
    var theirs := m.content.ratchetKey;
    if FindChain(s.receivers, theirs) == |s.receivers| {
      assert PrepareChain(s, theirs, newKey) == RatchetStep(s, theirs, newKey);
    }
  }

  /** One session of a record replaced by a successor, at the front. */
  lemma ReplaceKeepsSendersInv(sessions: map<Address, Record>, generated: set<KeyId>, wire: set<(KeyId, nat)>,
                               a: Address, rec: Record, i: nat, s: Session)
    requires SendersInv(sessions, generated, wire) && a in sessions && i < |Sessions(sessions[a])|
    requires Bounded(rec) && Sessions(rec) == [s] + RemoveAt(Sessions(sessions[a]), i)
    requires SendKey(s) == SendKey(Sessions(sessions[a])[i])
      || (SendKey(s).Some? && Absent(Table(SendKey, sessions), SendKey(s).value))
    requires SlotOk(s, generated, wire)
    ensures SendersInv(sessions[a := rec], generated, wire)
  {
    var all, t := Sessions(sessions[a]), Table(SendKey, sessions);
    TableUpdate(SendKey, sessions, a, rec);
    LabelsMoved(SendKey, all, i, s);
    ReplaceKeepsUnique(t, a, i, SendKey(s));
    forall j | 0 <= j < |Sessions(rec)| ensures SlotOk(Sessions(rec)[j], generated, wire) {
      if j > 0 { assert Sessions(rec)[j] == all[if j <= i then j - 1 else j]; }
    }
  }

  /** A new session in front of a record. */
  lemma PromoteKeepsSendersInv(sessions: map<Address, Record>, generated: set<KeyId>, wire: set<(KeyId, nat)>,
                               a: Address, before: Record, s: Session)
    requires SendersInv(sessions, generated, wire)
    requires before == if a in sessions then sessions[a] else FreshRecord
    requires SendKey(s).None? || Absent(Table(SendKey, sessions), SendKey(s).value)
    requires SlotOk(s, generated, wire)
    ensures SendersInv(sessions[a := Promote(before, s)], generated, wire)
    ensures Promote(Archive(before), s) == Promote(before, s)
  {
    var t, rec := Table(SendKey, sessions), Promote(before, s);
    TableUpdate(SendKey, sessions, a, rec);
    var n := PromotedRow(SendKey, before, s);
    AddKeepsUnique(t, a, Row(SendKey, before), SendKey(s), n);
    var n' := |Archive(before).previous|;
    assert Sessions(rec) == [s] + Sessions(before)[..n'];
  }

  lemma MoreGenerated(sessions: map<Address, Record>, generated: set<KeyId>, wire: set<(KeyId, nat)>, k: KeyId)
    requires SendersInv(sessions, generated, wire)
    ensures SendersInv(sessions, generated + {k}, wire)
  {
    forall a | a in sessions ensures RowOk(sessions[a], generated + {k}, wire) {
      var all := Sessions(sessions[a]);
      forall i | 0 <= i < |all| ensures SlotOk(all[i], generated + {k}, wire) {
        assert SlotOk(all[i], generated, wire);
      }
    }
  }

  lemma DecryptKeepsSendersInv(sessions: map<Address, Record>, generated: set<KeyId>, wire: set<(KeyId, nat)>,
                               a: Address, m: SignalMessage, newKey: KeyId)
    requires SendersInv(sessions, generated, wire) && a in sessions && newKey !in generated
    requires DecryptRecord(sessions[a], m, newKey).1.Ok?
    ensures var rec := DecryptRecord(sessions[a], m, newKey).0;
      && SendersInv(sessions[a := rec], generated + {newKey}, wire)
      && rec.current.Some? && SendKey(rec.current.value).Some?
  {
    var rec := DecryptRecord(sessions[a], m, newKey).0;
    DecryptConservesSessions(sessions[a], m, newKey);
    var i := Acceptor(sessions[a], m, newKey);
    var s := Sessions(sessions[a])[i];
    SenderAfterDecrypt(s, m, newKey);
    UngeneratedIsAbsent(sessions, generated, wire, newKey);
    MoreGenerated(sessions, generated, wire, newKey);
    assert SlotOk(s, generated + {newKey}, wire);
    ReplaceKeepsSendersInv(sessions, generated + {newKey}, wire, a, rec, i, Decrypt(s, m, newKey).0);
  }

  /** The pair a successful encryption puts on the wire was never there before. */
  lemma ReturnedPairIsNew(t: Wired, a: Address, plaintext: Bytes)
    requires CounterInv(t) && Enabled(t, EncryptMessage(a, plaintext)) && EncryptAt(t.store, a, plaintext).1.Ok?
    ensures var s := t.store.sessions[a].current.value;
      && SendKey(s).Some?
      && PairOf(EncryptAt(t.store, a, plaintext).1.value) == (SendKey(s).value, s.sender.value.chainKey.index)
      && PairOf(EncryptAt(t.store, a, plaintext).1.value) !in t.wire
  {
    assert SlotOk(Sessions(t.store.sessions[a])[0], t.generated, t.wire);
  }

  /** Only the session that owns a chain is affected by a new pair of that chain. */
  lemma OtherSlotsIgnorePair(sessions: map<Address, Record>, generated: set<KeyId>, wire: set<(KeyId, nat)>, k: KeyId,
                             c: nat, b: Address, j: nat)
    requires SendersInv(sessions, generated, wire)
    requires b in sessions && 0 <= j < |Sessions(sessions[b])| && SendKey(Sessions(sessions[b])[j]) != Some(k)
    ensures SlotOk(Sessions(sessions[b])[j], generated, wire + {(k, c)})
  {
    assert SlotOk(Sessions(sessions[b])[j], generated, wire);
  }

  /** The rows after the current session of `a` sent counter `c` on chain `k`. */
  lemma RowsAfterSend(sessions: map<Address, Record>, generated: set<KeyId>, wire: set<(KeyId, nat)>,
                      a: Address, s': Session, k: KeyId, c: nat, b: Address)
    requires SendersInv(sessions, generated, wire) && a in sessions && sessions[a].current.Some?
    requires SendKey(sessions[a].current.value) == Some(k) && SlotOk(s', generated, wire + {(k, c)})
    requires b in sessions
    ensures RowOk(sessions[a := sessions[a].(current := Some(s'))][b], generated, wire + {(k, c)})
  {
    hide SlotOk;
    var sessions' := sessions[a := sessions[a].(current := Some(s'))];
    var all := Sessions(sessions'[b]);
    var table := Table(SendKey, sessions);
    assert table[a][0] == Some(k);
    forall j | 0 <= j < |all| ensures SlotOk(all[j], generated, wire + {(k, c)}) {
      if b != a || j > 0 {
        assert all[j] == Sessions(sessions[b])[j];
        assert table[b][j] == SendKey(all[j]);
        OtherSlotsIgnorePair(sessions, generated, wire, k, c, b, j);
      }
    }
  }

  lemma SendersAfterSend(sessions: map<Address, Record>, generated: set<KeyId>, wire: set<(KeyId, nat)>,
                         a: Address, s': Session, k: KeyId, c: nat)
    requires SendersInv(sessions, generated, wire) && a in sessions && sessions[a].current.Some? && k in generated
    requires SendKey(sessions[a].current.value) == Some(k) == SendKey(s') && SlotOk(s', generated, wire + {(k, c)})
    ensures SendersInv(sessions[a := sessions[a].(current := Some(s'))], generated, wire + {(k, c)})
  {
    hide SlotOk;
    var rec' := sessions[a].(current := Some(s'));
    forall b | b in sessions ensures RowOk(sessions[a := rec'][b], generated, wire + {(k, c)}) {
      RowsAfterSend(sessions, generated, wire, a, s', k, c, b);
    }
    TableUpdate(SendKey, sessions, a, rec');
    assert Row(SendKey, rec') == Table(SendKey, sessions)[a];
    assert Table(SendKey, sessions[a := rec']) == Table(SendKey, sessions);
  }

  /** A session that sent moves beyond the counter it put on the wire. */
  lemma SlotAfterSend(s: Session, plaintext: Bytes, generated: set<KeyId>, wire: set<(KeyId, nat)>)
    requires SlotOk(s, generated, wire) && SendKey(s).Some? && Encrypt(s, plaintext).1.Ok?
    requires s.sender.value.chainKey.index + 1 < U32_SIZE
    ensures SendKey(Encrypt(s, plaintext).0) == SendKey(s)
    ensures SlotOk(Encrypt(s, plaintext).0, generated, wire + {(SendKey(s).value, s.sender.value.chainKey.index)})
  {
  }

  lemma EncryptionKeepsCounterInv(t: Wired, a: Address, plaintext: Bytes)
    requires CounterInv(t) && Enabled(t, EncryptMessage(a, plaintext))
    ensures CounterInv(Track(t, EncryptMessage(a, plaintext)))
  {
    if EncryptAt(t.store, a, plaintext).1.Ok? {
      hide Encrypt, PairOf, Unique;
      var rec := t.store.sessions[a];
      var s, s' := rec.current.value, Encrypt(rec.current.value, plaintext).0;
      ReturnedPairIsNew(t, a, plaintext);
      assert SlotOk(Sessions(rec)[0], t.generated, t.wire);
      SlotAfterSend(s, plaintext, t.generated, t.wire);
      SendersAfterSend(t.store.sessions, t.generated, t.wire, a, s', SendKey(s).value, s.sender.value.chainKey.index);
    }
  }

  lemma NewResponderKeepsSendersInv(t: Wired, a: Address, pm: PreKeySignalMessage, newKey: KeyId)
    requires CounterInv(t) && newKey !in t.generated && ResponderSession(t.store, pm).Ok?
    requires var rec := Promote(Archive(Load(t.store, a)), ResponderSession(t.store, pm).value);
      DecryptRecord(rec, pm.message, newKey).1.Ok?
    ensures var rec := Promote(Archive(Load(t.store, a)), ResponderSession(t.store, pm).value);
      var after := DecryptRecord(rec, pm.message, newKey).0;
      && SendersInv(t.store.sessions[a := after], t.generated + {newKey}, t.wire)
      && after.current.Some? && SendKey(after.current.value).Some?
  {
    hide Decrypt, DecryptRecord;
    var st, rec := t.store, Load(t.store, a);
    var s := ResponderSession(st, pm).value;
    PromoteKeepsSendersInv(st.sessions, t.generated, t.wire, a, rec, s);
    var mid := st.sessions[a := Promote(rec, s)];
    DecryptKeepsSendersInv(mid, t.generated, t.wire, a, pm.message, newKey);
    var after := DecryptRecord(Promote(rec, s), pm.message, newKey).0;
    assert mid[a := after] == st.sessions[a := after];
  }

  /** A record whose current session can send takes the place of another. */
  lemma StoredRecordKeepsCounterInv(t: Wired, st: Store, a: Address, rec: Record, newKey: KeyId)
    requires CounterInv(t) && st.sessions == t.store.sessions[a := rec]
    requires SendersInv(st.sessions, t.generated + {newKey}, t.wire)
    requires rec.current.Some? && SendKey(rec.current.value).Some?
    ensures CounterInv(Wired(st, t.generated + {newKey}, t.wire))
  {
  }

  lemma PreKeyMessageKeepsCounterInv(t: Wired, a: Address, pm: PreKeySignalMessage, newKey: KeyId)
    requires CounterInv(t) && newKey !in t.generated
    requires DecryptPreKeyAt(t.store, a, pm, newKey).1.Ok?
    ensures CounterInv(Track(t, DecryptPreKey(a, pm, newKey)))
  {
    hide Decrypt, DecryptRecord;
    var st, rec := t.store, Load(t.store, a);
    PreKeyOutcome(st, a, pm, newKey);
    var after := DecryptRecord(ProcessPreKey(st, a, rec, pm).value.0, pm.message, newKey).0;
    if HasSession(rec, pm.version, pm.baseKey) {
      DecryptKeepsSendersInv(st.sessions, t.generated, t.wire, a, pm.message, newKey);
    } else {
      NewResponderKeepsSendersInv(t, a, pm, newKey);
    }
    StoredRecordKeepsCounterInv(t, DecryptPreKeyAt(st, a, pm, newKey).0, a, after, newKey);
  }

  lemma SignalMessageKeepsCounterInv(t: Wired, a: Address, m: SignalMessage, newKey: KeyId)
    requires CounterInv(t) && newKey !in t.generated
    requires DecryptSignalAt(t.store, a, m, newKey).1.Ok?
    ensures CounterInv(Track(t, DecryptSignal(a, m, newKey)))
  {
    hide Decrypt, DecryptRecord;
    DecryptKeepsSendersInv(t.store.sessions, t.generated, t.wire, a, m, newKey);
    StoredRecordKeepsCounterInv(t, DecryptSignalAt(t.store, a, m, newKey).0, a,
      DecryptRecord(t.store.sessions[a], m, newKey).0, newKey);
  }

  lemma BundleKeepsCounterInv(t: Wired, a: Address, b: PreKeyBundle, baseKey: KeyId, sendingKey: KeyId)
    requires CounterInv(t) && sendingKey !in t.generated
    ensures CounterInv(Track(t, ProcessBundle(a, b, baseKey, sendingKey)))
  {
    var st := t.store;
    UngeneratedIsAbsent(st.sessions, t.generated, t.wire, sendingKey);
    MoreGenerated(st.sessions, t.generated, t.wire, sendingKey);
    if ProcessBundleAt(st, a, b, baseKey, sendingKey).1.Ok? {
      var s := InitiatorSession(st, b, baseKey, sendingKey);
      PromoteKeepsSendersInv(st.sessions, t.generated + {sendingKey}, t.wire, a, Load(st, a), s);
    }
  }

  lemma ArchiveKeepsCounterInv(t: Wired, a: Address)
    requires CounterInv(t) && a in t.store.sessions
    ensures CounterInv(Track(t, ArchiveSession(a)))
  {
    var sessions, rec := t.store.sessions, Archive(t.store.sessions[a]);
    var table, n := Table(SendKey, sessions), |rec.previous|;
    assert Sessions(rec) == Sessions(sessions[a])[..n];
    TableUpdate(SendKey, sessions, a, rec);
    assert Row(SendKey, rec) == table[a][..n];
    TrimKeepsUnique(table, a, n);
  }

  lemma StepKeepsCounterInv(t: Wired, step: StoreStep)
    requires CounterInv(t) && Enabled(t, step)
    ensures CounterInv(Track(t, step))
  {
    hide Decrypt, DecryptRecord, Encrypt;
    match step
    case SavePreKey(_, _) =>
    case SaveSignedPreKey(_, _) =>
    case ProcessBundle(a, b, baseKey, sendingKey) => BundleKeepsCounterInv(t, a, b, baseKey, sendingKey);
    case EncryptMessage(a, plaintext) => EncryptionKeepsCounterInv(t, a, plaintext);
    case DecryptSignal(a, m, newKey) =>
      MoreGenerated(t.store.sessions, t.generated, t.wire, newKey);
      if DecryptSignalAt(t.store, a, m, newKey).1.Ok? {
        SignalMessageKeepsCounterInv(t, a, m, newKey);
      }
    case DecryptPreKey(a, pm, newKey) =>
      MoreGenerated(t.store.sessions, t.generated, t.wire, newKey);
      if DecryptPreKeyAt(t.store, a, pm, newKey).1.Ok? {
        PreKeyMessageKeepsCounterInv(t, a, pm, newKey);
      }
    case ArchiveSession(a) =>
      if a in t.store.sessions { ArchiveKeepsCounterInv(t, a); }
  }

  ghost predicate Run(t: Wired, steps: seq<StoreStep>, end: Wired)
    decreases |steps|
  {
    if steps == [] then t == end else Enabled(t, steps[0]) && Run(Track(t, steps[0]), steps[1..], end)
  }

  lemma {:induction false} RunKeepsCounterInv(t: Wired, steps: seq<StoreStep>, end: Wired)
    requires CounterInv(t) && Run(t, steps, end)
    ensures CounterInv(end) && t.wire <= end.wire
    decreases |steps|
  {
    if steps != [] {
      StepKeepsCounterInv(t, steps[0]);
      RunKeepsCounterInv(Track(t, steps[0]), steps[1..], end);
    }
  }

  /** No two messages that a store returns in one run, to any addresses, use the same sending
      chain and counter. */
  lemma NoCounterReuse(identity: KeyId, steps: seq<StoreStep>, t: Wired, a: Address, plaintext: Bytes,
                       more: seq<StoreStep>, t': Wired, a': Address, plaintext': Bytes)
    requires Run(Wired(NewStore(identity), {}, {}), steps, t)
    requires Enabled(t, EncryptMessage(a, plaintext)) && EncryptAt(t.store, a, plaintext).1.Ok?
    requires Run(Track(t, EncryptMessage(a, plaintext)), more, t')
    requires Enabled(t', EncryptMessage(a', plaintext')) && EncryptAt(t'.store, a', plaintext').1.Ok?
    ensures PairOf(EncryptAt(t.store, a, plaintext).1.value) != PairOf(EncryptAt(t'.store, a', plaintext').1.value)
  {
    RunKeepsCounterInv(Wired(NewStore(identity), {}, {}), steps, t);
    StepKeepsCounterInv(t, EncryptMessage(a, plaintext));
    RunKeepsCounterInv(Track(t, EncryptMessage(a, plaintext)), more, t');
    ReturnedPairIsNew(t', a', plaintext');
  }

  /** Why the bound is there: at the last u32 value the counter of a chain starts again. */
  lemma CounterAdvancesIff(s: Session, plaintext: Bytes)
    requires Encrypt(s, plaintext).1.Ok? && s.sender.value.chainKey.index < U32_SIZE
    ensures Encrypt(s, plaintext).0.sender.value.chainKey.index > s.sender.value.chainKey.index
       <==> s.sender.value.chainKey.index != 0xFFFF_FFFF
  {
  }
}
