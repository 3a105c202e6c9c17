/** Runs of two users who set up sessions through pre-key processing in both directions. */
module World {
  import opened Prelude
  import opened Crypto
  import opened Ratchet
  import opened Session
  import opened Origins
  import opened X3dh
  import opened Record
  import opened Store
  import opened Routing

  datatype Side = Left | Right

  /** Each user files the other under one address. */
  const PEER: Address := 0

  datatype World = World(left: Store, right: Store, owner: map<KeyId, KeyId>, sent: set<Posted>) {
    function Of(u: Side): Store { if u.Left? then left else right }

    function Peer(u: Side): Store { if u.Left? then right else left }

    function With(u: Side, st: Store): World { if u.Left? then this.(left := st) else this.(right := st) }

    function Ids(): set<KeyId> { {left.identity, right.identity} }
  }

  datatype WorldStep =
    | Save(who: Side, preKeys: map<nat, KeyId>, signedPreKeys: map<nat, KeyId>)
    | Bundle(who: Side, bundle: PreKeyBundle, baseKey: KeyId, sendingKey: KeyId)
    | Post(who: Side, plaintext: Bytes)
    | Take(who: Side, signal: SignalMessage, newKey: KeyId)
    | TakePreKey(who: Side, preKey: PreKeySignalMessage, newKey: KeyId)
    | PutAway(who: Side)

  /** Generated keys are new; a bundle names the peer's identity; the network presents what it
      can.  The wrapper of a pre-key message is not authenticated: its version, base key,
      identity key and ids are arbitrary. */
  ghost predicate Enabled(w: World, step: WorldStep) {
    match step
    case Save(_, _, _) => true
    case Bundle(u, b, baseKey, sendingKey) =>
      && b.identityKey == w.Peer(u).identity
      && baseKey !in w.Ids() && !HasSession(Load(w.Of(u), PEER), CURRENT_VERSION, baseKey)
      && sendingKey !in w.owner
    case Post(_, _) => true
    case Take(u, m, newKey) => newKey !in w.owner && Presentable(m, Load(w.Of(u), PEER), w.sent)
    case TakePreKey(u, pm, newKey) =>
      && newKey !in w.owner
      && var processed := ProcessPreKey(w.Of(u), PEER, Load(w.Of(u), PEER), pm);
         processed.Ok? ==> Presentable(pm.message, processed.value.0, w.sent)
    case PutAway(_) => true
  }

  /** The base key of the current session, which owns what the last step generated. */
  function CurrentBase(st: Store): Option<KeyId> {
    if PEER in st.sessions && st.sessions[PEER].current.Some?
      then st.sessions[PEER].current.value.aliceBaseKey else None
  }

  function Own(w: World, st: Store, key: KeyId): World {
    if CurrentBase(st).Some? then w.(owner := w.owner[key := CurrentBase(st).value]) else w
  }

  function Advance(w: World, step: WorldStep): World {
    var st := w.Of(step.who);
    match step
    case Save(u, preKeys, signedPreKeys) => w.With(u, st.(preKeys := preKeys, signedPreKeys := signedPreKeys))
    case Bundle(u, b, baseKey, sendingKey) =>
      var (st', r) := ProcessBundleAt(st, PEER, b, baseKey, sendingKey);
      if r.Err? then w.With(u, st') else Own(w, st', sendingKey).With(u, st')
    case Post(u, plaintext) =>
      var (st', r) := EncryptAt(st, PEER, plaintext);
      if r.Err? || CurrentBase(st).None? then w.With(u, st')
      else w.(sent := w.sent + {Posted(Inner(r.value), CurrentBase(st).value)}).With(u, st')
    case Take(u, m, newKey) =>
      var (st', r) := DecryptSignalAt(st, PEER, m, newKey);
      if r.Err? then w.With(u, st') else Own(w, st', newKey).With(u, st')
    case TakePreKey(u, pm, newKey) =>
      var (st', r) := DecryptPreKeyAt(st, PEER, pm, newKey);
      if r.Err? then w.With(u, st') else Own(w, st', newKey).With(u, st')
    case PutAway(u) =>
      if PEER in st.sessions then w.With(u, StoreSession(st, PEER, Archive(st.sessions[PEER]))) else w
  }

  /** A stored record fits; its current session has received or was initiated here, and its
      base key was generated by one of the two users. */
  ghost predicate StoreFits(st: Store, ids: set<KeyId>, owner: map<KeyId, KeyId>) {
    PEER in st.sessions ==> RecordFits(st.sessions[PEER], ids, owner) && CurrentFits(st.sessions[PEER], ids)
  }

  ghost predicate CurrentFits(rec: Record, ids: set<KeyId>) {
    rec.current.Some? ==> rec.current.value.receivers != []
                          && rec.current.value.aliceBaseKey.Some? && rec.current.value.aliceBaseKey.value !in ids
  }

  ghost predicate WorldInv(w: World) {
    && StoreFits(w.left, w.Ids(), w.owner)
    && StoreFits(w.right, w.Ids(), w.owner)
    && forall p :: p in w.sent ==> PostedOk(p, w.Ids(), w.owner)
  }

  lemma StoreFitsWithMoreOwners(st: Store, ids: set<KeyId>, owner: map<KeyId, KeyId>, k: KeyId, base: KeyId)
    requires StoreFits(st, ids, owner) && k !in owner
    ensures StoreFits(st, ids, owner[k := base])
  {
    if PEER in st.sessions {
      var all := Sessions(st.sessions[PEER]);
      forall i | 0 <= i < |all| ensures SessionFits(all[i], ids, owner[k := base]) {
        MoreOwners(all[i], ids, owner, k, base);
      }
    }
  }

  /** One side changed its store and one key may have gained an owner. */
  lemma SideChangeKeepsInv(w: World, u: Side, st: Store, k: KeyId, base: KeyId)
    requires WorldInv(w) && k !in w.owner && st.identity == w.Of(u).identity
    requires StoreFits(st, w.Ids(), w.owner[k := base])
    ensures WorldInv(w.(owner := w.owner[k := base]).With(u, st))
  {
    StoreFitsWithMoreOwners(w.Peer(u), w.Ids(), w.owner, k, base);
    var w' := w.(owner := w.owner[k := base]).With(u, st);
    assert w'.Ids() == w.Ids();
    forall p | p in w'.sent ensures PostedOk(p, w'.Ids(), w'.owner) {
      assert PostedOk(p, w.Ids(), w.owner);
    }
  }

  lemma SideChangeAlone(w: World, u: Side, st: Store)
    requires WorldInv(w) && st.identity == w.Of(u).identity
    requires StoreFits(st, w.Ids(), w.owner)
    ensures WorldInv(w.With(u, st))
  {
    assert w.With(u, st).Ids() == w.Ids();
  }

  lemma ResponderFits(st: Store, pm: PreKeySignalMessage, ids: set<KeyId>, owner: map<KeyId, KeyId>)
    requires ResponderSession(st, pm).Ok? && st.identity in ids
    ensures SessionFits(ResponderSession(st, pm).value, ids, owner)
  {
    var s := ResponderSession(st, pm).value;
    AgreeInjective(pm.baseKey, st.identity, st.identity);
    assert RootOrigin(s.root)[1] == Agree(st.identity, pm.baseKey);
  }

  lemma InitiatorFits(st: Store, b: PreKeyBundle, baseKey: KeyId, sendingKey: KeyId, ids: set<KeyId>,
                      owner: map<KeyId, KeyId>)
    requires b.identityKey in ids && sendingKey in owner && owner[sendingKey] == baseKey
    ensures SessionFits(InitiatorSession(st, b, baseKey, sendingKey), ids, owner)
  {
    var s := InitiatorSession(st, b, baseKey, sendingKey);
    assert RootOrigin(s.root) == AliceSecrets(InitiatorParameters(st, b, baseKey));
    assert RootOrigin(s.root)[1] == Agree(b.identityKey, baseKey);
  }

  lemma BundleKeepsInv(w: World, u: Side, b: PreKeyBundle, baseKey: KeyId, sendingKey: KeyId)
    requires WorldInv(w) && Enabled(w, Bundle(u, b, baseKey, sendingKey))
    ensures WorldInv(Advance(w, Bundle(u, b, baseKey, sendingKey)))
  {
    var st := w.Of(u);
    var (st', r) := ProcessBundleAt(st, PEER, b, baseKey, sendingKey);
    if r.Ok? {
      var s, owner := InitiatorSession(st, b, baseKey, sendingKey), w.owner[sendingKey := baseKey];
      InitiatorFits(st, b, baseKey, sendingKey, w.Ids(), owner);
      StoreFitsWithMoreOwners(st, w.Ids(), w.owner, sendingKey, baseKey);
      PromoteKeepsRecordFits(Load(st, PEER), s, w.Ids(), owner);
      SideChangeKeepsInv(w, u, st', sendingKey, baseKey);
    } else {
      SideChangeAlone(w, u, st');
    }
  }

  /** The message a fitting current session sends is posted under its base key. */
  lemma SentMessageFits(s: Session, plaintext: Bytes, ids: set<KeyId>, owner: map<KeyId, KeyId>)
    requires SessionFits(s, ids, owner) && s.receivers != [] && s.aliceBaseKey.value !in ids
      && Encrypt(s, plaintext).1.Ok?
    ensures PostedOk(Posted(Inner(Encrypt(s, plaintext).1.value), s.aliceBaseKey.value), ids, owner)
    ensures SessionFits(Encrypt(s, plaintext).0, ids, owner)
  {
  }

  lemma PostKeepsInv(w: World, u: Side, plaintext: Bytes)
    requires WorldInv(w)
    ensures WorldInv(Advance(w, Post(u, plaintext)))
  {
    hide Rooted, Names, ChainsOwned;
    var st := w.Of(u);
    var (st', r) := EncryptAt(st, PEER, plaintext);
    if r.Ok? {
      var rec := st.sessions[PEER];
      var s := rec.current.value;
      assert Sessions(rec)[0] == s;
      SentMessageFits(s, plaintext, w.Ids(), w.owner);
      var s' := Encrypt(s, plaintext).0;
      assert Sessions(st'.sessions[PEER]) == [s'] + RemoveAt(Sessions(rec), 0);
      assert StoreFits(st', w.Ids(), w.owner);
      SideChangeAlone(w.(sent := w.sent + {Posted(Inner(r.value), s.aliceBaseKey.value)}), u, st');
    } else {
      SideChangeAlone(w, u, st');
    }
  }

  /** A record that accepted a message was stored. */
  lemma AcceptedRecordKeepsInv(w: World, u: Side, st': Store, rec: Record, m: SignalMessage, newKey: KeyId)
    requires WorldInv(w) && newKey !in w.owner && st'.identity == w.Of(u).identity
    requires RecordFits(rec, w.Ids(), w.owner) && Presentable(m, rec, w.sent)
    requires DecryptRecord(rec, m, newKey).1.Ok?
    requires PEER in st'.sessions && st'.sessions[PEER] == DecryptRecord(rec, m, newKey).0
    ensures WorldInv(Own(w, st', newKey).With(u, st'))
  {
    hide Decrypt;
    DecryptKeepsRecordFits(rec, m, newKey, w.sent, w.Ids(), w.owner);
    SideChangeKeepsInv(w, u, st', newKey, CurrentBase(st').value);
  }

  lemma TakeKeepsInv(w: World, u: Side, m: SignalMessage, newKey: KeyId)
    requires WorldInv(w) && Enabled(w, Take(u, m, newKey))
    ensures WorldInv(Advance(w, Take(u, m, newKey)))
  {
    hide Decrypt, DecryptRecord;
    var st := w.Of(u);
    var (st', r) := DecryptSignalAt(st, PEER, m, newKey);
    if r.Ok? {
      AcceptedRecordKeepsInv(w, u, st', st.sessions[PEER], m, newKey);
    } else {
      SideChangeAlone(w, u, st');
    }
  }

  lemma ProcessedRecordFits(w: World, u: Side, pm: PreKeySignalMessage)
    requires WorldInv(w)
    requires ProcessPreKey(w.Of(u), PEER, Load(w.Of(u), PEER), pm).Ok?
    ensures RecordFits(ProcessPreKey(w.Of(u), PEER, Load(w.Of(u), PEER), pm).value.0, w.Ids(), w.owner)
  {
    var st, rec := w.Of(u), Load(w.Of(u), PEER);
    if !HasSession(rec, pm.version, pm.baseKey) {
      ResponderFits(st, pm, w.Ids(), w.owner);
      PromoteKeepsRecordFits(rec, ResponderSession(st, pm).value, w.Ids(), w.owner);
    }
  }

  lemma TakePreKeyKeepsInv(w: World, u: Side, pm: PreKeySignalMessage, newKey: KeyId)
    requires WorldInv(w) && Enabled(w, TakePreKey(u, pm, newKey))
    ensures WorldInv(Advance(w, TakePreKey(u, pm, newKey)))
  {
    hide Decrypt, DecryptRecord;
    var st := w.Of(u);
    var (st', r) := DecryptPreKeyAt(st, PEER, pm, newKey);
    if r.Ok? {
      ProcessedRecordFits(w, u, pm);
      AcceptedRecordKeepsInv(w, u, st', ProcessPreKey(st, PEER, Load(st, PEER), pm).value.0, pm.message, newKey);
    } else {
      SideChangeAlone(w, u, st');
    }
  }

  lemma PutAwayKeepsInv(w: World, u: Side)
    requires WorldInv(w)
    ensures WorldInv(Advance(w, PutAway(u)))
  {
    hide SessionFits, PostedOk;
    var st := w.Of(u);
    if PEER in st.sessions {
      var rec := Archive(st.sessions[PEER]);
      assert Sessions(rec) == Sessions(st.sessions[PEER])[..|rec.previous|];
      SideChangeAlone(w, u, StoreSession(st, PEER, rec));
    }
  }

  lemma StepKeepsWorldInv(w: World, step: WorldStep)
    requires WorldInv(w) && Enabled(w, step)
    ensures WorldInv(Advance(w, step))
  {
    match step
    case Save(u, preKeys, signedPreKeys) =>
      SideChangeAlone(w, u, w.Of(u).(preKeys := preKeys, signedPreKeys := signedPreKeys));
    case Bundle(u, b, baseKey, sendingKey) => BundleKeepsInv(w, u, b, baseKey, sendingKey);
    case Post(u, plaintext) => PostKeepsInv(w, u, plaintext);
    case Take(u, m, newKey) => TakeKeepsInv(w, u, m, newKey);
    case TakePreKey(u, pm, newKey) => TakePreKeyKeepsInv(w, u, pm, newKey);
    case PutAway(u) => PutAwayKeepsInv(w, u);
  }

  ghost predicate Run(w: World, steps: seq<WorldStep>, end: World)
    decreases |steps|
  {
    if steps == [] then w == end else Enabled(w, steps[0]) && Run(Advance(w, steps[0]), steps[1..], end)
  }

  lemma {:induction false} RunKeepsWorldInv(w: World, steps: seq<WorldStep>, end: World)
    requires WorldInv(w) && Run(w, steps, end)
    ensures WorldInv(end)
    decreases |steps|
  {
    if steps != [] {
      StepKeepsWorldInv(w, steps[0]);
      RunKeepsWorldInv(Advance(w, steps[0]), steps[1..], end);
    }
  }

  // --------------------------------------------------------------------- distinct ids

  /** A pre-key message whose wrapper has another version than a retained session with its base
      key is the one thing that can file a base key twice (see `Replays.StoredIdsDistinctIff`). */
  predicate Ordinary(w: World, step: WorldStep) {
    step.TakePreKey? ==>
      step.preKey.version == CURRENT_VERSION
        || !HasSession(Load(w.Of(step.who), PEER), CURRENT_VERSION, step.preKey.baseKey)
  }

  ghost predicate IdsDistinct(w: World) { DistinctIds(Load(w.left, PEER)) && DistinctIds(Load(w.right, PEER)) }

  lemma AddedSessionIsDistinct(rec: Record, s: Session)
    requires Bounded(rec) && DistinctIds(rec) && s.Version() == CURRENT_VERSION && s.aliceBaseKey.Some?
    requires !HasSession(rec, CURRENT_VERSION, s.aliceBaseKey.value)
    ensures DistinctIds(Promote(rec, s)) && Bounded(Promote(rec, s)) && Promote(Archive(rec), s) == Promote(rec, s)
  {
    PromoteKeepsDistinctIdsIff(rec, s);
    var q := Archive(rec).previous;
    forall i | 0 <= i < |q| ensures !Is(q[i], CURRENT_VERSION, s.aliceBaseKey.value) {
      assert q[i] == Sessions(rec)[i];
    }
  }

  lemma ProcessedIsDistinct(st: Store, rec: Record, pm: PreKeySignalMessage)
    requires Bounded(rec) && DistinctIds(rec) && ProcessPreKey(st, PEER, rec, pm).Ok?
    requires pm.version == CURRENT_VERSION || !HasSession(rec, CURRENT_VERSION, pm.baseKey)
    ensures var rec1 := ProcessPreKey(st, PEER, rec, pm).value.0; DistinctIds(rec1) && Bounded(rec1)
  {
    hide DistinctIds;
    if !HasSession(rec, pm.version, pm.baseKey) {
      AddedSessionIsDistinct(rec, ResponderSession(st, pm).value);
    }
  }

  lemma TakePreKeyKeepsDistinct(w: World, u: Side, pm: PreKeySignalMessage, newKey: KeyId)
    requires WorldInv(w) && DistinctIds(Load(w.Of(u), PEER)) && Ordinary(w, TakePreKey(u, pm, newKey))
    ensures DistinctIds(Load(Advance(w, TakePreKey(u, pm, newKey)).Of(u), PEER))
  {
    hide Decrypt, DecryptRecord, DistinctIds, SessionFits, PostedOk;
    var st, rec := w.Of(u), Load(w.Of(u), PEER);
    assert Bounded(rec);
    if DecryptPreKeyAt(st, PEER, pm, newKey).1.Ok? {
      hide WorldInv;
      ProcessedIsDistinct(st, rec, pm);
      DecryptKeepsDistinctIds(ProcessPreKey(st, PEER, rec, pm).value.0, pm.message, newKey);
    }
  }

  lemma PostKeepsDistinct(w: World, u: Side, plaintext: Bytes)
    requires DistinctIds(Load(w.Of(u), PEER))
    ensures DistinctIds(Load(Advance(w, Post(u, plaintext)).Of(u), PEER))
  {
    var (st', r) := EncryptAt(w.Of(u), PEER, plaintext);
    if r.Ok? {
      var rec := w.Of(u).sessions[PEER];
      var s' := Encrypt(rec.current.value, plaintext).0;
      MoveToFrontKeepsDistinct(Sessions(rec), 0, s');
      assert Sessions(st'.sessions[PEER]) == [s'] + RemoveAt(Sessions(rec), 0);
    }
  }

  lemma ArchiveKeepsDistinct(rec: Record)
    requires DistinctIds(rec)
    ensures DistinctIds(Archive(rec))
  {
    hide SameId;
    var all, all' := Sessions(rec), Sessions(Archive(rec));
    forall i | 0 <= i < |all'| ensures i < |all| && all'[i] == all[i] {
    }
  }

  lemma BundleKeepsDistinct(w: World, u: Side, b: PreKeyBundle, baseKey: KeyId, sendingKey: KeyId)
    requires WorldInv(w) && DistinctIds(Load(w.Of(u), PEER)) && Enabled(w, Bundle(u, b, baseKey, sendingKey))
    ensures DistinctIds(Load(Advance(w, Bundle(u, b, baseKey, sendingKey)).Of(u), PEER))
  {
    hide DistinctIds, SessionFits;
    AddedSessionIsDistinct(Load(w.Of(u), PEER), InitiatorSession(w.Of(u), b, baseKey, sendingKey));
  }

  lemma TakeKeepsDistinct(w: World, u: Side, m: SignalMessage, newKey: KeyId)
    requires WorldInv(w) && DistinctIds(Load(w.Of(u), PEER))
    ensures DistinctIds(Load(Advance(w, Take(u, m, newKey)).Of(u), PEER))
  {
    hide Decrypt, DecryptRecord, DistinctIds, SessionFits;
    if PEER in w.Of(u).sessions { DecryptKeepsDistinctIds(w.Of(u).sessions[PEER], m, newKey); }
  }

  /** A step leaves the other side's store alone. */
  lemma StepChangesOneSide(w: World, step: WorldStep)
    ensures Advance(w, step).Peer(step.who) == w.Peer(step.who)
  {
    hide EncryptAt, DecryptSignalAt, DecryptPreKeyAt, ProcessBundleAt;
  }

  lemma StepKeepsIdsDistinct(w: World, step: WorldStep)
    requires WorldInv(w) && IdsDistinct(w) && Enabled(w, step) && Ordinary(w, step)
    ensures IdsDistinct(Advance(w, step))
  {
    hide Decrypt, DecryptRecord, Encrypt, DistinctIds;
    StepChangesOneSide(w, step);
    match step
    case Save(_, _, _) =>
    case Bundle(u, b, baseKey, sendingKey) => BundleKeepsDistinct(w, u, b, baseKey, sendingKey);
    case Post(u, plaintext) => PostKeepsDistinct(w, u, plaintext);
    case Take(u, m, newKey) => TakeKeepsDistinct(w, u, m, newKey);
    case TakePreKey(u, pm, newKey) => TakePreKeyKeepsDistinct(w, u, pm, newKey);
    case PutAway(u) => ArchiveKeepsDistinct(Load(w.Of(u), PEER));
  }

  ghost predicate OrdinaryRun(w: World, steps: seq<WorldStep>)
    decreases |steps|
  {
    steps == [] || (Ordinary(w, steps[0]) && OrdinaryRun(Advance(w, steps[0]), steps[1..]))
  }

  /** Runs in which no wrapper of another version repeats a retained base key keep the ids of
      both records distinct. */
  lemma {:induction false} OrdinaryRunKeepsIdsDistinct(w: World, steps: seq<WorldStep>, end: World)
    requires WorldInv(w) && IdsDistinct(w) && Run(w, steps, end) && OrdinaryRun(w, steps)
    ensures IdsDistinct(end)
    decreases |steps|
  {
    if steps != [] {
      StepKeepsWorldInv(w, steps[0]);
      StepKeepsIdsDistinct(w, steps[0]);
      OrdinaryRunKeepsIdsDistinct(Advance(w, steps[0]), steps[1..], end);
    }
  }

  function NewWorld(left: KeyId, right: KeyId): World { World(NewStore(left), NewStore(right), map[], {}) }

  /** In every run of two new stores, at any moment, any message that either of them sent: at
      either side no session of another base key ends the search, the search succeeds exactly
      when a session of the message's base key is the first of that base key to stop it and
      accepts, and the acceptor becomes current.  If the ids of the record are distinct, as after
      every ordinary run, the search succeeds exactly when the one session with the message's
      base key accepts. */
  lemma EveryMessageFindsItsSession(left: KeyId, right: KeyId, steps: seq<WorldStep>, w: World, u: Side, p: Posted,
                                    newKey: KeyId)
    requires Run(NewWorld(left, right), steps, w)
    requires p in w.sent && PEER in w.Of(u).sessions && w.Of(u).sessions[PEER].current.Some?
    ensures var rec := w.Of(u).sessions[PEER];
      && (forall i :: 0 <= i < |Sessions(rec)| && Sessions(rec)[i].aliceBaseKey != Some(p.baseKey) ==>
           !Stops(Sessions(rec)[i], p.message, newKey))
      && (DecryptRecord(rec, p.message, newKey).1.Ok? <==>
          exists i :: FirstToAccept(Sessions(rec), i, p.baseKey, p.message, newKey))
      && (DecryptRecord(rec, p.message, newKey).1.Ok? ==>
          DecryptRecord(rec, p.message, newKey).0.current.Some?
          && DecryptRecord(rec, p.message, newKey).0.current.value.aliceBaseKey == Some(p.baseKey))
      && (DistinctIds(rec) ==>
          forall i :: 0 <= i < |Sessions(rec)| && Sessions(rec)[i].aliceBaseKey == Some(p.baseKey) ==>
            (DecryptRecord(rec, p.message, newKey).1.Ok? <==> Decrypt(Sessions(rec)[i], p.message, newKey).1.Ok?))
    ensures OrdinaryRun(NewWorld(left, right), steps) ==> DistinctIds(w.Of(u).sessions[PEER])
  {
    hide Decrypt, DecryptRecord;
    RunKeepsWorldInv(NewWorld(left, right), steps, w);
    var rec := w.Of(u).sessions[PEER];
    MessageFindsItsSession(rec, p, newKey, w.Ids(), w.owner);
    if OrdinaryRun(NewWorld(left, right), steps) {
      OrdinaryRunKeepsIdsDistinct(NewWorld(left, right), steps, w);
    }
    if DistinctIds(rec) {
      forall i | 0 <= i < |Sessions(rec)| && Sessions(rec)[i].aliceBaseKey == Some(p.baseKey)
        ensures DecryptRecord(rec, p.message, newKey).1.Ok? <==> Decrypt(Sessions(rec)[i], p.message, newKey).1.Ok? {
        OnlySessionDecides(rec, p, newKey, w.Ids(), w.owner, i);
      }
    }
  }

  lemma OnlySessionDecides(rec: Record, p: Posted, newKey: KeyId, ids: set<KeyId>, owner: map<KeyId, KeyId>, i: nat)
    requires RecordFits(rec, ids, owner) && DistinctIds(rec)
    requires i < |Sessions(rec)| && Sessions(rec)[i].aliceBaseKey == Some(p.baseKey)
    ensures (exists j :: FirstToAccept(Sessions(rec), j, p.baseKey, p.message, newKey)) <==>
      Decrypt(Sessions(rec)[i], p.message, newKey).1.Ok?
  {
    hide Decrypt, DecryptRecord, SessionFits, DistinctIds;
    var all := Sessions(rec);
    forall j | 0 <= j < |all| && all[j].aliceBaseKey == Some(p.baseKey) ensures j == i {
      OneSessionPerBase(rec, ids, owner, i, j);
    }
    if Decrypt(all[i], p.message, newKey).1.Ok? {
      assert FirstToAccept(all, i, p.baseKey, p.message, newKey);
    }
  }
}
