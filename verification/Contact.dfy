/** How the pair of `Delivery` starts, when the two ends meet, and what a second start does. */
module Contact {
  import opened Prelude
  import opened Crypto
  import opened Ratchet
  import opened Session
  import opened SkippedKeys
  import opened ReceiverChains
  import opened Origins
  import opened Lockstep
  import opened Runs
  import opened X3dh
  import opened Record
  import opened Store
  import opened Routing
  import opened Handshake
  import opened Delivery
  import W = World

  // ------------------------------------------------------------------------- set-up

  ghost predicate NoSessionOf(rec: Record, base: KeyId) {
    forall i :: 0 <= i < |Sessions(rec)| ==> Sessions(rec)[i].aliceBaseKey != Some(base)
  }

  /** A generated base key occurs nowhere yet. */
  ghost predicate NewBase(w: W.World, base: KeyId) {
    && (forall u: W.Side :: NoSessionOf(Load(w.Of(u), W.PEER), base))
    && (forall q :: q in w.sent ==> q.baseKey != base)
  }

  function StartOf(w: W.World, u: W.Side, b: PreKeyBundle, base: KeyId, sendingKey: KeyId): Paired {
    var h := InitialHistory(InitiatorParameters(w.Of(u), b, base), sendingKey);
    Paired(W.Advance(w, W.Bundle(u, b, base, sendingKey)), u, base, false,
           System(InitiatorSession(w.Of(u), b, base, sendingKey), Pristine(h, base), h))
  }

  lemma StartIsLockstep(st: Store, b: PreKeyBundle, base: KeyId, sendingKey: KeyId)
    requires sendingKey != b.signedPreKey
    ensures var a := InitiatorParameters(st, b, base);
      var h := InitialHistory(a, sendingKey);
      Inv(System(InitiatorSession(st, b, base, sendingKey), Pristine(h, base), h)) && Anchored(h, base)
  {
    var a := InitiatorParameters(st, b, base);
    var p := BobParameters(b.identityKey, b.signedPreKey, a.theirOneTimePreKey, b.signedPreKey, st.identity, base);
    var h := InitialHistory(a, sendingKey);
    SecretsAgreeIff(a, p);
    InitialisersStartLockstep(a, p, sendingKey);
    assert SessionOk(AliceSession(a, sendingKey), h, Initiator);
    assert SessionOk(BobSession(p), h, Responder);
    assert Pristine(h, base) == BobSession(p).(aliceBaseKey := Some(base));
  }

  lemma StartIsHeld(rec: Record, s: Session, base: KeyId, x: seq<Dh>)
    requires NoSessionOf(rec, base)
    ensures Holds(rec, None, base, x)
    ensures s.aliceBaseKey == Some(base) && RootOrigin(s.root) == x ==> Holds(Promote(rec, s), Some(s), base, x)
  {
    assert HeldAt(rec, |Sessions(rec)|, None, base, x);
    if s.aliceBaseKey == Some(base) && RootOrigin(s.root) == x { StartHolds(rec, s, base, x); }
  }

  /** Processing any valid bundle of the peer starts a pair, in a world with any number of other
      sessions: from then on `RunKeepsPair` applies. */
  lemma BundleStartsPair(w: W.World, u: W.Side, b: PreKeyBundle, base: KeyId, sendingKey: KeyId)
    requires W.WorldInv(w) && W.Enabled(w, W.Bundle(u, b, base, sendingKey)) && NewBase(w, base)
    requires ProcessBundleAt(w.Of(u), W.PEER, b, base, sendingKey).1.Ok? && sendingKey != b.signedPreKey
    ensures PairInv(StartOf(w, u, b, base, sendingKey))
  {
    hide W.WorldInv, Inv, Anchored, Holds, InitialHistory, NoSessionOf, Pristine;
    var p := StartOf(w, u, b, base, sendingKey);
    W.StepKeepsWorldInv(w, W.Bundle(u, b, base, sendingKey));
    StartIsLockstep(w.Of(u), b, base, sendingKey);
    forall v: W.Side ensures EndOk(p, v) { StartedEnd(w, u, b, base, sendingKey, v); }
  }

  lemma StartedEnd(w: W.World, u: W.Side, b: PreKeyBundle, base: KeyId, sendingKey: KeyId, v: W.Side)
    requires W.Enabled(w, W.Bundle(u, b, base, sendingKey)) && NewBase(w, base)
    requires ProcessBundleAt(w.Of(u), W.PEER, b, base, sendingKey).1.Ok?
    ensures EndOk(StartOf(w, u, b, base, sendingKey), v)
  {
    hide Holds, NoSessionOf;
    var s := InitiatorSession(w.Of(u), b, base, sendingKey);
    assert RootOrigin(s.root) == AliceSecrets(InitiatorParameters(w.Of(u), b, base));
    StartIsHeld(Load(w.Of(v), W.PEER), s, base, RootOrigin(s.root));
  }

  // ------------------------------------------------------------------ first contact

  /** Before the ends met: a message of the pair, in whatever wrapper, is decrypted by the
      responder's store if and only if the wrapper's identity is trusted, the wrapper makes the
      store start a session with the pair's secrets, and the message is deliverable to it. */
  lemma FirstContactIff(p: Paired, v: W.Side, pm: PreKeySignalMessage, e: nat, i: nat, k: KeyId)
    requires PairInv(p) && !p.met && v != p.starter
    requires e < |p.sys.past.keys| && i < |p.sys.past.ledgers[e].sent| && Speaker(e) == Initiator
    requires pm.message == MessageAt(p.sys.past, e, i) && Posted(pm.message, p.base) in p.world.sent
    ensures var text := DecryptPreKeyAt(p.world.Of(v), W.PEER, pm, k).1;
      && (text.Ok? <==> && Trusted(p.world.Of(v), W.PEER, pm.identityKey) && StartsEnd(p, W.TakePreKey(v, pm, k))
                        && Deliverable(p.sys.past, Responder, e, i))
      && (text.Ok? ==> text == Ok(p.sys.past.ledgers[e].sent[i].plaintext))
  {
    hide Decrypt, DecryptRecord, MessageAt, Deliverable, Inv, Recorded, PostedOk, Anchored, RecordFits;
    var h, st, rec := p.sys.past, p.world.Of(v), p.RecordOf(v);
    PairIsValid(p);
    DeliveryIff(p.sys, Responder, e, i, k);
    SearchMeetsPair(p, v, Posted(pm.message, p.base), k);
    if !HasSession(rec, pm.version, pm.baseKey) && ResponderSession(st, pm).Ok? && Trusted(st, W.PEER, pm.identityKey) {
      StartedSearch(p, v, pm, k);
    }
  }

  /** What the record with the newly started session answers. */
  lemma StartedSearch(p: Paired, v: W.Side, pm: PreKeySignalMessage, k: KeyId)
    requires PairInv(p) && !p.met && v != p.starter && Posted(pm.message, p.base) in p.world.sent
    requires !HasSession(p.RecordOf(v), pm.version, pm.baseKey) && ResponderSession(p.world.Of(v), pm).Ok?
    requires Trusted(p.world.Of(v), W.PEER, pm.identityKey)
    ensures var rec1 := ProcessPreKey(p.world.Of(v), W.PEER, p.RecordOf(v), pm).value.0;
      var r := DecryptRecord(rec1, pm.message, k).1;
      && (r.Ok? <==> StartsEnd(p, W.TakePreKey(v, pm, k)) && Decrypt(p.sys.responder, pm.message, k).1.Ok?)
      && (r.Ok? ==> r == Decrypt(p.sys.responder, pm.message, k).1)
  {
    hide Decrypt, DecryptRecord, Inv, Recorded, SessionFits, Holds, RootOrigin, Anchored;
    var st, rec, x := p.world.Of(v), p.RecordOf(v), p.sys.past.secrets;
    var t, q := ResponderSession(st, pm).value, Posted(pm.message, p.base);
    assert EndOk(p, v);
    W.ProcessedRecordFits(p.world, v, pm);
    PromotedSessions(rec, t);
    RecordedOrigin(pm.message, p.sys.past);
    if StartsEnd(p, W.TakePreKey(v, pm, k)) {
      StartedIsPristine(p.sys.past, p.base, st, pm);
      StartHolds(rec, t, p.base, x);
      SearchMeetsEnd(Promote(rec, t), Some(t), q, x, k, p.world.Ids(), p.world.owner);
    } else {
      PromoteHolds(rec, None, t, p.base, x);
      SearchMeetsEnd(Promote(rec, t), None, q, x, k, p.world.Ids(), p.world.owner);
    }
  }

  /** The secrets of a new base key belong to no retained session. */
  lemma NewSecretsAreForeign(w: W.World, u: W.Side, v: W.Side, b: PreKeyBundle, base: KeyId, sendingKey: KeyId)
    requires W.WorldInv(w) && W.Enabled(w, W.Bundle(u, b, base, sendingKey)) && NewBase(w, base)
    ensures AllForeign(Load(w.Of(v), W.PEER), AliceSecrets(InitiatorParameters(w.Of(u), b, base)))
  {
    var rec, x := Load(w.Of(v), W.PEER), AliceSecrets(InitiatorParameters(w.Of(u), b, base));
    assert NoSessionOf(rec, base);
    assert x[1] == Agree(b.identityKey, base) && Names(x, base, w.Ids());
    forall i | 0 <= i < |Sessions(rec)| ensures Foreign(Sessions(rec)[i], x) {
      var t := Sessions(rec)[i];
      assert SessionFits(t, w.Ids(), w.owner);
      if RootOrigin(t.root) == x { NamesOneBase(x, base, t.aliceBaseKey.value, w.Ids()); }
    }
  }

  /** Set-up between two users with any sessions: the first message for a bundle whose keys the
      other user holds is decrypted to its plaintext if and only if the bundle has no one-time
      pre-key or one whose id is not 0. */
  lemma SetUpIff(w: W.World, u: W.Side, v: W.Side, b: PreKeyBundle, base: KeyId, sendingKey: KeyId, plaintext: Bytes,
                 k: KeyId)
    requires W.WorldInv(w) && W.Enabled(w, W.Bundle(u, b, base, sendingKey)) && NewBase(w, base)
    requires BundleOf(b, w.Of(v)) && Trusted(w.Of(v), W.PEER, w.Of(u).identity)
    requires sendingKey != b.signedPreKey && k != b.signedPreKey && k != sendingKey
    ensures var wire := FirstMessage(w.Of(u), b, base, sendingKey, plaintext);
      && wire.PreKey?
      && (DecryptPreKeyAt(w.Of(v), W.PEER, wire.preKey, k).1 == Ok(plaintext) <==> UsableOneTimeKey(b))
      && (DecryptPreKeyAt(w.Of(v), W.PEER, wire.preKey, k).1.Err? <==> !UsableOneTimeKey(b))
  {
    hide W.WorldInv, DecryptPreKeyAt, FirstMessage, BundleOf, AllForeign, UsableOneTimeKey;
    var rec := Load(w.Of(v), W.PEER);
    NewSecretsAreForeign(w, u, v, b, base, sendingKey);
    assert NoSessionOf(rec, base);
    HasSessionIsMembership(rec, CURRENT_VERSION, base);
    RoundTripIff(w.Of(u), w.Of(v), W.PEER, b, base, sendingKey, plaintext, k);
  }

  // ---------------------------------------------------------------- a second start

  /** The history as it was before any message arrived. */
  function Outset(h: History): History
    requires |h.keys| >= 2 && |h.ledgers| >= 2
  {
    h.(keys := h.keys[..2], ledgers := [EmptyLedger, Ledger(h.ledgers[1].sent, 0, {}, 0)])
  }

  lemma OutsetIsLockstep(h: History, base: KeyId, i: nat)
    requires h.Valid() && i < |h.ledgers[1].sent|
    ensures Outset(h).Valid() && SessionOk(Pristine(h, base), Outset(h), Responder) && Epoch(Outset(h), Responder) == 0
    ensures MessageAt(Outset(h), 1, i) == MessageAt(h, 1, i)
  {
    assert h.keys == h.keys[..2] + h.keys[2..];
    EpochPrefix(h.secrets, h.keys[..2], h.keys[2..], 1);
  }

  /** The chain on which a responder that started over replies. */
  function ForkedChain(h: History, k: KeyId): ChainKey
    requires |h.keys| >= 2
  {
    ChainKey(CURRENT_VERSION, RatchetChain(CURRENT_VERSION, RootAt(h.secrets, h.keys, 1), Agree(h.keys[1], k)), 0)
  }

  /** The first message on that chain. */
  function ForkedReply(h: History, k: KeyId, previous: nat, plaintext: Bytes): SignalMessage
    requires |h.keys| >= 2
  {
    Seal(KeysOf(ForkedChain(h, k)), CURRENT_VERSION, k, 0, previous, plaintext, h.responderId, h.initiatorId)
  }

  /** A responder that starts over opens the initiator's first chain again and then sends on a
      chain of its own. */
  lemma PristineOpens(h: History, base: KeyId, i: nat, k: KeyId)
    requires h.Valid() && i < |h.ledgers[1].sent| && i <= MAX_FORWARD_JUMPS
    ensures var (s, r) := Decrypt(Pristine(h, base), MessageAt(h, 1, i), k);
      && r == Ok(h.ledgers[1].sent[i].plaintext)
      && s.sender == Some(SenderChain(k, ForkedChain(h, k)))
      && s.Version() == CURRENT_VERSION && s.pending.None? && s.aliceBaseKey == Some(base)
      && s.localIdentity == h.responderId && s.remoteIdentity == Some(h.initiatorId)
  {
    hide ChainOk;
    var m, s := MessageAt(h, 1, i), Pristine(h, base);
    OutsetIsLockstep(h, base, i);
    NewChainAttempt(s, Outset(h), Responder, m, k);
    assert OpenedChain(Outset(h), Responder, h.keys[1]) == Outset(h).Chain(1);
    assert RootAt(h.secrets, h.keys, 1) == CreateChain(CURRENT_VERSION, s.root, h.keys[1], h.keys[0]).0 by {
      assert RootAt(h.secrets, h.keys, 0) == InitialRoot(h.secrets);
    }
  }

  /** An initiator opens what is sent on such a chain if and only if it has not received any reply
      of the first responder session. */
  lemma ForkedReplyIff(s: Session, h: History, k: KeyId, previous: nat, plaintext: Bytes, k': KeyId)
    requires h.Valid() && SessionOk(s, h, Initiator) && k !in h.keys
    ensures var m := ForkedReply(h, k, previous, plaintext);
      && (Decrypt(s, m, k').1.Ok? <==> Epoch(h, Initiator) == 1)
      && (Decrypt(s, m, k').1.Ok? ==> Decrypt(s, m, k').1 == Ok(plaintext))
  {
    var m := ForkedReply(h, k, previous, plaintext);
    var n := Epoch(h, Initiator);
    forall j | 0 <= j < |s.receivers| ensures s.receivers[j].ratchetKey != k {
      assert ChainOk(s.receivers[j], h, SlotEpoch(n, j));
    }
    hide ChainOk, Decrypt;
    NewChainAttempt(s, h, Initiator, m, k');
    RootAtFacts(h.secrets, h.keys, 1);
    RootAtFacts(h.secrets, h.keys, n);
    AgreeInjective(h.keys[1], k, k);
  }

  /** The ends have met, and a wrapper around a message of the initiator's first chain makes the
      responder's store start the session again. */
  ghost predicate Restart(p: Paired, v: W.Side, pm: PreKeySignalMessage, i: nat, k: KeyId) {
    && PairInv(p) && p.met && v != p.starter
    && W.Enabled(p.world, W.TakePreKey(v, pm, k)) && k !in p.sys.past.keys
    && StartsEnd(p, W.TakePreKey(v, pm, k)) && Trusted(p.world.Of(v), W.PEER, pm.identityKey)
    && i < |p.sys.past.ledgers[1].sent| && i <= MAX_FORWARD_JUMPS && pm.message == MessageAt(p.sys.past, 1, i)
  }

  /** Once the ends have met, a wrapper that names the pair's keys restarts the session if and only
      if it shows another version. */
  lemma RestartNeedsOtherVersion(p: Paired, v: W.Side, pm: PreKeySignalMessage, k: KeyId)
    requires PairInv(p) && p.met && v != p.starter && ResponderSession(p.world.Of(v), pm).Ok?
    requires RootOrigin(ResponderSession(p.world.Of(v), pm).value.root) == p.sys.past.secrets
    ensures StartsEnd(p, W.TakePreKey(v, pm, k)) <==> pm.version != CURRENT_VERSION
  {
    hide Inv, Recorded, Anchored, RootOrigin, Holds;
    var rec := p.RecordOf(v);
    assert EndOk(p, v);
    StartedIsPristine(p.sys.past, p.base, p.world.Of(v), pm);
    EndIsListed(p, v);
    HasSessionIsMembership(rec, pm.version, pm.baseKey);
    assert forall i :: 0 <= i < |Sessions(rec)| ==> SessionFits(Sessions(rec)[i], p.world.Ids(), p.world.owner);
  }

  /** The restarted session opens the message and becomes current. */
  lemma RestartIsAccepted(p: Paired, v: W.Side, pm: PreKeySignalMessage, i: nat, k: KeyId)
    requires Restart(p, v, pm, i, k)
    ensures var (s, r) := Decrypt(Pristine(p.sys.past, p.base), pm.message, k);
      var (st, text) := DecryptPreKeyAt(p.world.Of(v), W.PEER, pm, k);
      && text == r == Ok(p.sys.past.ledgers[1].sent[i].plaintext)
      && W.PEER in st.sessions && st.sessions[W.PEER].current == Some(s)
      && W.PEER in st.known && st.known[W.PEER] == p.sys.past.initiatorId
  {
    hide Decrypt, Inv, W.WorldInv, Recorded, MessageAt, Anchored, RootOrigin;
    PairIsValid(p);
    assert EndOk(p, v);
    StartedIsPristine(p.sys.past, p.base, p.world.Of(v), pm);
    PristineOpens(p.sys.past, p.base, i, k);
  }

  /** What the responder sends next, on the restarted session. */
  lemma RestartedReply(p: Paired, v: W.Side, pm: PreKeySignalMessage, i: nat, k: KeyId, plaintext: Bytes)
    returns (previous: nat)
    requires Restart(p, v, pm, i, k)
    ensures var wire := EncryptAt(DecryptPreKeyAt(p.world.Of(v), W.PEER, pm, k).0, W.PEER, plaintext).1;
      var h := p.sys.past;
      wire == Ok(Whisper(ForkedReply(h, k, previous, plaintext)))
  {
    hide Decrypt, DecryptPreKeyAt, Inv, W.WorldInv, Recorded, MessageAt, Anchored, StartsEnd, Pristine, W.Enabled;
    PairIsValid(p);
    RestartIsAccepted(p, v, pm, i, k);
    PristineOpens(p.sys.past, p.base, i, k);
    previous := Decrypt(Pristine(p.sys.past, p.base), pm.message, k).0.previousCounter;
  }

  /** Where lockstep ends.  A replayed wrapper restarts the responder's session; the next message
      that the responder sends is then decrypted by the initiator's store if and only if the
      initiator has not yet received a reply of the first responder session (and has a current
      session and trusts the responder).  After one exchange it is lost. */
  lemma RestartStrandsReplies(p: Paired, v: W.Side, pm: PreKeySignalMessage, i: nat, k: KeyId, plaintext: Bytes,
                              k': KeyId)
    requires Restart(p, v, pm, i, k)
    ensures var st1 := DecryptPreKeyAt(p.world.Of(v), W.PEER, pm, k).0;
      var wire := EncryptAt(st1, W.PEER, plaintext).1;
      && DecryptPreKeyAt(p.world.Of(v), W.PEER, pm, k).1.Ok? && wire.Ok?
      && var text := DecryptAt(p.world.Of(p.starter), wire.value, k').1;
         && (text.Ok? <==> && Epoch(p.sys.past, Initiator) == 1 && p.RecordOf(p.starter).current.Some?
                           && Trusted(p.world.Of(p.starter), W.PEER, p.sys.past.responderId))
         && (text.Ok? ==> text == Ok(plaintext))
  {
    hide Decrypt, DecryptRecord, DecryptPreKeyAt, EncryptAt, W.WorldInv, Recorded, MessageAt, StartsEnd, Pristine,
         W.Enabled, Holds, Anchored, ForkedChain;
    var u, h := p.starter, p.sys.past;
    PairIsValid(p);
    var previous := RestartedReply(p, v, pm, i, k, plaintext);
    RestartIsAccepted(p, v, pm, i, k);
    ForkedReplyIff(p.sys.initiator, h, k, previous, plaintext, k');
    var m := ForkedReply(h, k, previous, plaintext);
    RestartedSearch(p, v, pm, i, k, plaintext, m, k');
    PeerIdentity(p, u, m, k');
  }

  lemma RestartedSearch(p: Paired, v: W.Side, pm: PreKeySignalMessage, i: nat, k: KeyId, plaintext: Bytes,
                        m: SignalMessage, k': KeyId)
    requires Restart(p, v, pm, i, k) && DecryptPreKeyAt(p.world.Of(v), W.PEER, pm, k).1.Ok?
    requires EncryptAt(DecryptPreKeyAt(p.world.Of(v), W.PEER, pm, k).0, W.PEER, plaintext).1 == Ok(Whisper(m))
    requires m.tag.Hmac? && m.tag.key == KeysOf(ForkedChain(p.sys.past, k)).macKey
    ensures var rec, s := p.RecordOf(p.starter), p.sys.initiator;
      var (rec', r) := DecryptRecord(rec, m, k');
      && (r.Ok? <==> rec.current.Some? && Decrypt(s, m, k').1.Ok?)
      && (r.Ok? ==> r == Decrypt(s, m, k').1 && rec'.current == Some(Decrypt(s, m, k').0))
  {
    hide Decrypt, DecryptRecord, DecryptPreKeyAt, EncryptAt, W.WorldInv, Recorded, MessageAt, StartsEnd, W.Enabled,
         Holds, Anchored, W.Advance;
    var u, h := p.starter, p.sys.past;
    var w1 := W.Advance(p.world, W.TakePreKey(v, pm, k));
    var w2 := W.Advance(w1, W.Post(v, plaintext));
    PairIsValid(p);
    W.StepKeepsWorldInv(p.world, W.TakePreKey(v, pm, k));
    RestartIsAccepted(p, v, pm, i, k);
    PristineOpens(h, p.base, i, k);
    AfterRestart(p.world, v, pm, k, plaintext, m, p.base);
    assert EndOk(p, u);
    RootAtFacts(h.secrets, h.keys, 1);
    StarterFits(w2, u, Posted(m, p.base));
    SearchMeetsEnd(p.RecordOf(u), p.End(u), Posted(m, p.base), h.secrets, k', w2.Ids(), w2.owner);
  }

  lemma StarterFits(w: W.World, u: W.Side, q: Posted)
    requires W.WorldInv(w) && q in w.sent
    ensures RecordFits(Load(w.Of(u), W.PEER), w.Ids(), w.owner) && PostedOk(q, w.Ids(), w.owner)
  {
    hide SessionFits, PostedOk;
  }

  /** The world after the restart and the reply. */
  lemma AfterRestart(w: W.World, v: W.Side, pm: PreKeySignalMessage, k: KeyId, plaintext: Bytes, m: SignalMessage,
                     base: KeyId)
    requires W.WorldInv(W.Advance(w, W.TakePreKey(v, pm, k)))
    requires DecryptPreKeyAt(w.Of(v), W.PEER, pm, k).1.Ok?
    requires W.CurrentBase(DecryptPreKeyAt(w.Of(v), W.PEER, pm, k).0) == Some(base)
    requires EncryptAt(DecryptPreKeyAt(w.Of(v), W.PEER, pm, k).0, W.PEER, plaintext).1 == Ok(Whisper(m))
    ensures var w2 := W.Advance(W.Advance(w, W.TakePreKey(v, pm, k)), W.Post(v, plaintext));
      W.WorldInv(w2) && Posted(m, base) in w2.sent && w2.Peer(v) == w.Peer(v)
  {
    hide W.WorldInv, DecryptPreKeyAt, EncryptAt;
    W.StepKeepsWorldInv(W.Advance(w, W.TakePreKey(v, pm, k)), W.Post(v, plaintext));
  }

  // ------------------------------------------------------------------------ recovery

  /** The history in which the restarted session is in lockstep. */
  function ForkHistory(h: History, i: nat, k: KeyId): History
    requires |h.keys| >= 2 && |h.ledgers| >= 2
  {
    Ratcheted(Received(Outset(h), 1, i, Window(0, [])), k)
  }

  lemma ForkIsLockstep(h: History, base: KeyId, i: nat, k: KeyId)
    requires h.Valid() && i < |h.ledgers[1].sent| && i <= MAX_FORWARD_JUMPS && k !in h.keys
    ensures ForkHistory(h, i, k).Valid() && Epoch(ForkHistory(h, i, k), Responder) == 2
    ensures SessionOk(Decrypt(Pristine(h, base), MessageAt(h, 1, i), k).0, ForkHistory(h, i, k), Responder)
  {
    hide Decrypt, SessionOk, Network;
    OutsetIsLockstep(h, base, i);
    PristineOpens(h, base, i, k);
    HonestMessageTravels(Outset(h), 1, i);
    EpochOfKey(Outset(h), 1);
    AcceptorAfterRatchet(Pristine(h, base), Outset(h), Responder, MessageAt(h, 1, i), k);
    assert AfterAccept(Outset(h), Pristine(h, base), MessageAt(h, 1, i), k) == ForkHistory(h, i, k);
  }

  /** The restarted session and a message of the initiator's first chain. */
  lemma ForkOnFirstChain(h: History, base: KeyId, i: nat, k: KeyId, j: nat, k': KeyId)
    requires h.Valid() && i < |h.ledgers[1].sent| && i <= MAX_FORWARD_JUMPS && k !in h.keys
    requires j < |h.ledgers[1].sent|
    ensures Stops(Decrypt(Pristine(h, base), MessageAt(h, 1, i), k).0, MessageAt(h, 1, j), k') <==>
      j <= i + 1 + MAX_FORWARD_JUMPS
  {
    hide Decrypt, PreviousCounter;
    var f, fh := Decrypt(Pristine(h, base), MessageAt(h, 1, i), k).0, ForkHistory(h, i, k);
    ForkIsLockstep(h, base, i, k);
    EpochLookup(f, fh, Responder, 1);
    KnownChainAttempt(f, fh, Responder, MessageAt(h, 1, j), k', 1);
    var w := WindowOf(f.receivers[FindChain(f.receivers, h.keys[1])]);
    AcceptanceCondition(w, fh.ledgers[1].floor, fh.ledgers[1].taken, j);
    FirstChainStays(h, i, k);
  }

  lemma FirstChainStays(h: History, i: nat, k: KeyId)
    requires h.Valid()
    ensures ForkHistory(h, i, k).Chain(1) == h.Chain(1)
    ensures RootAt(h.secrets, ForkHistory(h, i, k).keys, 1) == RootAt(h.secrets, h.keys, 1)
  {
    assert h.keys == h.keys[..2] + h.keys[2..];
    EpochPrefix(h.secrets, h.keys[..2], h.keys[2..], 1);
    EpochPrefix(h.secrets, h.keys[..2], [k], 1);
  }

  /** The restarted session and a message of a later chain of the initiator. */
  lemma ForkOnLaterChain(h: History, base: KeyId, i: nat, k: KeyId, e: nat, j: nat, k': KeyId)
    requires h.Valid() && i < |h.ledgers[1].sent| && i <= MAX_FORWARD_JUMPS && k !in h.keys
    requires 3 <= e < |h.keys| && j < |h.ledgers[e].sent|
    ensures !Stops(Decrypt(Pristine(h, base), MessageAt(h, 1, i), k).0, MessageAt(h, e, j), k')
  {
    hide Decrypt, PreviousCounter;
    var f, fh := Decrypt(Pristine(h, base), MessageAt(h, 1, i), k).0, ForkHistory(h, i, k);
    ForkIsLockstep(h, base, i, k);
    forall a | 0 <= a < |f.receivers| ensures f.receivers[a].ratchetKey != h.keys[e] {
      assert ChainOk(f.receivers[a], fh, SlotEpoch(2, a));
    }
    NewChainAttempt(f, fh, Responder, MessageAt(h, e, j), k');
    ForkedRootDiffers(h, i, k, e - 1);
    NthFacts(OpenedChain(fh, Responder, h.keys[e]), j);
    NthFacts(h.Chain(e), j);
  }

  /** No later root of the pair is the root of the restarted session. */
  lemma ForkedRootDiffers(h: History, i: nat, k: KeyId, n: nat)
    requires h.Valid() && k !in h.keys && 2 <= n < |h.keys|
    ensures RootAt(h.secrets, ForkHistory(h, i, k).keys, 2) != RootAt(h.secrets, h.keys, n)
  {
    FirstChainStays(h, i, k);
    RootAtFacts(h.secrets, h.keys, n);
    RootAtFacts(h.secrets, ForkHistory(h, i, k).keys, 2);
    AgreeInjective(h.keys[1], k, h.keys[2]);
    AgreeInjective(k, h.keys[1], h.keys[1]);
    AgreeInjective(h.keys[2], h.keys[1], h.keys[1]);
  }

  /** Recovery after a restart.  A message of the initiator, sent before or after it, is answered by
      the restarted session if it is one of the first chain in that session's reach.  Any other one
      is decrypted by the responder's store exactly when the first responder session is still
      archived and the message is deliverable to it, and then that session is current again. */
  lemma RestartRecoveryIff(p: Paired, v: W.Side, pm: PreKeySignalMessage, i: nat, k: KeyId, e: nat, j: nat, k': KeyId)
    requires Restart(p, v, pm, i, k)
    requires e < |p.sys.past.keys| && Speaker(e) == Initiator && j < |p.sys.past.ledgers[e].sent|
    requires Posted(MessageAt(p.sys.past, e, j), p.base) in p.world.sent
    ensures var h, st1 := p.sys.past, DecryptPreKeyAt(p.world.Of(v), W.PEER, pm, k).0;
      var m, f := MessageAt(h, e, j), Decrypt(Pristine(h, p.base), pm.message, k).0;
      var (st2, text) := DecryptSignalAt(st1, W.PEER, m, k');
      if e == 1 && j <= i + 1 + MAX_FORWARD_JUMPS then text == Decrypt(f, m, k').1
      else
        && (text.Ok? <==> p.sys.responder in Archive(p.RecordOf(v)).previous && Deliverable(h, Responder, e, j))
        && (text.Ok? ==> && text == Ok(h.ledgers[e].sent[j].plaintext) && W.PEER in st2.sessions
                         && st2.sessions[W.PEER].current == Some(Decrypt(p.sys.responder, m, k').0))
  {
    hide Decrypt, DecryptRecord, DecryptPreKeyAt, W.WorldInv, Inv, Recorded, MessageAt, StartsEnd, Pristine,
         Deliverable,
         Holds, Anchored, W.Enabled;
    PairIsValid(p);
    var h, st1, m := p.sys.past, DecryptPreKeyAt(p.world.Of(v), W.PEER, pm, k).0, MessageAt(p.sys.past, e, j);
    RestartIsAccepted(p, v, pm, i, k);
    RestartedRecord(p, v, pm, i, k);
    var rec := st1.sessions[W.PEER];
    var f := rec.current.value;
    DecryptKeepsIdentity(f, m, k');
    PristineOpens(h, p.base, i, k);
    if e == 1 && j <= i + 1 + MAX_FORWARD_JUMPS {
      ForkOnFirstChain(h, p.base, i, k, j, k');
      FrontStops(rec, m, k');
    } else {
      if e == 1 { ForkOnFirstChain(h, p.base, i, k, j, k'); } else { ForkOnLaterChain(h, p.base, i, k, e, j, k'); }
      DeliveryIff(p.sys, Responder, e, j, k');
      SearchBehindFork(p, v, f, Posted(m, p.base), k');
      PeerIdentity(p, v, m, k');
    }
  }

  lemma FrontStops(rec: Record, m: SignalMessage, k: KeyId)
    requires rec.current.Some? && Stops(rec.current.value, m, k)
    ensures DecryptRecord(rec, m, k).1 == Decrypt(rec.current.value, m, k).1
    ensures DecryptRecord(rec, m, k).1.Ok? ==>
      DecryptRecord(rec, m, k).0.current == Some(Decrypt(rec.current.value, m, k).0)
  {
    hide Decrypt;
  }

  /** The record after the restart: the restarted session, and behind it what was there. */
  lemma RestartedRecord(p: Paired, v: W.Side, pm: PreKeySignalMessage, i: nat, k: KeyId)
    requires Restart(p, v, pm, i, k)
    ensures var st1 := DecryptPreKeyAt(p.world.Of(v), W.PEER, pm, k).0;
      && W.PEER in st1.sessions
      && st1.sessions[W.PEER]
         == Record(Some(Decrypt(Pristine(p.sys.past, p.base), pm.message, k).0), Archive(p.RecordOf(v)).previous)
  {
    hide Decrypt, Inv, W.WorldInv, Recorded, MessageAt, Anchored, RootOrigin;
    PairIsValid(p);
    assert EndOk(p, v);
    StartedIsPristine(p.sys.past, p.base, p.world.Of(v), pm);
    PristineOpens(p.sys.past, p.base, i, k);
  }

  /** Behind a session that does not stop the search, the end decides if it is still there. */
  lemma SearchBehindFork(p: Paired, v: W.Side, f: Session, q: Posted, k: KeyId)
    requires PairInv(p) && p.met && v != p.starter && q in p.world.sent && q.baseKey == p.base
      && !Stops(f, q.message, k)
    ensures var rec, s := Record(Some(f), Archive(p.RecordOf(v)).previous), p.sys.responder;
      var (rec', r) := DecryptRecord(rec, q.message, k);
      && (r.Ok? <==> s in rec.previous && Decrypt(s, q.message, k).1.Ok?)
      && (r.Ok? ==> r == Decrypt(s, q.message, k).1 && rec'.current == Some(Decrypt(s, q.message, k).0))
  {
    hide Decrypt, DecryptRecord, SessionFits, Inv, Recorded, Anchored, RootOrigin, ChainOrigin, PostedOk, Holds, HeldAt;
    var before, x, s := p.RecordOf(v), p.sys.past.secrets, p.sys.responder;
    var rec := Record(Some(f), Archive(before).previous);
    assert EndOk(p, v);
    var i := PlaceOf(before, Some(s), p.base, x);
    var old', all := Sessions(before), Sessions(rec);
    assert all == [f] + old'[..|rec.previous|] by { assert rec.previous == old'[..|rec.previous|]; }
    RecordedOrigin(q.message, p.sys.past);
    forall j | 0 <= j < |old'| && j != i ensures !Stops(old'[j], q.message, k) {
      OthersDoNotStop(before, i, Some(s), q, x, k, p.world.Ids(), p.world.owner, j);
    }
    var at := if i < |rec.previous| then i + 1 else |all|;
    forall j | 0 <= j < |all| && j != at ensures !Stops(all[j], q.message, k) {
      assert j > 0 ==> all[j] == old'[j - 1];
    }
    LoneStopDecides(rec, at, q.message, k);
    EndOccursOnce(before, i, s, p.base, x, |rec.previous|);
  }

  lemma EndOccursOnce(rec: Record, i: nat, s: Session, base: KeyId, x: seq<Dh>, n: nat)
    requires HeldAt(rec, i, Some(s), base, x) && n <= |Sessions(rec)|
    ensures s in Sessions(rec)[..n] <==> i < n
  {
    var all := Sessions(rec);
    assert i < n ==> all[..n][i] == s;
    if s in all[..n] {
      var j :| 0 <= j < n && all[j] == s;
      assert j == i;
    }
  }
}
