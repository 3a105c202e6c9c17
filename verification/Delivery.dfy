/** Routing and delivery together: one session between two users, from the bundle that starts it,
    among all the sessions that they hold, over whole runs of `World`. */
module Delivery {
  import opened Prelude
  import opened Crypto
  import opened Ratchet
  import opened Session
  import opened Origins
  import opened Lockstep
  import opened Runs
  import opened X3dh
  import opened Record
  import opened Store
  import opened Routing
  import W = World

  /** Two users, the side that started the session with base key `base`, whether the other side
      has met it, and the lockstep system of its two ends.  Before they met, the responder's end
      is the session that the first message will start. */
  datatype Paired = Paired(world: W.World, starter: W.Side, base: KeyId, met: bool, sys: System) {
    function RoleOf(u: W.Side): Role { if u == starter then Initiator else Responder }

    function RecordOf(u: W.Side): Record { Load(world.Of(u), W.PEER) }

    function End(u: W.Side): Option<Session> { if u == starter || met then Some(sys.Of(RoleOf(u))) else None }
  }

  // ------------------------------------------------------------- one retained session

  /** A session that was started under a wrong wrapper: it has other secrets and never received. */
  predicate Stray(t: Session, x: seq<Dh>) { t.receivers == [] && RootOrigin(t.root) != x }

  ghost predicate OthersStray(all: seq<Session>, i: nat, base: KeyId, x: seq<Dh>) {
    forall j :: 0 <= j < |all| && j != i && all[j].aliceBaseKey == Some(base) ==> Stray(all[j], x)
  }

  /** The end is session `i` of the record; every other session of the base key is stray. */
  ghost predicate HeldAt(rec: Record, i: nat, end: Option<Session>, base: KeyId, x: seq<Dh>) {
    && OthersStray(Sessions(rec), i, base, x)
    && match end
       case None => i == |Sessions(rec)|
       case Some(s) =>
         i < |Sessions(rec)| && Sessions(rec)[i] == s && s.aliceBaseKey == Some(base) && RootOrigin(s.root) == x
  }

  ghost predicate Holds(rec: Record, end: Option<Session>, base: KeyId, x: seq<Dh>) {
    exists i: nat :: HeldAt(rec, i, end, base, x)
  }

  predicate IsEnd(s: Session, base: KeyId, x: seq<Dh>) { s.aliceBaseKey == Some(base) && RootOrigin(s.root) == x }

  /** Some session with the base key and the secrets is retained. */
  ghost predicate Keeps(rec: Record, base: KeyId, x: seq<Dh>) {
    exists j :: 0 <= j < |Sessions(rec)| && IsEnd(Sessions(rec)[j], base, x)
  }

  /** A new session that is not of the pair leaves the end where it is, unless it evicts it. */
  lemma PromoteHolds(rec: Record, end: Option<Session>, t: Session, base: KeyId, x: seq<Dh>)
    requires Holds(rec, end, base, x) && (t.aliceBaseKey != Some(base) || Stray(t, x))
    requires end.Some? ==> Keeps(Promote(rec, t), base, x)
    ensures Holds(Promote(rec, t), end, base, x)
  {
    var all, all' := Sessions(rec), Sessions(Promote(rec, t));
    PromotedSessions(rec, t);
    var n := |Archive(rec).previous|;
    var i: nat :| HeldAt(rec, i, end, base, x);
    forall j | 1 <= j < |all'| ensures all'[j] == all[j - 1] {
    }
    if end.Some? {
      var j :| 0 <= j < |all'| && IsEnd(all'[j], base, x);
      assert j == i + 1;
      assert HeldAt(Promote(rec, t), i + 1, end, base, x);
    } else {
      assert HeldAt(Promote(rec, t), |all'|, end, base, x);
    }
  }

  /** The session that the first contact starts becomes the end. */
  lemma StartHolds(rec: Record, t: Session, base: KeyId, x: seq<Dh>)
    requires Holds(rec, None, base, x) && t.aliceBaseKey == Some(base) && RootOrigin(t.root) == x
    ensures Holds(Promote(rec, t), Some(t), base, x)
  {
    var all, all' := Sessions(rec), Sessions(Promote(rec, t));
    PromotedSessions(rec, t);
    forall j | 1 <= j < |all'| ensures all'[j] == all[j - 1] {
    }
    assert HeldAt(Promote(rec, t), 0, Some(t), base, x);
  }

  lemma ArchiveHolds(rec: Record, end: Option<Session>, base: KeyId, x: seq<Dh>)
    requires Holds(rec, end, base, x) && (end.Some? ==> Keeps(Archive(rec), base, x))
    ensures Holds(Archive(rec), end, base, x)
  {
    var all, all' := Sessions(rec), Sessions(Archive(rec));
    assert all' == all[..|all'|];
    var i: nat :| HeldAt(rec, i, end, base, x);
    if end.Some? {
      var j :| 0 <= j < |all'| && IsEnd(all'[j], base, x);
      assert j == i;
      assert HeldAt(Archive(rec), i, end, base, x);
    } else {
      assert HeldAt(Archive(rec), |all'|, end, base, x);
    }
  }

  /** Session `a` of a record was replaced and moved to the front. */
  lemma MoveHolds(rec: Record, rec': Record, i: nat, end: Option<Session>, a: nat, t: Session, base: KeyId, x: seq<Dh>)
    requires HeldAt(rec, i, end, base, x) && a < |Sessions(rec)| && Sessions(rec') == [t] + RemoveAt(Sessions(rec), a)
    ensures a == i && t.aliceBaseKey == Some(base) && RootOrigin(t.root) == x ==> Holds(rec', Some(t), base, x)
    ensures a != i && t.aliceBaseKey != Some(base) ==> Holds(rec', end, base, x)
  {
    var all, all' := Sessions(rec), Sessions(rec');
    forall j | 1 <= j < |all'| ensures all'[j] == all[if j <= a then j - 1 else j] {
    }
    if a == i && t.aliceBaseKey == Some(base) && RootOrigin(t.root) == x {
      assert HeldAt(rec', 0, Some(t), base, x);
    }
    if a != i && t.aliceBaseKey != Some(base) {
      assert HeldAt(rec', if i < a then i + 1 else i, end, base, x);
    }
  }

  /** A stray session neither opens a message of the pair nor reports it as a duplicate. */
  lemma StrayDoesNotStop(t: Session, m: SignalMessage, k: KeyId, x: seq<Dh>)
    requires Stray(t, x) && m.tag.Hmac? && ChainOrigin(m.tag.key.chain) == x
    ensures !Stops(t, m, k)
  {
    OpensOnlyOwnOrigin(t, m, k, RootOrigin(t.root));
    if t.sender.Some? {
      var theirs := m.content.ratchetKey;
      PushedChainIsFound([],
        ReceiverChain(theirs, CreateChain(t.Version(), t.root, theirs, t.sender.value.ratchetKey).1, []));
    }
  }

  /** No session but the end stops the search for a message of the pair. */
  lemma OthersDoNotStop(rec: Record, i: nat, end: Option<Session>, q: Posted, x: seq<Dh>, k: KeyId, ids: set<KeyId>,
                        owner: map<KeyId, KeyId>, j: nat)
    requires RecordFits(rec, ids, owner) && PostedOk(q, ids, owner) && HeldAt(rec, i, end, q.baseKey, x)
    requires ChainOrigin(q.message.tag.key.chain) == x && j < |Sessions(rec)| && j != i
    ensures !Stops(Sessions(rec)[j], q.message, k)
  {
    hide Decrypt;
    var t := Sessions(rec)[j];
    if t.aliceBaseKey == Some(q.baseKey) {
      StrayDoesNotStop(t, q.message, k, x);
    } else {
      ForeignSessionDoesNotStop(t, q, k, ids, owner);
    }
  }

  /** The search for a message of the pair gives what the end gives; without an end, nothing. */
  lemma SearchMeetsEnd(rec: Record, end: Option<Session>, q: Posted, x: seq<Dh>, k: KeyId, ids: set<KeyId>,
                       owner: map<KeyId, KeyId>)
    requires RecordFits(rec, ids, owner) && PostedOk(q, ids, owner) && Holds(rec, end, q.baseKey, x)
    requires ChainOrigin(q.message.tag.key.chain) == x
    ensures var (rec', r) := DecryptRecord(rec, q.message, k);
      && (r.Ok? <==> rec.current.Some? && end.Some? && Decrypt(end.value, q.message, k).1.Ok?)
      && (r.Ok? ==> r == Decrypt(end.value, q.message, k).1 && rec'.current == Some(Decrypt(end.value, q.message, k).0))
  {
    if rec.current.None? {
      return;
    }
    hide Decrypt, DecryptRecord, SessionFits, RootOrigin, ChainOrigin;
    var all, m := Sessions(rec), q.message;
    var i: nat :| HeldAt(rec, i, end, q.baseKey, x);
    forall j | 0 <= j < |all| && j != i ensures !Stops(all[j], m, k) {
      OthersDoNotStop(rec, i, end, q, x, k, ids, owner, j);
    }
    LoneStopDecides(rec, i, m, k);
  }

  // ----------------------------------------------------------------------- the pair

  ghost predicate Recorded(m: SignalMessage, h: History) {
    h.Valid() && exists e, i :: 0 <= e < |h.keys| && 0 <= i < |h.ledgers[e].sent| && m == MessageAt(h, e, i)
  }

  lemma RecordedOrigin(m: SignalMessage, h: History)
    requires Recorded(m, h)
    ensures m.tag.Hmac? && ChainOrigin(m.tag.key.chain) == h.secrets && Network(h, m)
  {
    var e, i :| 0 <= e < |h.keys| && 0 <= i < |h.ledgers[e].sent| && m == MessageAt(h, e, i);
    HonestMessageTravels(h, e, i);
    RootAtFacts(h.secrets, h.keys, e);
    NthFacts(h.Chain(e), i);
  }

  lemma RecordedStays(m: SignalMessage, h: History, h': History)
    requires Recorded(m, h) && h'.Valid() && Grows(h, h')
    ensures Recorded(m, h')
  {
    hide MessageAt;
    var e, i :| 0 <= e < |h.keys| && 0 <= i < |h.ledgers[e].sent| && m == MessageAt(h, e, i);
    MessageStays(h, h', e, i);
  }

  lemma LoggedIsRecorded(h: History, e: nat, i: nat)
    requires h.Valid() && e < |h.keys| && i < |h.ledgers[e].sent|
    ensures Recorded(MessageAt(h, e, i), h)
  {
  }

  /** The secrets are the initiator's, for the base key and the responder's first ratchet key. */
  ghost predicate Anchored(h: History, base: KeyId) {
    |h.keys| >= 1 && exists oneTime ::
      h.secrets == AliceSecrets(AliceParameters(h.initiatorId, base, h.responderId, h.keys[0], oneTime, h.keys[0]))
  }

  /** The responder's end before its first message. */
  function Pristine(h: History, base: KeyId): Session
    requires |h.keys| >= 1
  {
    Session(CURRENT_VERSION, h.responderId, Some(h.initiatorId), InitialRoot(h.secrets), 0,
            Some(SenderChain(h.keys[0], ChainKey(CURRENT_VERSION, InitialChain(h.secrets), 0))), [], None, Some(base))
  }

  predicate PendingOk(s: Session, base: KeyId) { s.pending.Some? ==> s.pending.value.baseKey == base }

  ghost predicate EndOk(p: Paired, u: W.Side) {
    && Holds(p.RecordOf(u), p.End(u), p.base, p.sys.past.secrets)
    && p.world.Of(u).identity == p.sys.past.Id(p.RoleOf(u))
    && PendingOk(p.sys.Of(p.RoleOf(u)), p.base)
  }

  /** Both ends are retained, as soon as they exist, and in lockstep, and every message sent under
      the base key is in their history. */
  ghost predicate PairInv(p: Paired) {
    && W.WorldInv(p.world)
    && Inv(p.sys)
    && Anchored(p.sys.past, p.base)
    && (forall u: W.Side :: EndOk(p, u))
    && (!p.met ==> p.sys.responder == Pristine(p.sys.past, p.base))
    && (forall q :: q in p.world.sent && q.baseKey == p.base ==> Recorded(q.message, p.sys.past))
  }

  /** The step makes its store start a session with the secrets of the pair. */
  predicate StartsEnd(p: Paired, step: W.WorldStep) {
    && step.TakePreKey? && !HasSession(p.RecordOf(step.who), step.preKey.version, step.preKey.baseKey)
    && ResponderSession(p.world.Of(step.who), step.preKey).Ok?
    && RootOrigin(ResponderSession(p.world.Of(step.who), step.preKey).value.root) == p.sys.past.secrets
  }

  /** The step of the pair that a step of the world performs, if any. */
  function PairStep(p: Paired, step: W.WorldStep): Option<Step> {
    var st, r := p.world.Of(step.who), p.RoleOf(step.who);
    var st' := W.Advance(p.world, step).Of(step.who);
    match step
    case Post(_, plaintext) =>
      if EncryptAt(st, W.PEER, plaintext).1.Ok? && W.CurrentBase(st) == Some(p.base) then Some(Send(r, plaintext))
      else None
    case Take(_, m, k) =>
      if DecryptSignalAt(st, W.PEER, m, k).1.Ok? && W.CurrentBase(st') == Some(p.base) then Some(Deliver(r, m, k))
      else None
    case TakePreKey(_, pm, k) =>
      if DecryptPreKeyAt(st, W.PEER, pm, k).1.Ok? && W.CurrentBase(st') == Some(p.base)
      then Some(Deliver(r, pm.message, k)) else None
    case _ => None
  }

  predicate MetAfter(p: Paired, step: W.WorldStep) {
    p.met || (StartsEnd(p, step) && DecryptPreKeyAt(p.world.Of(step.who), W.PEER, step.preKey, step.newKey).1.Ok?)
  }

  /** Any step of the world, with any wrapper, except one that starts a second session with the
      secrets of the pair or evicts an end.  Generated keys are new and counters stay in u32. */
  ghost predicate PairEnabled(p: Paired, step: W.WorldStep)
    requires p.sys.past.Valid()
  {
    && W.Enabled(p.world, step)
    && (step.Bundle? ==> step.baseKey != p.base)
    && (StartsEnd(p, step) ==> !p.met && step.who != p.starter)
    && (step.who == p.starter || MetAfter(p, step) ==>
        Keeps(Load(W.Advance(p.world, step).Of(step.who), W.PEER), p.base, p.sys.past.secrets))
    && match PairStep(p, step)
       case Some(Send(r, _)) => |p.sys.past.ledgers[Epoch(p.sys.past, r)].sent| + 1 < U32_SIZE
       case Some(Deliver(_, _, k)) => k !in p.sys.past.keys
       case None => true
  }

  function Follow(p: Paired, step: W.WorldStep): Paired
    requires p.sys.past.Valid()
  {
    p.(world := W.Advance(p.world, step), met := MetAfter(p, step),
       sys := match PairStep(p, step) case Some(t) => Apply(p.sys, t) case None => p.sys)
  }

  // ---------------------------------------------------------------------- one step

  /** A responder session with the secrets of the pair is the responder's end before its first
      message, whatever wrapper asked for it. */
  lemma StartedIsPristine(h: History, base: KeyId, st: Store, pm: PreKeySignalMessage)
    requires Anchored(h, base) && st.identity == h.responderId && ResponderSession(st, pm).Ok?
    requires RootOrigin(ResponderSession(st, pm).value.root) == h.secrets
    ensures ResponderSession(st, pm).value == Pristine(h, base)
  {
    var oneTime :| h.secrets
      == AliceSecrets(AliceParameters(h.initiatorId, base, h.responderId, h.keys[0], oneTime, h.keys[0]));
    var x, signed := h.secrets, st.signedPreKeys[pm.signedPreKeyId];
    assert x[1] == Agree(h.responderId, base) == Agree(pm.baseKey, h.responderId);
    assert x[2] == Agree(h.keys[0], base) == Agree(pm.baseKey, signed);
    assert x[0] == Agree(h.keys[0], h.initiatorId) == Agree(pm.identityKey, signed);
  }

  /** An end accepts only messages of the pair's history, and stray sessions accept nothing. */
  lemma AcceptedByPair(p: Paired, rec: Record, end: Option<Session>, m: SignalMessage, k: KeyId)
    requires PairInv(p) && k !in p.world.owner
    requires RecordFits(rec, p.world.Ids(), p.world.owner) && Holds(rec, end, p.base, p.sys.past.secrets)
    requires Presentable(m, rec, p.world.sent) && DecryptRecord(rec, m, k).1.Ok?
    ensures var rec', x := DecryptRecord(rec, m, k).0, p.sys.past.secrets;
      && rec'.current.Some?
      && (if rec'.current.value.aliceBaseKey == Some(p.base)
          then end.Some? && Recorded(m, p.sys.past) && Decrypt(end.value, m, k).1.Ok?
               && Holds(rec', Some(Decrypt(end.value, m, k).0), p.base, x)
          else Holds(rec', end, p.base, x))
  {
    hide Decrypt, DecryptRecord, Inv, Recorded, Presentable, PostedOk, W.StoreFits, RootOrigin, ChainOrigin, Holds,
         EndOk;
    var x, a, all := p.sys.past.secrets, Acceptor(rec, m, k), Sessions(rec);
    DecryptKeepsRecordFits(rec, m, k, p.world.sent, p.world.Ids(), p.world.owner);
    DecryptConservesSessions(rec, m, k);
    DecryptKeepsIdentity(all[a], m, k);
    AcceptorHasOrigin(rec, m, k);
    OpensOnlyOwnOrigin(all[a], m, k, RootOrigin(all[a].root));
    if all[a].aliceBaseKey == Some(p.base) { RecordedOrigin(m, p.sys.past); }
    AcceptorIsEnd(rec, end, m, k, p.base, x);
  }

  /** A session of the base key that accepts and has the secrets is the end. */
  lemma AcceptorIsEnd(rec: Record, end: Option<Session>, m: SignalMessage, k: KeyId, base: KeyId, x: seq<Dh>)
    requires Holds(rec, end, base, x) && DecryptRecord(rec, m, k).1.Ok? && Bounded(rec)
    requires var s := Sessions(rec)[Acceptor(rec, m, k)];
      s.aliceBaseKey == Some(base) ==> RootOrigin(s.root) == x && RootOrigin(Decrypt(s, m, k).0.root) == x
    ensures var s, rec' := Sessions(rec)[Acceptor(rec, m, k)], DecryptRecord(rec, m, k).0;
      if s.aliceBaseKey == Some(base) then end == Some(s) && Holds(rec', Some(Decrypt(s, m, k).0), base, x)
      else Holds(rec', end, base, x)
  {
    hide Decrypt, DecryptRecord, RootOrigin, Holds;
    var a, all := Acceptor(rec, m, k), Sessions(rec);
    DecryptConservesSessions(rec, m, k);
    DecryptKeepsIdentity(all[a], m, k);
    var i := PlaceOf(rec, end, base, x);
    MoveHolds(rec, DecryptRecord(rec, m, k).0, i, end, a, Decrypt(all[a], m, k).0, base, x);
  }

  lemma PlaceOf(rec: Record, end: Option<Session>, base: KeyId, x: seq<Dh>) returns (i: nat)
    requires Holds(rec, end, base, x)
    ensures HeldAt(rec, i, end, base, x)
  {
    i :| HeldAt(rec, i, end, base, x);
  }

  /** What a step leaves at the side that takes it. */
  ghost predicate Left(p: Paired, step: W.WorldStep)
    requires p.sys.past.Valid()
  {
    var rec', x := Load(W.Advance(p.world, step).Of(step.who), W.PEER), p.sys.past.secrets;
    var exists', s := step.who == p.starter || MetAfter(p, step), p.sys.Of(p.RoleOf(step.who));
    match PairStep(p, step)
    case None => Holds(rec', if exists' then Some(s) else None, p.base, x)
    case Some(t) =>
      && exists' && Enabled(p.sys, t)
      && match t
         case Send(_, plaintext) => Holds(rec', Some(Encrypt(s, plaintext).0), p.base, x)
         case Deliver(_, m, k) => Decrypt(s, m, k).1.Ok? && Holds(rec', Some(Decrypt(s, m, k).0), p.base, x)
  }

  lemma TakeLeaves(p: Paired, u: W.Side, m: SignalMessage, k: KeyId)
    requires PairInv(p) && PairEnabled(p, W.Take(u, m, k))
    ensures Left(p, W.Take(u, m, k))
  {
    hide Decrypt, DecryptRecord, RecordFits, Inv, Recorded, Presentable, PostedOk, Network, Holds, Keeps;
    var st := p.world.Of(u);
    assert EndOk(p, u);
    if DecryptSignalAt(st, W.PEER, m, k).1.Ok? {
      AcceptedByPair(p, st.sessions[W.PEER], p.End(u), m, k);
      if PairStep(p, W.Take(u, m, k)).Some? { RecordedOrigin(m, p.sys.past); }
    }
  }

  /** A stored current session of the base key is the end: stray sessions never become current. */
  lemma CurrentIsEnd(p: Paired, u: W.Side)
    requires PairInv(p) && W.CurrentBase(p.world.Of(u)) == Some(p.base)
    ensures p.End(u).Some? && p.world.Of(u).sessions[W.PEER].current == p.End(u)
  {
    hide Inv, Recorded, PostedOk, RecordFits, RootOrigin;
    assert EndOk(p, u);
    var rec := p.RecordOf(u);
    var i := PlaceOf(rec, p.End(u), p.base, p.sys.past.secrets);
    assert Sessions(rec)[0] == rec.current.value && !Stray(Sessions(rec)[0], p.sys.past.secrets);
  }

  lemma PostLeaves(p: Paired, u: W.Side, plaintext: Bytes)
    requires PairInv(p) && PairEnabled(p, W.Post(u, plaintext))
    ensures Left(p, W.Post(u, plaintext))
  {
    hide RecordFits, Inv, Recorded, PostedOk, HeldAt, Holds, Keeps, RootOrigin;
    var st := p.world.Of(u);
    assert EndOk(p, u);
    if EncryptAt(st, W.PEER, plaintext).1.Ok? {
      var rec := st.sessions[W.PEER];
      var t, t' := rec.current.value, Encrypt(rec.current.value, plaintext).0;
      var rec' := rec.(current := Some(t'));
      if t.aliceBaseKey == Some(p.base) { CurrentIsEnd(p, u); }
      SendHolds(rec, t', p.End(u), p.base, p.sys.past.secrets);
    }
  }

  /** The current session was replaced by its successor after a send. */
  lemma SendHolds(rec: Record, t: Session, end: Option<Session>, base: KeyId, x: seq<Dh>)
    requires Holds(rec, end, base, x) && rec.current.Some?
    requires t.aliceBaseKey == rec.current.value.aliceBaseKey && t.root == rec.current.value.root
    requires t.aliceBaseKey == Some(base) ==> end == rec.current
    ensures var rec' := rec.(current := Some(t));
      if t.aliceBaseKey == Some(base) then Holds(rec', Some(t), base, x) else Holds(rec', end, base, x)
  {
    hide RootOrigin;
    var i := PlaceOf(rec, end, base, x);
    var all, rec' := Sessions(rec), rec.(current := Some(t));
    assert all[0] == rec.current.value && RemoveAt(all, 0) == rec.previous;
    assert Sessions(rec') == [t] + RemoveAt(all, 0);
    MoveHolds(rec, rec', i, end, 0, t, base, x);
  }

  lemma BundleLeaves(p: Paired, u: W.Side, b: PreKeyBundle, baseKey: KeyId, sendingKey: KeyId)
    requires PairInv(p) && PairEnabled(p, W.Bundle(u, b, baseKey, sendingKey))
    ensures Left(p, W.Bundle(u, b, baseKey, sendingKey))
  {
    hide Inv, Recorded, PostedOk, Holds, Keeps, SessionFits, InitiatorSession;
    var rec := p.RecordOf(u);
    assert EndOk(p, u);
    var t := InitiatorSession(p.world.Of(u), b, baseKey, sendingKey);
    InitiatorBase(p.world.Of(u), b, baseKey, sendingKey);
    if ProcessBundleAt(p.world.Of(u), W.PEER, b, baseKey, sendingKey).1.Ok? {
      PromoteHolds(rec, p.End(u), t, p.base, p.sys.past.secrets);
    }
  }

  lemma InitiatorBase(st: Store, b: PreKeyBundle, baseKey: KeyId, sendingKey: KeyId)
    ensures InitiatorSession(st, b, baseKey, sendingKey).aliceBaseKey == Some(baseKey)
  {
  }

  lemma PutAwayLeaves(p: Paired, u: W.Side)
    requires PairInv(p) && PairEnabled(p, W.PutAway(u))
    ensures Left(p, W.PutAway(u))
  {
    hide RecordFits, Inv, Recorded, PostedOk, Holds, Keeps;
    assert EndOk(p, u);
    if W.PEER in p.world.Of(u).sessions {
      ArchiveHolds(p.RecordOf(u), p.End(u), p.base, p.sys.past.secrets);
    }
  }

  lemma TakePreKeyLeaves(p: Paired, u: W.Side, pm: PreKeySignalMessage, k: KeyId)
    requires PairInv(p) && PairEnabled(p, W.TakePreKey(u, pm, k))
    ensures Left(p, W.TakePreKey(u, pm, k))
  {
    hide Decrypt, DecryptRecord, RecordFits, Inv, Recorded, Presentable, PostedOk, Network, Holds, Keeps;
    var st, rec, step := p.world.Of(u), p.RecordOf(u), W.TakePreKey(u, pm, k);
    if DecryptPreKeyAt(st, W.PEER, pm, k).1.Err? {
      assert EndOk(p, u);
    } else {
      hide ResponderSession, EndOk;
      var end := if u == p.starter || MetAfter(p, step) then Some(p.sys.Of(p.RoleOf(u))) else None;
      ProcessedHolds(p, u, pm, k);
      AcceptedByPair(p, ProcessPreKey(st, W.PEER, rec, pm).value.0, end, pm.message, k);
      if PairStep(p, step).Some? { RecordedOrigin(pm.message, p.sys.past); }
    }
  }

  /** The record that a pre-key message is decrypted with: the end may have been started, any
      other new session of the base key is stray. */
  lemma ProcessedHolds(p: Paired, u: W.Side, pm: PreKeySignalMessage, k: KeyId)
    requires PairInv(p) && PairEnabled(p, W.TakePreKey(u, pm, k))
    requires DecryptPreKeyAt(p.world.Of(u), W.PEER, pm, k).1.Ok?
    ensures var rec1 := ProcessPreKey(p.world.Of(u), W.PEER, p.RecordOf(u), pm).value.0;
      var end := if u == p.starter || MetAfter(p, W.TakePreKey(u, pm, k)) then Some(p.sys.Of(p.RoleOf(u))) else None;
      RecordFits(rec1, p.world.Ids(), p.world.owner) && Holds(rec1, end, p.base, p.sys.past.secrets)
  {
    hide Decrypt, DecryptRecord, SessionFits, Inv, Recorded, Presentable, PostedOk, Network, Holds, Keeps, Anchored,
         RootOrigin;
    var st, rec, x := p.world.Of(u), p.RecordOf(u), p.sys.past.secrets;
    var rec1 := ProcessPreKey(st, W.PEER, rec, pm).value.0;
    assert EndOk(p, u);
    W.ProcessedRecordFits(p.world, u, pm);
    if !HasSession(rec, pm.version, pm.baseKey) {
      var t := ResponderSession(st, pm).value;
      PromotedSessions(rec, t);
      if StartsEnd(p, W.TakePreKey(u, pm, k)) {
        StartedIsPristine(p.sys.past, p.base, st, pm);
        StartHolds(rec, t, p.base, x);
      } else {
        if p.End(u).Some? { KeptBeforeDecrypt(rec1, pm.message, k, p.base, x, p.world.Ids(), p.world.owner); }
        PromoteHolds(rec, p.End(u), t, p.base, x);
      }
    }
  }

  /** Decryption brings in no session. */
  lemma KeptBeforeDecrypt(rec: Record, m: SignalMessage, k: KeyId, base: KeyId, x: seq<Dh>, ids: set<KeyId>,
                          owner: map<KeyId, KeyId>)
    requires RecordFits(rec, ids, owner) && Keeps(DecryptRecord(rec, m, k).0, base, x)
    ensures Keeps(rec, base, x)
  {
    hide Decrypt, DecryptRecord, RootOrigin;
    var all, all' := Sessions(rec), Sessions(DecryptRecord(rec, m, k).0);
    DecryptConservesSessions(rec, m, k);
    if DecryptRecord(rec, m, k).1.Ok? {
      var i := Acceptor(rec, m, k);
      DecryptKeepsIdentity(all[i], m, k);
      assert SessionFits(all[i], ids, owner);
      OpensOnlyOwnOrigin(all[i], m, k, RootOrigin(all[i].root));
      RootedOrigin(Decrypt(all[i], m, k).0, RootOrigin(all[i].root));
      var j :| 0 <= j < |all'| && IsEnd(all'[j], base, x);
      var j' := if j == 0 then i else if j <= i then j - 1 else j;
      MovedFrom(all, i, all'[0], j);
      assert IsEnd(all[j'], base, x);
    }
  }

  /** Where the entries of a list come from when entry `i` was replaced and moved to the front. */
  lemma MovedFrom(all: seq<Session>, i: nat, s: Session, j: nat)
    requires i < |all| && j < |all|
    ensures var from := if j == 0 then i else if j <= i then j - 1 else j;
      ([s] + RemoveAt(all, i))[j] == if j == 0 then s else all[from]
  {
  }

  // ----------------------------------------------------------------------- all runs

  lemma StepLeaves(p: Paired, step: W.WorldStep)
    requires PairInv(p) && PairEnabled(p, step)
    ensures Left(p, step)
  {
    match step
    case Save(u, _, _) => assert EndOk(p, u);
    case Bundle(u, b, baseKey, sendingKey) => BundleLeaves(p, u, b, baseKey, sendingKey);
    case Post(u, plaintext) => PostLeaves(p, u, plaintext);
    case Take(u, m, k) => TakeLeaves(p, u, m, k);
    case TakePreKey(u, pm, k) => TakePreKeyLeaves(p, u, pm, k);
    case PutAway(u) => PutAwayLeaves(p, u);
  }

  lemma PendingStays(s: Session, plaintext: Bytes, m: SignalMessage, k: KeyId, base: KeyId)
    requires PendingOk(s, base)
    ensures PendingOk(Encrypt(s, plaintext).0, base)
    ensures Decrypt(s, m, k).1.Ok? ==> PendingOk(Decrypt(s, m, k).0, base)
  {
  }

  /** The pair performs its own step, if any, and stays in lockstep. */
  lemma SystemFollows(p: Paired, step: W.WorldStep)
    requires PairInv(p) && Left(p, step)
    ensures var r, p' := p.RoleOf(step.who), Follow(p, step);
      && Inv(p'.sys) && Grows(p.sys.past, p'.sys.past)
      && p'.sys.Of(Other(r)) == p.sys.Of(Other(r))
      && Holds(Load(p'.world.Of(step.who), W.PEER), p'.End(step.who), p.base, p'.sys.past.secrets)
      && PendingOk(p'.sys.Of(r), p.base)
      && (!p'.met && step.who != p.starter ==> p'.sys.responder == p.sys.responder)
  {
    hide Decrypt, Encrypt, SessionOk, W.WorldInv, W.Advance, Holds, Enabled, Recorded, MetAfter, Anchored, PendingOk;
    var u, s := step.who, p.sys.Of(p.RoleOf(step.who));
    assert EndOk(p, u);
    match PairStep(p, step)
    case None => GrowsAlone(p.sys.past);
    case Some(t) =>
      StepKeepsInv(p.sys, t);
      StepGrows(p.sys, t);
      StepIsOwn(p, step);
      match t {
        case Send(r, plaintext) =>
          SendOutcome(p.sys, r, plaintext);
          PendingStays(s, plaintext, SomeMessage(), 0, p.base);
        case Deliver(r, m, k) =>
          DeliverOutcome(p.sys, r, m, k);
          PendingStays(s, [], m, k, p.base);
      }
  }

  lemma StepIsOwn(p: Paired, step: W.WorldStep)
    requires PairStep(p, step).Some?
    ensures match PairStep(p, step).value
      case Send(r, _) => r == p.RoleOf(step.who)
      case Deliver(r, _, _) => r == p.RoleOf(step.who)
  {
  }

  function SomeMessage(): SignalMessage { SignalMessage(Content(0, 0, 0, 0, Noise([])), Junk([])) }

  lemma GrowsAlone(h: History)
    requires h.Valid()
    ensures Grows(h, h)
  {
  }

  /** Only a post puts a message on the wire. */
  lemma OnlyPostSends(w: W.World, step: W.WorldStep, q: Posted)
    requires q in W.Advance(w, step).sent && q !in w.sent
    ensures step.Post? && EncryptAt(w.Of(step.who), W.PEER, step.plaintext).1.Ok?
    ensures W.CurrentBase(w.Of(step.who)) == Some(q.baseKey)
    ensures q.message == Inner(EncryptAt(w.Of(step.who), W.PEER, step.plaintext).1.value)
  {
    hide EncryptAt, DecryptSignalAt, DecryptPreKeyAt, ProcessBundleAt;
  }

  /** A pre-key message posted on the pair's session shows the current version, the base key and
      the sender's identity. */
  lemma WrappedOnPair(p: Paired, u: W.Side, plaintext: Bytes)
    requires PairInv(p) && PairStep(p, W.Post(u, plaintext)).Some?
    ensures var wire := EncryptAt(p.world.Of(u), W.PEER, plaintext).1;
      && wire.Ok?
      && (wire.value.PreKey? ==>
          && wire.value.preKey.message == Inner(wire.value) && wire.value.preKey.version == CURRENT_VERSION
          && wire.value.preKey.baseKey == p.base && wire.value.preKey.identityKey == p.sys.past.Id(p.RoleOf(u)))
  {
    hide Recorded, W.WorldInv, ChainOk, Holds, Anchored;
    CurrentIsEnd(p, u);
    assert EndOk(p, u);
  }

  /** A message posted on the pair's session is the next one of the pair's history. */
  lemma PostedOnPair(p: Paired, u: W.Side, plaintext: Bytes)
    requires PairInv(p) && PairEnabled(p, W.Post(u, plaintext)) && PairStep(p, W.Post(u, plaintext)).Some?
    ensures var mid, r := Follow(p, W.Post(u, plaintext)), p.RoleOf(u);
      var n := Epoch(p.sys.past, r);
      var i := |p.sys.past.ledgers[n].sent|;
      var wire := EncryptAt(p.world.Of(u), W.PEER, plaintext).1;
      && wire.Ok? && mid.sys.past.Valid() && n < |mid.sys.past.keys|
      && i < |mid.sys.past.ledgers[n].sent| && mid.sys.past.ledgers[n].sent[i].plaintext == plaintext
      && Inner(wire.value) == MessageAt(mid.sys.past, n, i)
      && Posted(Inner(wire.value), p.base) in mid.world.sent
  {
    hide Recorded, PostedOk, W.StoreFits, SessionOk, EndOk, Anchored;
    CurrentIsEnd(p, u);
    SendReturnsLoggedMessage(p.sys, p.RoleOf(u), plaintext);
    SendKeepsInv(p.sys, p.RoleOf(u), plaintext);
  }

  /** What a step adds to the messages on the wire under the base key of the pair. */
  lemma SentUnderBase(p: Paired, step: W.WorldStep, q: Posted)
    requires PairInv(p) && PairEnabled(p, step)
    requires q in W.Advance(p.world, step).sent && q !in p.world.sent && q.baseKey == p.base
    ensures Recorded(q.message, Follow(p, step).sys.past)
  {
    hide EncryptAt, SessionOk, Recorded, W.WorldInv, PairEnabled, W.Advance, MessageAt, Apply, MetAfter, EndOk,
         Anchored;
    OnlyPostSends(p.world, step, q);
    PostedOnPair(p, step.who, step.plaintext);
    var r := p.RoleOf(step.who);
    LoggedIsRecorded(Follow(p, step).sys.past, Epoch(p.sys.past, r), |p.sys.past.ledgers[Epoch(p.sys.past, r)].sent|);
  }

  lemma AnchorStays(h: History, h': History, base: KeyId)
    requires h.Valid() && Grows(h, h') && Anchored(h, base)
    ensures Anchored(h', base) && Pristine(h', base) == Pristine(h, base) && h'.secrets == h.secrets
    ensures h'.initiatorId == h.initiatorId && h'.responderId == h.responderId
  {
  }

  lemma EndsFollow(p: Paired, step: W.WorldStep, u: W.Side)
    requires PairInv(p) && PairEnabled(p, step) && Left(p, step)
    ensures EndOk(Follow(p, step), u)
  {
    hide Decrypt, Inv, W.WorldInv, W.Advance, Holds, Enabled, Recorded, Left, PairStep, Grows, MetAfter, PendingOk,
         Anchored, StartsEnd, Keeps;
    W.StepChangesOneSide(p.world, step);
    StepKeepsIdentities(p.world, step);
    SystemFollows(p, step);
    PairIsValid(p);
    AnchorStays(p.sys.past, Follow(p, step).sys.past, p.base);
    assert EndOk(p, u);
    MetOnlyAtWho(p, step);
    if u != step.who {
      assert p.RoleOf(u) == Other(p.RoleOf(step.who));
    }
  }

  /** Only a step of the responder's side can make the two ends meet. */
  lemma MetOnlyAtWho(p: Paired, step: W.WorldStep)
    requires p.sys.past.Valid() && PairEnabled(p, step)
    ensures MetAfter(p, step) && !p.met ==> step.who != p.starter
    ensures p.met ==> MetAfter(p, step)
  {
  }

  lemma StepKeepsIdentities(w: W.World, step: W.WorldStep)
    ensures W.Advance(w, step).left.identity == w.left.identity && W.Advance(w, step).right.identity == w.right.identity
  {
    hide EncryptAt, DecryptSignalAt, DecryptPreKeyAt, ProcessBundleAt;
    var st := w.Of(step.who);
    match step
    case Bundle(_, b, baseKey, sendingKey) => BundleKeepsIdentity(st, b, baseKey, sendingKey);
    case Post(_, plaintext) => PostKeepsIdentity(st, plaintext);
    case Take(_, m, k) => TakeKeepsIdentity(st, m, k);
    case TakePreKey(_, pm, k) => TakePreKeyKeepsIdentity(st, pm, k);
    case _ =>
  }

  lemma BundleKeepsIdentity(st: Store, b: PreKeyBundle, baseKey: KeyId, sendingKey: KeyId)
    ensures ProcessBundleAt(st, W.PEER, b, baseKey, sendingKey).0.identity == st.identity
  {
  }

  lemma PostKeepsIdentity(st: Store, plaintext: Bytes)
    ensures EncryptAt(st, W.PEER, plaintext).0.identity == st.identity
  {
    hide Encrypt;
  }

  lemma TakeKeepsIdentity(st: Store, m: SignalMessage, k: KeyId)
    ensures DecryptSignalAt(st, W.PEER, m, k).0.identity == st.identity
  {
    hide DecryptRecord;
  }

  lemma TakePreKeyKeepsIdentity(st: Store, pm: PreKeySignalMessage, k: KeyId)
    ensures DecryptPreKeyAt(st, W.PEER, pm, k).0.identity == st.identity
  {
    hide DecryptRecord, ProcessPreKey;
  }

  lemma PairIsValid(p: Paired)
    requires PairInv(p)
    ensures p.sys.past.Valid() && Inv(p.sys)
  {
  }

  lemma StepKeepsPair(p: Paired, step: W.WorldStep)
    requires PairInv(p) && PairEnabled(p, step)
    ensures PairInv(Follow(p, step)) && Grows(p.sys.past, Follow(p, step).sys.past)
  {
    hide Decrypt, SessionOk, W.WorldInv, W.Advance, EndOk, Enabled, Recorded, Left, PairStep, W.Enabled, Anchored,
         Pristine, Grows;
    W.StepKeepsWorldInv(p.world, step);
    StepLeaves(p, step);
    SystemFollows(p, step);
    var p' := Follow(p, step);
    AnchorStays(p.sys.past, p'.sys.past, p.base);
    forall u: W.Side ensures EndOk(p', u) { EndsFollow(p, step, u); }
    forall q | q in p'.world.sent && q.baseKey == p.base ensures Recorded(q.message, p'.sys.past) {
      if q in p.world.sent {
        RecordedStays(q.message, p.sys.past, p'.sys.past);
      } else {
        SentUnderBase(p, step, q);
      }
    }
  }

  ghost predicate PairRun(p: Paired, steps: seq<W.WorldStep>, end: Paired)
    decreases |steps|
  {
    if steps == [] then p == end
    else p.sys.past.Valid() && PairEnabled(p, steps[0]) && PairRun(Follow(p, steps[0]), steps[1..], end)
  }

  /** In every run of the world, with any wrappers and among any number of other sessions, that
      starts no second session with the same secrets and evicts no end, the two ends stay in
      lockstep. */
  lemma {:induction false} RunKeepsPair(p: Paired, steps: seq<W.WorldStep>, end: Paired)
    requires PairInv(p) && PairRun(p, steps, end)
    ensures PairInv(end) && Grows(p.sys.past, end.sys.past) && end.starter == p.starter && end.base == p.base
    ensures p.world.sent <= end.world.sent && (p.met ==> end.met)
    decreases |steps|
  {
    hide PairInv, PairEnabled, Follow, Grows;
    PairIsValid(p);
    if steps == [] {
      GrowsAlone(p.sys.past);
    } else {
      var next := Follow(p, steps[0]);
      StepKeepsPair(p, steps[0]);
      FollowKeeps(p, steps[0]);
      RunKeepsPair(next, steps[1..], end);
      GrowsTransitively(p.sys.past, next.sys.past, end.sys.past);
    }
  }

  lemma FollowKeeps(p: Paired, step: W.WorldStep)
    requires p.sys.past.Valid()
    ensures var p' := Follow(p, step);
      p'.starter == p.starter && p'.base == p.base && p.world.sent <= p'.world.sent && (p.met ==> p'.met)
  {
    hide PairStep, EncryptAt, DecryptSignalAt, DecryptPreKeyAt, ProcessBundleAt;
  }

  // ----------------------------------------------------------------------- delivery

  /** `message_decrypt`: by the kind of the message. */
  function DecryptAt(st: Store, wire: CiphertextMessage, k: KeyId): (Store, Result<Bytes, Error>) {
    match wire
    case Whisper(m) => DecryptSignalAt(st, W.PEER, m, k)
    case PreKey(pm) => DecryptPreKeyAt(st, W.PEER, pm, k)
  }

  /** The wire message carries message `(e, i)` of the pair, plainly or wrapped as its sender
      wraps it. */
  ghost predicate Carries(p: Paired, wire: CiphertextMessage, e: nat, i: nat)
    requires p.sys.past.Valid()
  {
    && e < |p.sys.past.keys| && i < |p.sys.past.ledgers[e].sent| && Inner(wire) == MessageAt(p.sys.past, e, i)
    && Posted(Inner(wire), p.base) in p.world.sent
    && (wire.PreKey? ==> wire.preKey.version == CURRENT_VERSION && wire.preKey.baseKey == p.base
                         && wire.preKey.identityKey == p.sys.past.Id(Speaker(e)))
  }

  /** Presented to the store of the other end, in either form, a message of the pair is decrypted
      to its plaintext if and only if there is a current session, the message is deliverable in
      the pair's history and the sender's identity is trusted. */
  lemma RoutedDeliveryIff(p: Paired, u: W.Side, wire: CiphertextMessage, e: nat, i: nat, k: KeyId)
    requires PairInv(p) && Carries(p, wire, e, i) && p.End(u).Some? && Speaker(e) == Other(p.RoleOf(u))
    ensures var h, r := p.sys.past, p.RoleOf(u);
      var text := DecryptAt(p.world.Of(u), wire, k).1;
      && (text.Ok? <==> && p.RecordOf(u).current.Some? && Deliverable(h, r, e, i)
                        && Trusted(p.world.Of(u), W.PEER, h.Id(Other(r))))
      && (text.Ok? ==> text == Ok(h.ledgers[e].sent[i].plaintext))
  {
    hide Decrypt, DecryptRecord, MessageAt, Deliverable, SessionOk, Holds, Anchored, Recorded, PostedOk;
    var h, r, st, rec := p.sys.past, p.RoleOf(u), p.world.Of(u), p.RecordOf(u);
    var m, s := MessageAt(h, e, i), p.sys.Of(r);
    DeliveryIff(p.sys, r, e, i, k);
    SearchMeetsPair(p, u, Posted(m, p.base), k);
    PeerIdentity(p, u, m, k);
    if wire.PreKey? { EndIsListed(p, u); }
  }

  /** The record of an end, presented with a message of the pair. */
  lemma SearchMeetsPair(p: Paired, u: W.Side, q: Posted, k: KeyId)
    requires PairInv(p) && q in p.world.sent && q.baseKey == p.base
    ensures var rec, s := p.RecordOf(u), p.sys.Of(p.RoleOf(u));
      var (rec', r) := DecryptRecord(rec, q.message, k);
      && (r.Ok? <==> rec.current.Some? && p.End(u).Some? && Decrypt(s, q.message, k).1.Ok?)
      && (r.Ok? ==> r == Decrypt(s, q.message, k).1 && rec'.current == Some(Decrypt(s, q.message, k).0))
  {
    hide Decrypt, DecryptRecord, SessionFits, Recorded, SessionOk, Holds, Anchored;
    assert EndOk(p, u);
    RecordedOrigin(q.message, p.sys.past);
    SearchMeetsEnd(p.RecordOf(u), p.End(u), q, p.sys.past.secrets, k, p.world.Ids(), p.world.owner);
  }

  lemma PeerIdentity(p: Paired, u: W.Side, m: SignalMessage, k: KeyId)
    requires PairInv(p)
    ensures Decrypt(p.sys.Of(p.RoleOf(u)), m, k).0.remoteIdentity == Some(p.sys.past.Id(Other(p.RoleOf(u))))
  {
    hide Decrypt, DecryptRecord, ChainOk, Recorded, W.WorldInv;
    DecryptKeepsIdentity(p.sys.Of(p.RoleOf(u)), m, k);
  }

  /** The lookup of a pre-key message finds the end. */
  lemma EndIsListed(p: Paired, u: W.Side)
    requires PairInv(p) && p.End(u).Some?
    ensures HasSession(p.RecordOf(u), CURRENT_VERSION, p.base)
  {
    hide SessionOk, Recorded, W.WorldInv, Anchored, RootOrigin;
    assert EndOk(p, u);
    var rec := p.RecordOf(u);
    var i := PlaceOf(rec, p.End(u), p.base, p.sys.past.secrets);
    HasSessionIsMembership(rec, CURRENT_VERSION, p.base);
    EndVersion(p, u);
    assert Is(Sessions(rec)[i], CURRENT_VERSION, p.base);
  }

  lemma EndVersion(p: Paired, u: W.Side)
    requires Inv(p.sys)
    ensures p.sys.Of(p.RoleOf(u)).Version() == CURRENT_VERSION
  {
    hide ChainOk;
  }

  /** End to end.  The message that `message_encrypt` returns for a plaintext on the pair's session
      reaches the other user, after any run of the pair, exactly when it is deliverable then,
      the sender is trusted and the record has a current session. */
  lemma SentThenDelivered(p: Paired, u: W.Side, v: W.Side, plaintext: Bytes, steps: seq<W.WorldStep>, end: Paired,
                          k: KeyId)
    requires PairInv(p) && u != v && PairEnabled(p, W.Post(u, plaintext)) && PairStep(p, W.Post(u, plaintext)).Some?
    requires PairRun(Follow(p, W.Post(u, plaintext)), steps, end) && end.End(v).Some?
    ensures var r := p.RoleOf(u);
      var n := Epoch(p.sys.past, r);
      var i := |p.sys.past.ledgers[n].sent|;
      var wire := EncryptAt(p.world.Of(u), W.PEER, plaintext).1;
      && wire.Ok? && end.sys.past.Valid()
      && var text := DecryptAt(end.world.Of(v), wire.value, k).1;
         && (text.Ok? <==>
             && end.RecordOf(v).current.Some?
             && Deliverable(end.sys.past, Other(r), n, i)
             && Trusted(end.world.Of(v), W.PEER, end.sys.past.Id(r)))
         && (text.Ok? ==> text == Ok(plaintext))
  {
    hide Decrypt, DecryptRecord, MessageAt, Deliverable, PairInv, PairEnabled, PairRun, DecryptAt, EncryptAt, W.Advance;
    PairIsValid(p);
    var step := W.Post(u, plaintext);
    var r, mid := p.RoleOf(u), Follow(p, step);
    var n := Epoch(p.sys.past, r);
    var i := |p.sys.past.ledgers[n].sent|;
    StepKeepsPair(p, step);
    PostedOnPair(p, u, plaintext);
    WrappedOnPair(p, u, plaintext);
    RunKeepsPair(mid, steps, end);
    PairIsValid(end);
    MessageStays(mid.sys.past, end.sys.past, n, i);
    RoutedDeliveryIff(end, v, EncryptAt(p.world.Of(u), W.PEER, plaintext).1.value, n, i, k);
    assert LedgerGrows(mid.sys.past.ledgers[n], end.sys.past.ledgers[n]);
  }
}
