/** Two users with any number of sessions in both directions.  Every message is routed to the
    one retained session that belongs to it. */
module Routing {
  import opened Prelude
  import opened Crypto
  import opened Ratchet
  import opened Session
  import opened Origins
  import opened Record

  // ------------------------------------------------------------------ one session

  /** The secrets of a session name its base key next to an identity key. */
  ghost predicate Names(x: seq<Dh>, base: KeyId, ids: set<KeyId>) {
    |x| >= 3 && exists p :: p in ids && x[1] == Agree(p, base)
  }

  /** A generated base key is no identity key, so secrets that name it name no other one. */
  lemma NamesOneBase(x: seq<Dh>, b: KeyId, b': KeyId, ids: set<KeyId>)
    requires Names(x, b, ids) && Names(x, b', ids) && b !in ids
    ensures b == b'
  {
  }

  predicate Used(rc: ReceiverChain) { rc.chainKey.index > 0 || rc.skipped != [] }

  /** `owner` maps each generated ratchet key to the base key of the session it was made for. */
  ghost predicate ChainsOwned(chains: seq<ReceiverChain>, owner: map<KeyId, KeyId>, base: KeyId) {
    forall j :: 0 <= j < |chains| && Used(chains[j]) ==>
      chains[j].ratchetKey in owner && owner[chains[j].ratchetKey] == base
  }

  ghost predicate SessionFits(s: Session, ids: set<KeyId>, owner: map<KeyId, KeyId>) {
    && s.Version() == CURRENT_VERSION
    && s.aliceBaseKey.Some? && s.sender.Some?
    && Rooted(s, RootOrigin(s.root))
    && ChainOrigin(s.sender.value.chainKey.key) == RootOrigin(s.root)
    && Names(RootOrigin(s.root), s.aliceBaseKey.value, ids)
    && (s.receivers != [] ==>
        s.sender.value.ratchetKey in owner && owner[s.sender.value.ratchetKey] == s.aliceBaseKey.value)
    && ChainsOwned(s.receivers, owner, s.aliceBaseKey.value)
  }

  /** A message an honest session sent, with the base key of that session. */
  datatype Posted = Posted(message: SignalMessage, baseKey: KeyId)

  ghost predicate PostedOk(p: Posted, ids: set<KeyId>, owner: map<KeyId, KeyId>) {
    var m := p.message;
    && m.tag.Hmac? && m.tag.content == m.content
    && p.baseKey !in ids && Names(ChainOrigin(m.tag.key.chain), p.baseKey, ids)
    && m.content.ratchetKey in owner && owner[m.content.ratchetKey] == p.baseKey
  }

  /** No session but the message's own accepts it or reports it as a duplicate. */
  lemma ForeignSessionDoesNotStop(s: Session, p: Posted, newKey: KeyId, ids: set<KeyId>, owner: map<KeyId, KeyId>)
    requires SessionFits(s, ids, owner) && PostedOk(p, ids, owner)
    requires s.aliceBaseKey != Some(p.baseKey)
    ensures !Stops(s, p.message, newKey)
  {
    var m := p.message;
    var x := RootOrigin(s.root);
    OpensOnlyOwnOrigin(s, m, newKey, x);
    if m.content.version == CURRENT_VERSION {
      var j := FindChain(s.receivers, m.content.ratchetKey);
      if j < |s.receivers| {
        assert !Used(s.receivers[j]);
      } else {
        PushedChainIsFound(s.receivers,
          ReceiverChain(m.content.ratchetKey,
            CreateChain(s.Version(), s.root, m.content.ratchetKey, s.sender.value.ratchetKey).1, []));
      }
    }
  }

  lemma SenderOriginAfterDecrypt(s: Session, m: SignalMessage, newKey: KeyId)
    requires s.sender.Some? && ChainOrigin(s.sender.value.chainKey.key) == RootOrigin(s.root)
    requires Decrypt(s, m, newKey).1.Ok?
    ensures var s' := Decrypt(s, m, newKey).0;
      && RootOrigin(s'.root) == RootOrigin(s.root)
      && s'.sender.Some? && ChainOrigin(s'.sender.value.chainKey.key) == RootOrigin(s'.root)
      && s'.receivers != []
      && (s'.sender.value.ratchetKey == newKey
          || (s.receivers != [] && s'.sender.value.ratchetKey == s.sender.value.ratchetKey))
  {
  }

  lemma ReceiversAfterDecrypt(s: Session, m: SignalMessage, newKey: KeyId, owner: map<KeyId, KeyId>, base: KeyId)
    requires Decrypt(s, m, newKey).1.Ok?
    requires ChainsOwned(s.receivers, owner, base)
    requires m.content.ratchetKey in owner && owner[m.content.ratchetKey] == base
    ensures ChainsOwned(Decrypt(s, m, newKey).0.receivers, owner, base)
  {
    hide TakeKeys;
    var theirs := m.content.ratchetKey;
    var s1 := PrepareChain(s, theirs, newKey);
    PreparedChainsOwned(s, theirs, newKey, owner, base);
    var j := FindChain(s1.receivers, theirs);
    TakeKeysKeepsRatchetKey(s1.receivers[j], m.content.counter);
    assert Decrypt(s, m, newKey).0.receivers == s1.receivers[j := TakeKeys(s1.receivers[j], m.content.counter).0];
  }

  lemma PreparedChainsOwned(s: Session, theirs: KeyId, newKey: KeyId, owner: map<KeyId, KeyId>, base: KeyId)
    requires s.sender.Some? && ChainsOwned(s.receivers, owner, base)
    ensures ChainsOwned(PrepareChain(s, theirs, newKey).receivers, owner, base)
  {
  }

  lemma TakeKeysKeepsRatchetKey(rc: ReceiverChain, counter: u32)
    ensures TakeKeys(rc, counter).0.ratchetKey == rc.ratchetKey
  {
  }

  lemma MoreOwners(s: Session, ids: set<KeyId>, owner: map<KeyId, KeyId>, k: KeyId, base: KeyId)
    requires SessionFits(s, ids, owner) && k !in owner
    ensures SessionFits(s, ids, owner[k := base])
  {
  }

  /** A session that accepts one of its own messages still fits. */
  lemma AcceptorStillFits(s: Session, m: SignalMessage, newKey: KeyId, ids: set<KeyId>, owner: map<KeyId, KeyId>)
    requires SessionFits(s, ids, owner) && newKey !in owner && Decrypt(s, m, newKey).1.Ok?
    requires m.content.ratchetKey in owner && owner[m.content.ratchetKey] == s.aliceBaseKey.value
    ensures SessionFits(Decrypt(s, m, newKey).0, ids, owner[newKey := s.aliceBaseKey.value])
  {
    hide Decrypt;
    var owner', base := owner[newKey := s.aliceBaseKey.value], s.aliceBaseKey.value;
    DecryptKeepsIdentity(s, m, newKey);
    OpensOnlyOwnOrigin(s, m, newKey, RootOrigin(s.root));
    SenderOriginAfterDecrypt(s, m, newKey);
    ReceiversAfterDecrypt(s, m, newKey, owner, base);
    assert ChainsOwned(Decrypt(s, m, newKey).0.receivers, owner', base);
  }

  // ------------------------------------------------------------------- one record

  ghost predicate RecordFits(rec: Record, ids: set<KeyId>, owner: map<KeyId, KeyId>) {
    && Bounded(rec)
    && forall i :: 0 <= i < |Sessions(rec)| ==> SessionFits(Sessions(rec)[i], ids, owner)
  }

  /** What the network can present to a record: junk, a MAC seen before, or a MAC under a key
      that none of the retained sessions could derive. */
  ghost predicate Presentable(m: SignalMessage, rec: Record, sent: set<Posted>) {
    || m.tag.Junk?
    || (exists p :: p in sent && m.tag == p.message.tag)
    || forall i :: 0 <= i < |Sessions(rec)| ==> RootOrigin(Sessions(rec)[i].root) != ChainOrigin(m.tag.key.chain)
  }

  /** A message that any retained session accepts was sent, unaltered, by its own session. */
  lemma AcceptedWasPosted(s: Session, m: SignalMessage, newKey: KeyId, rec: Record, i: nat, sent: set<Posted>,
                          ids: set<KeyId>, owner: map<KeyId, KeyId>)
    requires i < |Sessions(rec)| && s == Sessions(rec)[i] && SessionFits(s, ids, owner)
    requires Presentable(m, rec, sent) && forall p :: p in sent ==> PostedOk(p, ids, owner)
    requires Decrypt(s, m, newKey).1.Ok?
    ensures Posted(m, s.aliceBaseKey.value) in sent
    ensures m.content.ratchetKey in owner && owner[m.content.ratchetKey] == s.aliceBaseKey.value
  {
    hide Decrypt;
    OpensOnlyOwnOrigin(s, m, newKey, RootOrigin(s.root));
    var p :| p in sent && m.tag == p.message.tag;
    NamesOneBase(RootOrigin(s.root), p.baseKey, s.aliceBaseKey.value, ids);
    TagFixesContent(s, m, newKey);
    assert p == Posted(m, s.aliceBaseKey.value);
  }

  lemma TagFixesContent(s: Session, m: SignalMessage, newKey: KeyId)
    requires Decrypt(s, m, newKey).1.Ok?
    ensures m.tag.Hmac? && m.tag.content == m.content
  {
  }

  lemma MovedSessionsFit(all: seq<Session>, i: nat, s: Session, newKey: KeyId, base: KeyId, ids: set<KeyId>,
                         owner: map<KeyId, KeyId>)
    requires i < |all| && newKey !in owner && SessionFits(s, ids, owner[newKey := base])
    requires forall j :: 0 <= j < |all| ==> SessionFits(all[j], ids, owner)
    ensures var all' := [s] + RemoveAt(all, i);
      forall j :: 0 <= j < |all'| ==> SessionFits(all'[j], ids, owner[newKey := base])
  {
    var all' := [s] + RemoveAt(all, i);
    forall j | 0 <= j < |all'| ensures SessionFits(all'[j], ids, owner[newKey := base]) {
      if j > 0 {
        var j' := if j <= i then j - 1 else j;
        assert all'[j] == all[j'];
        MoreOwners(all[j'], ids, owner, newKey, base);
      }
    }
  }

  /** Decryption keeps a record fitting, with the new ratchet key owned by the acceptor. */
  lemma DecryptKeepsRecordFits(rec: Record, m: SignalMessage, newKey: KeyId, sent: set<Posted>, ids: set<KeyId>,
                               owner: map<KeyId, KeyId>)
    requires RecordFits(rec, ids, owner) && newKey !in owner
    requires Presentable(m, rec, sent) && forall p :: p in sent ==> PostedOk(p, ids, owner)
    requires DecryptRecord(rec, m, newKey).1.Ok?
    ensures var rec' := DecryptRecord(rec, m, newKey).0;
      && rec'.current.Some? && rec'.current.value.receivers != [] && rec'.current.value.aliceBaseKey.Some?
      && Posted(m, rec'.current.value.aliceBaseKey.value) in sent
      && RecordFits(rec', ids, owner[newKey := rec'.current.value.aliceBaseKey.value])
  {
    hide Decrypt;
    var i := Acceptor(rec, m, newKey);
    var s := Sessions(rec)[i];
    var rec', base := DecryptRecord(rec, m, newKey).0, s.aliceBaseKey.value;
    DecryptConservesSessions(rec, m, newKey);
    AcceptedWasPosted(s, m, newKey, rec, i, sent, ids, owner);
    AcceptorStillFits(s, m, newKey, ids, owner);
    DecryptKeepsIdentity(s, m, newKey);
    SenderOriginAfterDecrypt(s, m, newKey);
    MovedSessionsFit(Sessions(rec), i, Decrypt(s, m, newKey).0, newKey, base, ids, owner);
  }

  lemma PromoteKeepsRecordFits(rec: Record, s: Session, ids: set<KeyId>, owner: map<KeyId, KeyId>)
    requires RecordFits(rec, ids, owner) && SessionFits(s, ids, owner)
    ensures RecordFits(Promote(rec, s), ids, owner)
    ensures Promote(Archive(rec), s) == Promote(rec, s)
  {
    var q := Archive(rec).previous;
    forall i | 0 <= i < |q| ensures q[i] == Sessions(rec)[i] {
    }
    assert Sessions(Promote(rec, s)) == [s] + q;
  }

  /** Session `i` has the base key, accepts, and no session of that base key before it stops. */
  ghost predicate FirstToAccept(all: seq<Session>, i: nat, baseKey: KeyId, m: SignalMessage, newKey: KeyId) {
    && i < |all| && all[i].aliceBaseKey == Some(baseKey) && Decrypt(all[i], m, newKey).1.Ok?
    && forall j :: 0 <= j < i && all[j].aliceBaseKey == Some(baseKey) ==> !Stops(all[j], m, newKey)
  }

  /** Routing.  Presented with a message that an honest session sent, no session of another
      base key ends the search; the search succeeds if and only if a retained session with the
      message's base key accepts before another one of that base key stops it; the acceptor is
      then current, so both sides agree on the base key. */
  lemma MessageFindsItsSession(rec: Record, p: Posted, newKey: KeyId, ids: set<KeyId>, owner: map<KeyId, KeyId>)
    requires RecordFits(rec, ids, owner) && PostedOk(p, ids, owner) && rec.current.Some?
    ensures forall i :: 0 <= i < |Sessions(rec)| && Sessions(rec)[i].aliceBaseKey != Some(p.baseKey) ==>
      !Stops(Sessions(rec)[i], p.message, newKey)
    ensures DecryptRecord(rec, p.message, newKey).1.Ok? <==>
      exists i :: FirstToAccept(Sessions(rec), i, p.baseKey, p.message, newKey)
    ensures var (rec', r) := DecryptRecord(rec, p.message, newKey);
      r.Ok? ==> rec'.current.Some? && rec'.current.value.aliceBaseKey == Some(p.baseKey)
  {
    hide Decrypt;
    var all, m := Sessions(rec), p.message;
    forall i | 0 <= i < |all| && all[i].aliceBaseKey != Some(p.baseKey) ensures !Stops(all[i], m, newKey) {
      ForeignSessionDoesNotStop(all[i], p, newKey, ids, owner);
    }
    DecryptConservesSessions(rec, m, newKey);
    if DecryptRecord(rec, m, newKey).1.Ok? {
      var i := Acceptor(rec, m, newKey);
      assert Stops(all[i], m, newKey);
      DecryptKeepsIdentity(all[i], m, newKey);
      assert FirstToAccept(all, i, p.baseKey, m, newKey);
    }
    if i :| FirstToAccept(all, i, p.baseKey, m, newKey) {
      FirstStopAccepts(rec, m, newKey, i);
    }
  }

  /** A search ends with the first session that stops it. */
  lemma FirstStopAccepts(rec: Record, m: SignalMessage, newKey: KeyId, i: nat)
    requires rec.current.Some? && i < |Sessions(rec)| && Decrypt(Sessions(rec)[i], m, newKey).1.Ok?
    requires forall j :: 0 <= j < i ==> !Stops(Sessions(rec)[j], m, newKey)
    ensures DecryptRecord(rec, m, newKey).1 == Decrypt(Sessions(rec)[i], m, newKey).1
  {
    hide Decrypt;
    var all := Sessions(rec);
    assert all[0] == rec.current.value;
    if i > 0 {
      assert !Stops(all[0], m, newKey);
      assert all[i] == rec.previous[i - 1];
      var k := FirstStop(rec.previous, m, newKey);
      forall j | 0 <= j < i - 1 ensures !Stops(rec.previous[j], m, newKey) {
        assert all[j + 1] == rec.previous[j];
      }
      assert Stops(rec.previous[i - 1], m, newKey);
      assert k == i - 1;
    }
  }

  /** If no session but `i` can stop the search, that session decides. */
  lemma LoneStopDecides(rec: Record, i: nat, m: SignalMessage, newKey: KeyId)
    requires Bounded(rec) && rec.current.Some?
    requires forall j :: 0 <= j < |Sessions(rec)| && j != i ==> !Stops(Sessions(rec)[j], m, newKey)
    ensures var (rec', r) := DecryptRecord(rec, m, newKey);
      && (r.Ok? <==> i < |Sessions(rec)| && Decrypt(Sessions(rec)[i], m, newKey).1.Ok?)
      && (r.Ok? ==> r == Decrypt(Sessions(rec)[i], m, newKey).1
                    && rec'.current == Some(Decrypt(Sessions(rec)[i], m, newKey).0))
  {
    hide Decrypt, DecryptRecord;
    DecryptConservesSessions(rec, m, newKey);
    if DecryptRecord(rec, m, newKey).1.Ok? {
      assert Stops(Sessions(rec)[Acceptor(rec, m, newKey)], m, newKey);
    }
    if i < |Sessions(rec)| && Decrypt(Sessions(rec)[i], m, newKey).1.Ok? { FirstStopAccepts(rec, m, newKey, i); }
  }

  /** With distinct ids, the one session of a base key needs no tie-break. */
  lemma OneSessionPerBase(rec: Record, ids: set<KeyId>, owner: map<KeyId, KeyId>, i: nat, j: nat)
    requires RecordFits(rec, ids, owner) && DistinctIds(rec)
    requires i < |Sessions(rec)| && j < |Sessions(rec)|
      && Sessions(rec)[i].aliceBaseKey == Sessions(rec)[j].aliceBaseKey
    ensures i == j
  {
    var all := Sessions(rec);
    assert SessionFits(all[i], ids, owner) && SessionFits(all[j], ids, owner);
    assert SameId(all[i], all[j]) && SameId(all[j], all[i]);
  }
}
