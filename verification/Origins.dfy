/** Every key of a session descends from its X3DH secrets, and a session opens only messages
    whose MAC key descends from them.  No honesty assumption on the message is made. */
module Origins {
  import opened Prelude
  import opened Crypto
  import opened Ratchet
  import opened Session
  import opened Record

  ghost predicate KeysFrom(skipped: seq<MessageKeys>, x: seq<Dh>) {
    forall i :: 0 <= i < |skipped| ==> ChainOrigin(skipped[i].macKey.chain) == x
  }

  ghost predicate ChainFrom(rc: ReceiverChain, x: seq<Dh>) {
    ChainOrigin(rc.chainKey.key) == x && KeysFrom(rc.skipped, x)
  }

  ghost predicate Rooted(s: Session, x: seq<Dh>) {
    RootOrigin(s.root) == x && forall j :: 0 <= j < |s.receivers| ==> ChainFrom(s.receivers[j], x)
  }

  lemma RootedOrigin(s: Session, x: seq<Dh>)
    requires Rooted(s, x)
    ensures RootOrigin(s.root) == x
  {
  }

  lemma {:induction false} SkipKeysFrom(c: ChainKey, skipped: seq<MessageKeys>, counter: u32, x: seq<Dh>)
    requires ChainOrigin(c.key) == x && KeysFrom(skipped, x)
    ensures var (c', skipped') := SkipKeys(c, skipped, counter);
      ChainOrigin(c'.key) == x && KeysFrom(skipped', x)
    decreases if c.index < counter then counter - c.index else 0
  {
    if c.index < counter {
      SkipKeysFrom(Next(c), InsertKeys(skipped, KeysOf(c)), counter, x);
    }
  }

  lemma TakeKeysFrom(rc: ReceiverChain, counter: u32, x: seq<Dh>)
    requires ChainFrom(rc, x)
    ensures ChainFrom(TakeKeys(rc, counter).0, x)
    ensures TakeKeys(rc, counter).1.Ok? ==> ChainOrigin(TakeKeys(rc, counter).1.value.macKey.chain) == x
  {
    if rc.chainKey.index <= counter {
      SkipKeysFrom(rc.chainKey, rc.skipped, counter, x);
    }
  }

  lemma PrepareChainRooted(s: Session, theirs: KeyId, newKey: KeyId, x: seq<Dh>)
    requires s.sender.Some? && Rooted(s, x)
    ensures Rooted(PrepareChain(s, theirs, newKey), x)
  {
    if FindChain(s.receivers, theirs) == |s.receivers| {
      var s1 := RatchetStep(s, theirs, newKey);
      var rc := ReceiverChain(theirs, CreateChain(s.Version(), s.root, theirs, s.sender.value.ratchetKey).1, []);
      assert s1.receivers == PushChain(s.receivers, rc);
      forall j | 0 <= j < |s1.receivers| ensures ChainFrom(s1.receivers[j], x) {
        assert s1.receivers[j] == rc || s1.receivers[j] in s.receivers;
      }
    }
  }

  lemma FetchKeysRooted(s: Session, theirs: KeyId, counter: u32, newKey: KeyId, x: seq<Dh>)
    requires s.sender.Some? && Rooted(s, x)
    ensures var (s', keys) := FetchKeys(s, theirs, counter, newKey);
      Rooted(s', x) && (keys.Ok? ==> ChainOrigin(keys.value.macKey.chain) == x)
  {
    hide TakeKeys;
    PrepareChainRooted(s, theirs, newKey, x);
    var s1 := PrepareChain(s, theirs, newKey);
    TakeKeysFrom(s1.receivers[FindChain(s1.receivers, theirs)], counter, x);
  }

  /** Whatever the message is, a session that opens it holds the MAC key's X3DH secrets. */
  lemma OpensOnlyOwnOrigin(s: Session, m: SignalMessage, newKey: KeyId, x: seq<Dh>)
    requires Rooted(s, x)
    ensures Rooted(Decrypt(s, m, newKey).0, x)
    ensures Decrypt(s, m, newKey).1.Ok? ==> m.tag.Hmac? && ChainOrigin(m.tag.key.chain) == x
  {
    hide FetchKeys;
    if s.sender.Some? && m.content.version == s.Version() && KdfVersion(s.Version()) {
      FetchKeysRooted(s, m.content.ratchetKey, m.content.counter, newKey, x);
      var fetched := FetchKeys(s, m.content.ratchetKey, m.content.counter, newKey);
      if Decrypt(s, m, newKey).1.Ok? {
        assert m.tag.key == fetched.1.value.macKey;
      }
    }
  }

  // ------------------------------------------------------------------------- records

  /** A session whose X3DH secrets are not `x`. */
  ghost predicate Foreign(s: Session, x: seq<Dh>) { Rooted(s, RootOrigin(s.root)) && RootOrigin(s.root) != x }

  ghost predicate AllForeign(rec: Record, x: seq<Dh>) {
    forall i :: 0 <= i < |Sessions(rec)| ==> Foreign(Sessions(rec)[i], x)
  }

  /** The session that accepts a message holds the secrets behind its MAC key. */
  lemma AcceptorHasOrigin(rec: Record, m: SignalMessage, newKey: KeyId)
    requires DecryptRecord(rec, m, newKey).1.Ok?
    requires forall i :: 0 <= i < |Sessions(rec)| ==> Rooted(Sessions(rec)[i], RootOrigin(Sessions(rec)[i].root))
    ensures m.tag.Hmac? && RootOrigin(Sessions(rec)[Acceptor(rec, m, newKey)].root) == ChainOrigin(m.tag.key.chain)
  {
    hide Decrypt;
    var i := Acceptor(rec, m, newKey);
    var s := Sessions(rec)[i];
    OpensOnlyOwnOrigin(s, m, newKey, RootOrigin(s.root));
    assert i > 0 ==> s == rec.previous[i - 1];
  }

  /** Archiving and promoting keep what is already there, or drop it. */
  lemma PromotedSessions(rec: Record, s: Session)
    ensures Promote(Archive(rec), s) == Promote(rec, s)
    ensures Sessions(Promote(rec, s)) == [s] + Sessions(rec)[..|Archive(rec).previous|]
  {
    assert Archive(rec).previous == Sessions(rec)[..|Archive(rec).previous|];
  }
}
