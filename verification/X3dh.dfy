/** `ratchet.rs`: the two initialisers, and why they start a lockstep pair. */
module X3dh {
  import opened Prelude
  import opened Crypto
  import opened Ratchet
  import opened Session
  import opened ReceiverChains
  import opened Lockstep

  datatype AliceParameters = AliceParameters(
    ourIdentity: KeyId, ourBaseKey: KeyId, theirIdentity: KeyId, theirSignedPreKey: KeyId,
    theirOneTimePreKey: Option<KeyId>, theirRatchetKey: KeyId)

  datatype BobParameters = BobParameters(
    ourIdentity: KeyId, ourSignedPreKey: KeyId, ourOneTimePreKey: Option<KeyId>, ourRatchetKey: KeyId,
    theirIdentity: KeyId, theirBaseKey: KeyId)

  function AliceSecrets(p: AliceParameters): seq<Dh> {
    [Agree(p.theirSignedPreKey, p.ourIdentity), Agree(p.theirIdentity, p.ourBaseKey),
     Agree(p.theirSignedPreKey, p.ourBaseKey)]
    + (if p.theirOneTimePreKey.Some? then [Agree(p.theirOneTimePreKey.value, p.ourBaseKey)] else [])
  }

  function BobSecrets(p: BobParameters): seq<Dh> {
    [Agree(p.theirIdentity, p.ourSignedPreKey), Agree(p.theirBaseKey, p.ourIdentity),
     Agree(p.theirBaseKey, p.ourSignedPreKey)]
    + (if p.ourOneTimePreKey.Some? then [Agree(p.theirBaseKey, p.ourOneTimePreKey.value)] else [])
  }

  function AliceSession(p: AliceParameters, sendingKey: KeyId): Session {
    var (root, chain) := DeriveKeys(AliceSecrets(p));
    var (sendingRoot, sendingChain) := CreateChain(CURRENT_VERSION, root, p.theirRatchetKey, sendingKey);
    Session(CURRENT_VERSION, p.ourIdentity, Some(p.theirIdentity), sendingRoot, 0,
            Some(SenderChain(sendingKey, sendingChain)), [ReceiverChain(p.theirRatchetKey, chain, [])], None, None)
  }

  function BobSession(p: BobParameters): Session {
    var (root, chain) := DeriveKeys(BobSecrets(p));
    Session(CURRENT_VERSION, p.ourIdentity, Some(p.theirIdentity), root, 0,
            Some(SenderChain(p.ourRatchetKey, chain)), [], None, None)
  }

  method InitializeAliceSession(p: AliceParameters, sendingKey: KeyId) returns (session: SessionState)
    ensures fresh(session) && session.Value() == AliceSession(p, sendingKey)
  {
    var secrets := [Agree(p.theirSignedPreKey, p.ourIdentity)];
    secrets := secrets + [Agree(p.theirIdentity, p.ourBaseKey)];
    secrets := secrets + [Agree(p.theirSignedPreKey, p.ourBaseKey)];
    if p.theirOneTimePreKey.Some? {
      secrets := secrets + [Agree(p.theirOneTimePreKey.value, p.ourBaseKey)];
    }
    assert secrets == AliceSecrets(p);
    var (root, chain) := DeriveKeys(secrets);
    var sending := CreateChain(CURRENT_VERSION, root, p.theirRatchetKey, sendingKey);
    session := new SessionState(
      Session(CURRENT_VERSION, p.ourIdentity, Some(p.theirIdentity), sending.0, 0, None, [], None, None));
    session.AddReceiverChain(p.theirRatchetKey, chain);
    session.sender := Some(SenderChain(sendingKey, sending.1));
  }

  method InitializeBobSession(p: BobParameters) returns (session: SessionState)
    ensures fresh(session) && session.Value() == BobSession(p)
  {
    var secrets := [Agree(p.theirIdentity, p.ourSignedPreKey)];
    secrets := secrets + [Agree(p.theirBaseKey, p.ourIdentity)];
    secrets := secrets + [Agree(p.theirBaseKey, p.ourSignedPreKey)];
    if p.ourOneTimePreKey.Some? {
      secrets := secrets + [Agree(p.theirBaseKey, p.ourOneTimePreKey.value)];
    }
    assert secrets == BobSecrets(p);
    var (root, chain) := DeriveKeys(secrets);
    session := new SessionState(
      Session(CURRENT_VERSION, p.ourIdentity, Some(p.theirIdentity), root, 0, None, [], None, None));
    session.sender := Some(SenderChain(p.ourRatchetKey, chain));
  }

  /** Bob names Alice's public keys and Alice names Bob's, one-time pre-keys aside. */
  predicate Matching(a: AliceParameters, b: BobParameters) {
    && a.ourIdentity == b.theirIdentity && a.ourBaseKey == b.theirBaseKey
    && a.theirIdentity == b.ourIdentity && a.theirSignedPreKey == b.ourSignedPreKey
    && a.theirRatchetKey == b.ourRatchetKey
  }

  /** Both sides derive the same secrets exactly when they use the same one-time pre-key. */
  lemma SecretsAgreeIff(a: AliceParameters, b: BobParameters)
    requires Matching(a, b)
    ensures AliceSecrets(a) == BobSecrets(b) <==> a.theirOneTimePreKey == b.ourOneTimePreKey
  {
    var x, y := AliceSecrets(a), BobSecrets(b);
    if a.theirOneTimePreKey.Some? && b.ourOneTimePreKey.Some? {
      AgreeInjective(a.ourBaseKey, a.theirOneTimePreKey.value, b.ourOneTimePreKey.value);
      AgreeInjective(a.theirOneTimePreKey.value, a.ourBaseKey, a.ourBaseKey);
      assert x[3] == Agree(a.theirOneTimePreKey.value, a.ourBaseKey);
      assert y[3] == Agree(a.ourBaseKey, b.ourOneTimePreKey.value);
    }
  }

  predicate SameInitiator(a: AliceParameters, a': AliceParameters) {
    a.ourIdentity == a'.ourIdentity && a.ourBaseKey == a'.ourBaseKey
  }

  predicate SameResponder(b: BobParameters, b': BobParameters) {
    b.ourIdentity == b'.ourIdentity && b.ourSignedPreKey == b'.ourSignedPreKey
  }

  /** Each side's secrets pin down every key of the other side. */
  lemma SecretsBindPeer(a: AliceParameters, a': AliceParameters, b: BobParameters, b': BobParameters)
    ensures SameInitiator(a, a') && AliceSecrets(a) == AliceSecrets(a') ==>
      && a.theirIdentity == a'.theirIdentity && a.theirSignedPreKey == a'.theirSignedPreKey
      && a.theirOneTimePreKey == a'.theirOneTimePreKey
    ensures SameResponder(b, b') && BobSecrets(b) == BobSecrets(b') ==>
      && b.theirIdentity == b'.theirIdentity && b.theirBaseKey == b'.theirBaseKey
      && b.ourOneTimePreKey == b'.ourOneTimePreKey
  {
    AliceSecretsBind(a, a');
    BobSecretsBind(b, b');
  }

  lemma AliceSecretsBind(a: AliceParameters, a': AliceParameters)
    ensures SameInitiator(a, a') && AliceSecrets(a) == AliceSecrets(a') ==>
      && a.theirIdentity == a'.theirIdentity && a.theirSignedPreKey == a'.theirSignedPreKey
      && a.theirOneTimePreKey == a'.theirOneTimePreKey
  {
    var x, x' := AliceSecrets(a), AliceSecrets(a');
    if x == x' && SameInitiator(a, a') {
      assert x[0] == x'[0] && x[1] == x'[1];
      if |x| == 4 { assert x[3] == x'[3]; }
    }
  }

  lemma BobSecretsBind(b: BobParameters, b': BobParameters)
    ensures SameResponder(b, b') && BobSecrets(b) == BobSecrets(b') ==>
      && b.theirIdentity == b'.theirIdentity && b.theirBaseKey == b'.theirBaseKey
      && b.ourOneTimePreKey == b'.ourOneTimePreKey
  {
    var x, x' := BobSecrets(b), BobSecrets(b');
    if x == x' && SameResponder(b, b') {
      assert x[0] == x'[0] && x[1] == x'[1];
      if |x| == 4 { assert x[3] == x'[3]; }
    }
  }

  function InitialHistory(a: AliceParameters, sendingKey: KeyId): History {
    History(AliceSecrets(a), a.ourIdentity, a.theirIdentity, [a.theirRatchetKey, sendingKey],
      [EmptyLedger, EmptyLedger])
  }

  /** Matching initialisations with one one-time pre-key start in the lockstep invariant. */
  lemma InitialisersStartLockstep(a: AliceParameters, b: BobParameters, sendingKey: KeyId)
    requires Matching(a, b) && a.theirOneTimePreKey == b.ourOneTimePreKey
    requires sendingKey != a.theirRatchetKey
    ensures Inv(System(AliceSession(a, sendingKey), BobSession(b), InitialHistory(a, sendingKey)))
  {
    SecretsAgreeIff(a, b);
    var h := InitialHistory(a, sendingKey);
    var s := AliceSession(a, sendingKey);
    assert h.Valid();
    assert Epoch(h, Initiator) == 1 && Epoch(h, Responder) == 0;
    assert RootAt(h.secrets, h.keys, 1) == s.root by {
      AgreeInjective(a.theirRatchetKey, sendingKey, sendingKey);
      assert RootAt(h.secrets, h.keys, 0) == InitialRoot(h.secrets);
    }
    TracksWindow(s.receivers[0], h.Chain(0), 0, []);
    assert ChainOk(s.receivers[0], h, 0);
  }
}
