/** What somebody who copies a whole session state can compute: forward secrecy, and recovery
    after a compromise. */
module Secrecy {
  import opened Prelude
  import opened Crypto
  import opened Ratchet
  import opened Session
  import opened Origins
  import opened Lockstep
  import opened X3dh
  import opened Record
  import opened Store
  import opened PreKeyRuns
  import opened Handshake
  import opened Replays

  /** An agreement can be computed by whoever has the private key of one of its ends. */
  predicate KnowsDh(keys: iset<KeyId>, dh: Dh) { dh.lo in keys || dh.hi in keys }

  predicate KnowsSecrets(keys: iset<KeyId>, x: seq<Dh>) { forall i :: 0 <= i < |x| ==> KnowsDh(keys, x[i]) }

  /** The root keys that follow from a copied state and the private keys `keys`: the one in the
      state, those of X3DH secrets that can be computed, and each next one by an agreement that
      can be computed. */
  predicate KnowsRoot(s: Session, keys: iset<KeyId>, r: RootKey) {
    || r == s.root
    || (r.InitialRoot? && KnowsSecrets(keys, r.secrets))
    || (r.NextRoot? && KnowsRoot(s, keys, r.prev) && KnowsDh(keys, r.shared))
  }

  /** The chain secrets that follow: those in the state, those of X3DH secrets that can be
      computed, the chains of known roots, and the successors of all of them. */
  predicate KnowsChain(s: Session, keys: iset<KeyId>, c: ChainSecret) {
    || (s.sender.Some? && c == s.sender.value.chainKey.key)
    || (exists j :: 0 <= j < |s.receivers| && c == s.receivers[j].chainKey.key)
    || (c.InitialChain? && KnowsSecrets(keys, c.secrets))
    || (c.RatchetChain? && KnowsRoot(s, keys, c.root) && KnowsDh(keys, c.shared))
    || (c.NextChain? && KnowsChain(s, keys, c.prev))
  }

  /** The message keys that follow: those of known chains and the cached ones. */
  predicate KnowsKey(s: Session, keys: iset<KeyId>, k: Slice) {
    || KnowsChain(s, keys, k.chain)
    || exists j, p ::
         0 <= j < |s.receivers| && 0 <= p < |s.receivers[j].skipped| && IsPart(s.receivers[j].skipped[p], k)
  }

  predicate IsPart(mk: MessageKeys, k: Slice) { k == mk.cipherKey || k == mk.macKey || k == mk.iv }

  // ---------------------------------------------------------- private keys alone

  /** The root keys and chain secrets that follow from private keys without any state. */
  predicate RootFromKeys(keys: iset<KeyId>, r: RootKey) {
    match r
    case InitialRoot(x) => KnowsSecrets(keys, x)
    case NextRoot(_, prev, shared) => RootFromKeys(keys, prev) && KnowsDh(keys, shared)
  }

  predicate ChainFromKeys(keys: iset<KeyId>, c: ChainSecret) {
    match c
    case InitialChain(x) => KnowsSecrets(keys, x)
    case RatchetChain(_, root, shared) => RootFromKeys(keys, root) && KnowsDh(keys, shared)
    case NextChain(prev) => ChainFromKeys(keys, prev)
  }

  lemma {:induction false} RootFromKeysIsKnown(s: Session, keys: iset<KeyId>, r: RootKey)
    requires RootFromKeys(keys, r)
    ensures KnowsRoot(s, keys, r)
  {
    if r.NextRoot? { RootFromKeysIsKnown(s, keys, r.prev); }
  }

  lemma {:induction false} ChainFromKeysIsKnown(s: Session, keys: iset<KeyId>, c: ChainSecret)
    requires ChainFromKeys(keys, c)
    ensures KnowsChain(s, keys, c)
  {
    match c
    case InitialChain(_) =>
    case RatchetChain(_, root, _) => RootFromKeysIsKnown(s, keys, root);
    case NextChain(prev) => ChainFromKeysIsKnown(s, keys, prev);
  }

  /** Every agreement of the key lineage up to epoch `n` has an end in `keys`. */
  ghost predicate StepsKnown(keys: iset<KeyId>, ratchetKeys: seq<KeyId>, n: nat)
    requires n < |ratchetKeys|
  {
    forall j :: 1 <= j <= n ==> ratchetKeys[j] in keys || ratchetKeys[j - 1] in keys
  }

  lemma {:induction false} RootFromKeysIff(keys: iset<KeyId>, x: seq<Dh>, ratchetKeys: seq<KeyId>, n: nat)
    requires n < |ratchetKeys|
    ensures RootFromKeys(keys, RootAt(x, ratchetKeys, n)) <==> KnowsSecrets(keys, x) && StepsKnown(keys, ratchetKeys, n)
  {
    if n > 0 { RootFromKeysIff(keys, x, ratchetKeys, n - 1); }
  }

  lemma {:induction false} StepsStayFromKeys(keys: iset<KeyId>, c: ChainSecret, i: nat)
    ensures ChainFromKeys(keys, Nth(c, i)) <==> ChainFromKeys(keys, c)
  {
    if i > 0 { StepsStayFromKeys(keys, c, i - 1); }
  }

  /** What private keys alone give of a session: the keys of epoch `e` exactly if every X3DH
      agreement and every ratchet agreement up to that epoch has an end among them. */
  lemma EpochFromKeysIff(keys: iset<KeyId>, x: seq<Dh>, ratchetKeys: seq<KeyId>, e: nat, i: nat)
    requires e < |ratchetKeys|
    ensures ChainFromKeys(keys, Nth(ChainAt(x, ratchetKeys, e), i)) <==>
      KnowsSecrets(keys, x) && StepsKnown(keys, ratchetKeys, e)
  {
    StepsStayFromKeys(keys, ChainAt(x, ratchetKeys, e), i);
    if e > 0 { RootFromKeysIff(keys, x, ratchetKeys, e - 1); }
  }

  // ------------------------------------------------------------ what a state adds

  /** A known root follows from the private keys, or from the root in the state. */
  lemma {:induction false} KnownRootIsLater(s: Session, keys: iset<KeyId>, r: RootKey)
    requires KnowsRoot(s, keys, r)
    ensures RootFromKeys(keys, r) || (Depth(r) >= Depth(s.root) && RootOrigin(r) == RootOrigin(s.root))
  {
    if r != s.root && r.NextRoot? { KnownRootIsLater(s, keys, r.prev); }
  }

  /** Secret `c` lies at or after a chain of the state, or on a chain that is still to come. */
  ghost predicate Ahead(s: Session, c: ChainSecret) {
    || BaseDepth(c) > Depth(s.root)
    || (s.sender.Some? && !KeysSpent(s.sender.value.chainKey, [], c))
    || exists j :: 0 <= j < |s.receivers| && !KeysSpent(s.receivers[j].chainKey, [], c)
  }

  lemma {:induction false} KnownChainIsAhead(s: Session, keys: iset<KeyId>, c: ChainSecret)
    requires Sound(s) && KnowsChain(s, keys, c)
    ensures ChainFromKeys(keys, c) || (Ahead(s, c) && ChainOrigin(c) == RootOrigin(s.root))
  {
    hide ChainsSound;
    if s.sender.Some? && c == s.sender.value.chainKey.key {
      assert !KeysSpent(s.sender.value.chainKey, [], c);
    } else if j :| 0 <= j < |s.receivers| && c == s.receivers[j].chainKey.key {
      assert ChainFrom(s.receivers[j], RootOrigin(s.root));
      assert !KeysSpent(s.receivers[j].chainKey, [], c);
    } else if c.NextChain? {
      KnownChainIsAhead(s, keys, c.prev);
      if j :| 0 <= j < |s.receivers| && !KeysSpent(s.receivers[j].chainKey, [], c.prev) {
        assert !KeysSpent(s.receivers[j].chainKey, [], c);
      }
    } else if c.RatchetChain? {
      KnownRootIsLater(s, keys, c.root);
    }
  }

  /** For a spent secret, and every message key made of it, a copied state adds nothing to what the
      private keys alone give. */
  lemma SpentAddsNothing(s: Session, keys: iset<KeyId>, k: Slice)
    requires Sound(s) && (Spent(s, k.chain) || RootOrigin(s.root) != ChainOrigin(k.chain))
    ensures KnowsKey(s, keys, k) <==> ChainFromKeys(keys, k.chain)
  {
    if KnowsChain(s, keys, k.chain) { KnownChainIsAhead(s, keys, k.chain); }
    if ChainFromKeys(keys, k.chain) { ChainFromKeysIsKnown(s, keys, k.chain); }
    forall j, p | 0 <= j < |s.receivers| && 0 <= p < |s.receivers[j].skipped|
      ensures !IsPart(s.receivers[j].skipped[p], k) {
      assert KeysSound(s.receivers[j].chainKey, s.receivers[j].skipped);
      assert ChainFrom(s.receivers[j], RootOrigin(s.root));
    }
  }

  // ------------------------------------------------------------------ forward secrecy

  /** What a sent message's keys came from is spent. */
  lemma EncryptSpends(s: Session, plaintext: Bytes)
    requires Sound(s) && Encrypt(s, plaintext).1.Ok?
    ensures var (s', wire) := Encrypt(s, plaintext);
      var m := Inner(wire.value);
      Sound(s') && m.tag.Hmac? && Spent(s', m.tag.key.chain) && m.content.body.Cbc?
        && m.content.body.key.chain == m.tag.key.chain
  {
    var x := s.sender.value.chainKey.key;
    SendKeepsSession(s, plaintext, x);
    forall j | 0 <= j < |s.receivers| ensures KeysSpent(s.receivers[j].chainKey, s.receivers[j].skipped, x) {
      assert KeysSound(s.receivers[j].chainKey, s.receivers[j].skipped);
    }
  }

  lemma {:induction false} OpsKeepSpent(s: Session, ops: seq<SessionOp>, x: ChainSecret)
    requires Sound(s)
    ensures Sound(RunOps(s, ops)) && (Spent(s, x) ==> Spent(RunOps(s, ops), x))
    decreases |ops|
  {
    hide Decrypt, Encrypt, Sound, Spent;
    if ops != [] {
      match ops[0] {
        case Enc(plaintext) => SendKeepsSession(s, plaintext, x);
        case Dec(m, k) => DecryptSpends(s, m, k, x);
      }
      OpsKeepSpent(ApplyOp(s, ops[0]), ops[1..], x);
    }
  }

  /** Forward secrecy.  Once a session has accepted or sent a message, copying its state at any
      later time, together with any private keys, gives the keys of that message if and only if
      those private keys alone give them (see `EpochFromKeysIff`). */
  lemma ForwardSecrecy(s: Session, op: SessionOp, ops: seq<SessionOp>, keys: iset<KeyId>, m: SignalMessage)
    requires Sound(s)
    requires match op
      case Dec(m', k) => m == m' && Decrypt(s, m, k).1.Ok?
      case Enc(plaintext) => Encrypt(s, plaintext).1.Ok? && m == Inner(Encrypt(s, plaintext).1.value)
    ensures var end := RunOps(ApplyOp(s, op), ops);
      && m.tag.Hmac? && m.content.body.Cbc?
      && (KnowsKey(end, keys, m.tag.key) <==> ChainFromKeys(keys, m.tag.key.chain))
      && (KnowsKey(end, keys, m.content.body.key) <==> ChainFromKeys(keys, m.tag.key.chain))
  {
    hide Decrypt, Encrypt, Sound, Spent, KnowsKey, ChainFromKeys;
    match op {
      case Dec(_, k) => DecryptSpends(s, m, k, InitialChain([]));
      case Enc(plaintext) => EncryptSpends(s, plaintext);
    }
    var s', x := ApplyOp(s, op), m.tag.key.chain;
    OpsKeepSpent(s', ops, x);
    SpentAddsNothing(RunOps(s', ops), keys, m.tag.key);
    SpentAddsNothing(RunOps(s', ops), keys, m.content.body.key);
  }

  /** The same in terms of a session's history: the keys of message `(e, i)`, once it was accepted,
      are given away later exactly if every X3DH agreement and every ratchet agreement up to epoch
      `e` has an end among the private keys. */
  lemma EpochSecrecyIff(s: Session, h: History, e: nat, i: nat, k: KeyId, ops: seq<SessionOp>, keys: iset<KeyId>)
    requires Sound(s) && h.Valid() && e < |h.keys| && i < |h.ledgers[e].sent|
    requires Decrypt(s, MessageAt(h, e, i), k).1.Ok?
    ensures var end := RunOps(Decrypt(s, MessageAt(h, e, i), k).0, ops);
      KnowsKey(end, keys, MessageAt(h, e, i).tag.key) <==> KnowsSecrets(keys, h.secrets) && StepsKnown(keys, h.keys, e)
  {
    hide Decrypt, Sound, KnowsKey, KnowsSecrets, StepsKnown, ChainFromKeys;
    ForwardSecrecy(s, Dec(MessageAt(h, e, i), k), ops, keys, MessageAt(h, e, i));
    EpochFromKeysIff(keys, h.secrets, h.keys, e, i);
  }

  /** The same for the whole record of an address: after an acceptance and any run of the store
      that starts no session with the same secrets, no retained session adds anything. */
  lemma StoreForwardSecrecy(st: Store, steps: seq<StoreStep>, a: Address, k: Slice, keys: iset<KeyId>, i: nat)
    requires Closed(Load(st, a), k.chain) && NoRestart(st, steps, a, k.chain)
    requires i < |Sessions(Load(RunStore(st, steps), a))|
    ensures KnowsKey(Sessions(Load(RunStore(st, steps), a))[i], keys, k) <==> ChainFromKeys(keys, k.chain)
  {
    hide Sound, Spent, KnowsKey, NoRestart, ChainFromKeys;
    RunKeepsClosed(st, steps, a, k.chain);
    SpentAddsNothing(Sessions(Load(RunStore(st, steps), a))[i], keys, k);
  }

  /** The private keys in a store, its sessions apart. */
  ghost function StoredKeys(st: Store): iset<KeyId> {
    iset k: KeyId | k == st.identity || k in st.signedPreKeys.Values || k in st.preKeys.Values
  }

  /** The chain of an initiator's first message. */
  lemma FirstMessageChain(alice: Store, b: PreKeyBundle, baseKey: KeyId, sendingKey: KeyId, plaintext: Bytes)
    ensures var m := Inner(FirstMessage(alice, b, baseKey, sendingKey, plaintext));
      var x := AliceSecrets(InitiatorParameters(alice, b, baseKey));
      m.tag.Hmac? && m.tag.key.chain == RatchetChain(CURRENT_VERSION, InitialRoot(x), Agree(b.signedPreKey, sendingKey))
  {
  }

  /** Which agreements of a backed bundle the responder's keys give: all but the one-time one. */
  lemma ResponderKnowsAgreements(alice: Store, bob: Store, b: PreKeyBundle, baseKey: KeyId, keys: iset<KeyId>)
    requires BundleOf(b, bob) && bob.identity in keys && b.signedPreKey in keys
    ensures KnowsSecrets(keys, AliceSecrets(InitiatorParameters(alice, b, baseKey))) <==>
      (b.oneTime.Some? ==> b.oneTime.value.1 in keys || baseKey in keys)
  {
    var x := AliceSecrets(InitiatorParameters(alice, b, baseKey));
    assert x[0] == Agree(b.signedPreKey, alice.identity);
    assert x[1] == Agree(bob.identity, baseKey);
    assert x[2] == Agree(b.signedPreKey, baseKey);
    if b.oneTime.Some? { assert x[3] == Agree(b.oneTime.value.1, baseKey); }
  }

  /** The first message.  Right after the responder accepted it, the private keys in its store give
      the keys of the message if and only if the bundle had no one-time pre-key.  The one-time
      pre-key was stored once, and the base key is the initiator's alone. */
  lemma FirstMessageExposedIff(alice: Store, bob: Store, a: Address, b: PreKeyBundle, baseKey: KeyId, sendingKey: KeyId,
                               plaintext: Bytes, newKey: KeyId)
    requires BundleOf(b, bob) && UsableOneTimeKey(b) && Trusted(bob, a, alice.identity)
    requires !HasSession(Load(bob, a), CURRENT_VERSION, baseKey)
    requires sendingKey != b.signedPreKey && newKey != b.signedPreKey && newKey != sendingKey
    requires baseKey !in StoredKeys(bob)
    requires b.oneTime.Some? ==>
      b.oneTime.value.1 !in StoredKeys(bob.(preKeys := bob.preKeys - {b.oneTime.value.0}))
    ensures var wire := FirstMessage(alice, b, baseKey, sendingKey, plaintext);
      && wire.PreKey?
      && var (bob', text) := DecryptPreKeyAt(bob, a, wire.preKey, newKey);
         && text == Ok(plaintext) && Inner(wire).tag.Hmac?
         && (ChainFromKeys(StoredKeys(bob'), Inner(wire).tag.key.chain) <==> b.oneTime.None?)
  {
    hide Decrypt, DecryptRecord;
    ParametersMatch(alice, bob, b, baseKey, sendingKey, plaintext);
    var _ := FirstMessageOpens(alice, bob, b, baseKey, sendingKey, plaintext, newKey);
    NewSessionAcceptsFirst(alice, bob, a, b, baseKey, sendingKey, plaintext, newKey);
    FirstMessageChain(alice, b, baseKey, sendingKey, plaintext);
    var bob' := DecryptPreKeyAt(bob, a, FirstMessage(alice, b, baseKey, sendingKey, plaintext).preKey, newKey).0;
    assert bob'.preKeys == if b.oneTime.Some? then bob.preKeys - {b.oneTime.value.0} else bob.preKeys;
    assert b.signedPreKey in bob'.signedPreKeys.Values;
    ResponderKnowsAgreements(alice, bob, b, baseKey, StoredKeys(bob'));
  }

  /** Where forward secrecy stops.  Without a one-time pre-key, whoever copies the responder's
      session at any later time and has its identity key and signed pre-key has the keys of the
      first message. */
  lemma FirstMessageStaysExposed(alice: Store, bob: Store, b: PreKeyBundle, baseKey: KeyId, sendingKey: KeyId,
                                 plaintext: Bytes, keys: iset<KeyId>, later: Session)
    requires BundleOf(b, bob) && b.oneTime.None? && bob.identity in keys && b.signedPreKey in keys
    ensures var m := Inner(FirstMessage(alice, b, baseKey, sendingKey, plaintext));
      m.tag.Hmac? && KnowsKey(later, keys, m.tag.key)
  {
    FirstMessageChain(alice, b, baseKey, sendingKey, plaintext);
    ResponderKnowsAgreements(alice, bob, b, baseKey, keys);
    ChainFromKeysIsKnown(later, keys, Inner(FirstMessage(alice, b, baseKey, sendingKey, plaintext)).tag.key.chain);
  }

  // ------------------------------------------------------------------------ recovery

  /** State `s` is beyond what follows from the copied state `s0` and the private keys. */
  ghost predicate Healed(s: Session, s0: Session, keys: iset<KeyId>) {
    && Sound(s) && Depth(s.root) > Depth(s0.root)
    && !KnowsRoot(s0, keys, s.root)
    && s.sender.Some? && !KnowsChain(s0, keys, s.sender.value.chainKey.key)
  }

  lemma LaterChainIsNoOld(s0: Session, c: ChainSecret)
    requires Sound(s0) && BaseDepth(c) > Depth(s0.root)
    ensures s0.sender.Some? ==> c != s0.sender.value.chainKey.key
    ensures forall j :: 0 <= j < |s0.receivers| ==> c != s0.receivers[j].chainKey.key
  {
  }

  /** The first ratchet step with two keys that are not known leads out of what is known. */
  lemma RatchetHeals(s: Session, s0: Session, keys: iset<KeyId>, theirs: KeyId, newKey: KeyId)
    requires Sound(s0) && s.sender.Some? && Depth(s.root) >= Depth(s0.root)
    requires theirs !in keys && newKey !in keys
    ensures var s1 := RatchetStep(s, theirs, newKey);
      && Depth(s1.root) > Depth(s0.root) && !KnowsRoot(s0, keys, s1.root)
      && s1.sender.Some? && !KnowsChain(s0, keys, s1.sender.value.chainKey.key)
  {
    var s1 := RatchetStep(s, theirs, newKey);
    LaterChainIsNoOld(s0, s1.sender.value.chainKey.key);
  }

  /** Recovery.  A state was copied together with any private keys.  When the session, then or
      later, accepts a message on a new chain whose ratchet key is not among them, and the key it
      generates is not either, its root and its sending chain are out of reach. */
  lemma NewChainHeals(s: Session, s0: Session, keys: iset<KeyId>, m: SignalMessage, newKey: KeyId)
    requires Sound(s) && Sound(s0) && Depth(s.root) >= Depth(s0.root)
    requires Decrypt(s, m, newKey).1.Ok? && FindChain(s.receivers, m.content.ratchetKey) == |s.receivers|
    requires m.content.ratchetKey !in keys && newKey !in keys
    ensures Healed(Decrypt(s, m, newKey).0, s0, keys)
  {
    hide Sound, KnowsChain, KnowsRoot, TakeKeys;
    DecryptSpends(s, m, newKey, InitialChain([]));
    RatchetHeals(s, s0, keys, m.content.ratchetKey, newKey);
  }

  lemma HealedSend(s: Session, s0: Session, keys: iset<KeyId>, plaintext: Bytes)
    requires Healed(s, s0, keys) && Sound(s0)
    ensures Healed(Encrypt(s, plaintext).0, s0, keys)
  {
    SendKeepsSession(s, plaintext, InitialChain([]));
    LaterChainIsNoOld(s0, NextChain(s.sender.value.chainKey.key));
  }

  lemma HealedReceive(s: Session, s0: Session, keys: iset<KeyId>, m: SignalMessage, k: KeyId)
    requires Healed(s, s0, keys) && Sound(s0)
    ensures Healed(Decrypt(s, m, k).0, s0, keys)
  {
    hide TakeKeys, Sound;
    DecryptSpends(s, m, k, InitialChain([]));
    var s1 := PrepareChain(s, m.content.ratchetKey, k);
    UnknownRootStays(s, s0, keys, m.content.ratchetKey, k);
    assert Decrypt(s, m, k).0.root == s.root || Decrypt(s, m, k).0.root == s1.root;
  }

  lemma UnknownRootStays(s: Session, s0: Session, keys: iset<KeyId>, theirs: KeyId, k: KeyId)
    requires Healed(s, s0, keys) && Sound(s0)
    ensures var s1 := PrepareChain(s, theirs, k);
      && Depth(s1.root) > Depth(s0.root) && !KnowsRoot(s0, keys, s1.root)
      && s1.sender.Some? && !KnowsChain(s0, keys, s1.sender.value.chainKey.key)
  {
    if FindChain(s.receivers, theirs) == |s.receivers| {
      var s1 := RatchetStep(s, theirs, k);
      LaterChainIsNoOld(s0, s1.sender.value.chainKey.key);
    }
  }

  lemma {:induction false} HealedForGood(s: Session, ops: seq<SessionOp>, s0: Session, keys: iset<KeyId>)
    requires Healed(s, s0, keys) && Sound(s0)
    ensures Healed(RunOps(s, ops), s0, keys)
    decreases |ops|
  {
    hide Decrypt, Encrypt, Healed, Sound;
    if ops != [] {
      match ops[0] {
        case Enc(plaintext) => HealedSend(s, s0, keys, plaintext);
        case Dec(m, k) => HealedReceive(s, s0, keys, m, k);
      }
      HealedForGood(ApplyOp(s, ops[0]), ops[1..], s0, keys);
    }
  }

  /** Keys of a chain that is later than the copied state are unknown if its start is. */
  lemma {:induction false} LaterKeyIsUnknown(s0: Session, keys: iset<KeyId>, k: Slice)
    requires Sound(s0) && BaseDepth(k.chain) > Depth(s0.root) && !KnowsChain(s0, keys, k.chain)
    ensures !KnowsKey(s0, keys, k)
  {
    forall j, p | 0 <= j < |s0.receivers| && 0 <= p < |s0.receivers[j].skipped|
      ensures !IsPart(s0.receivers[j].skipped[p], k) {
      assert KeysSound(s0.receivers[j].chainKey, s0.receivers[j].skipped);
    }
  }

  lemma {:induction false} KnownOnlyFromItsStart(s0: Session, keys: iset<KeyId>, c: ChainSecret)
    requires Sound(s0) && BaseDepth(c) > Depth(s0.root) && KnowsChain(s0, keys, c)
    ensures KnowsChain(s0, keys, Base(c))
  {
    LaterChainIsNoOld(s0, c);
    if c.NextChain? { KnownOnlyFromItsStart(s0, keys, c.prev); }
  }

  /** After the recovery every message that the session ever sends has keys that do not follow
      from the copied state, whatever it received in between. */
  lemma SentAfterRecovery(s: Session, ops: seq<SessionOp>, s0: Session, keys: iset<KeyId>, plaintext: Bytes)
    requires Healed(s, s0, keys) && Sound(s0) && Encrypt(RunOps(s, ops), plaintext).1.Ok?
    ensures var m := Inner(Encrypt(RunOps(s, ops), plaintext).1.value);
      && m.tag.Hmac? && m.content.body.Cbc?
      && !KnowsKey(s0, keys, m.tag.key) && !KnowsKey(s0, keys, m.content.body.key)
  {
    hide KnowsKey, KnowsChain, KnowsRoot;
    HealedForGood(s, ops, s0, keys);
    var m := Inner(Encrypt(RunOps(s, ops), plaintext).1.value);
    LaterKeyIsUnknown(s0, keys, m.tag.key);
    LaterKeyIsUnknown(s0, keys, m.content.body.key);
  }

  /** The same for every message that it accepts on a chain opened after the recovery. */
  lemma ReceivedAfterRecovery(s: Session, ops: seq<SessionOp>, s0: Session, keys: iset<KeyId>, m: SignalMessage,
                              k: KeyId)
    requires Healed(s, s0, keys) && Sound(s0) && Decrypt(RunOps(s, ops), m, k).1.Ok?
    requires FindChain(RunOps(s, ops).receivers, m.content.ratchetKey) == |RunOps(s, ops).receivers|
    ensures m.tag.Hmac? && m.content.body.Cbc?
    ensures !KnowsKey(s0, keys, m.tag.key) && !KnowsKey(s0, keys, m.content.body.key)
  {
    hide KnowsKey, KnowsRoot, KnowsChain, Sound;
    var end := RunOps(s, ops);
    HealedForGood(s, ops, s0, keys);
    DecryptSpends(end, m, k, InitialChain([]));
    var x := m.tag.key.chain;
    AcceptedOnOpenedChain(end, m, k);
    OpenedChainIsUnknown(end, s0, keys, Base(x));
    if KnowsChain(s0, keys, x) { KnownOnlyFromItsStart(s0, keys, x); }
    LaterKeyIsUnknown(s0, keys, m.tag.key);
    LaterKeyIsUnknown(s0, keys, m.content.body.key);
  }

  lemma OpenedChainIsUnknown(s: Session, s0: Session, keys: iset<KeyId>, c: ChainSecret)
    requires Healed(s, s0, keys) && Sound(s0) && c.RatchetChain? && c.root == s.root
    ensures !KnowsChain(s0, keys, c)
  {
    LaterChainIsNoOld(s0, c);
  }

  /** A message accepted on an unknown ratchet key was keyed from the root at that time. */
  lemma AcceptedOnOpenedChain(s: Session, m: SignalMessage, k: KeyId)
    requires Sound(s) && Decrypt(s, m, k).1.Ok?
    requires FindChain(s.receivers, m.content.ratchetKey) == |s.receivers|
    ensures m.tag.Hmac? && Base(m.tag.key.chain).RatchetChain? && Base(m.tag.key.chain).root == s.root
  {
    hide TakeKeys, Sound;
    var theirs := m.content.ratchetKey;
    var rc := ReceiverChain(theirs, CreateChain(s.Version(), s.root, theirs, s.sender.value.ratchetKey).1, []);
    PushedChainIsFound(s.receivers, rc);
    var s1 := PrepareChain(s, theirs, k);
    assert s1.receivers[FindChain(s1.receivers, theirs)] == rc;
    TakeKeysSpends(rc, m.content.counter, InitialChain([]));
    assert m.tag.key == TakeKeys(rc, m.content.counter).1.value.macKey;
  }
}
