/** When a message that was accepted once is accepted again, at the level of the store.  No
    honesty assumption on any message is made: the argument is about key terms alone. */
module Replays {
  import opened Prelude
  import opened Crypto
  import opened Ratchet
  import opened Session
  import opened Origins
  import opened Record
  import opened Store
  import opened PreKeyRuns
  import opened Handshake

  // -------------------------------------------------------------------- one chain

  /** The ratchet step at which the chain of a secret was opened; 0 for the X3DH chain. */
  function BaseDepth(c: ChainSecret): nat {
    if Base(c).RatchetChain? then 1 + Depth(Base(c).root) else 0
  }

  /** The three parts of a message key are the byte ranges 0 to 32, 32 to 64 and 64 to 80 of one
      chain secret's material. */
  predicate OneChain(k: MessageKeys) {
    k.macKey.(lo := 0, hi := 32) == k.cipherKey && k.macKey.(lo := 64, hi := 80) == k.iv
    && k.macKey.lo == 32 && k.macKey.hi == 64
  }

  /** Cached keys are earlier keys of the chain, each cached once. */
  ghost predicate KeysSound(c: ChainKey, skipped: seq<MessageKeys>) {
    && (forall p :: 0 <= p < |skipped| ==>
          && Base(skipped[p].macKey.chain) == Base(c.key) && Steps(skipped[p].macKey.chain) < Steps(c.key)
          && OneChain(skipped[p]))
    && (forall p, q :: 0 <= p < q < |skipped| ==> skipped[p].macKey.chain != skipped[q].macKey.chain)
  }

  /** The chain is past `x` and does not cache it. */
  ghost predicate KeysSpent(c: ChainKey, skipped: seq<MessageKeys>, x: ChainSecret) {
    && (Base(c.key) == Base(x) ==> Steps(x) < Steps(c.key))
    && (forall p :: 0 <= p < |skipped| ==> skipped[p].macKey.chain != x)
  }

  lemma InsertKeepsSound(c: ChainKey, skipped: seq<MessageKeys>, x: ChainSecret)
    requires KeysSound(c, skipped)
    ensures KeysSound(Next(c), InsertKeys(skipped, KeysOf(c)))
    ensures KeysSpent(c, skipped, x) ==> KeysSpent(Next(c), InsertKeys(skipped, KeysOf(c)), x)
  {
    var q := InsertKeys(skipped, KeysOf(c));
    forall i | 1 <= i < |q| ensures q[i] == skipped[i - 1] {
    }
  }

  lemma {:induction false} SkipKeepsSound(c: ChainKey, skipped: seq<MessageKeys>, counter: u32, x: ChainSecret)
    requires KeysSound(c, skipped)
    ensures var (c', skipped') := SkipKeys(c, skipped, counter);
      && KeysSound(c', skipped') && Base(c'.key) == Base(c.key) && Steps(c.key) <= Steps(c'.key)
      && (KeysSpent(c, skipped, x) ==> KeysSpent(c', skipped', x))
    decreases if c.index < counter then counter - c.index else 0
  {
    if c.index < counter {
      InsertKeepsSound(c, skipped, x);
      SkipKeepsSound(Next(c), InsertKeys(skipped, KeysOf(c)), counter, x);
    }
  }

  lemma RemoveKeepsSound(c: ChainKey, skipped: seq<MessageKeys>, p: nat, x: ChainSecret)
    requires KeysSound(c, skipped) && p < |skipped|
    ensures KeysSound(c, RemoveAt(skipped, p)) && KeysSpent(c, RemoveAt(skipped, p), skipped[p].macKey.chain)
    ensures KeysSpent(c, skipped, x) ==> KeysSpent(c, RemoveAt(skipped, p), x)
  {
    var rest := RemoveAt(skipped, p);
    forall i | 0 <= i < |rest| ensures rest[i] == skipped[if i < p then i else i + 1] {
    }
  }

  /** A chain hands out each key once: what it hands out is spent, and stays spent. */
  lemma TakeKeysSpends(rc: ReceiverChain, counter: u32, x: ChainSecret)
    requires KeysSound(rc.chainKey, rc.skipped)
    ensures var (rc', keys) := TakeKeys(rc, counter);
      && KeysSound(rc'.chainKey, rc'.skipped) && Base(rc'.chainKey.key) == Base(rc.chainKey.key)
      && rc'.ratchetKey == rc.ratchetKey
      && (keys.Ok? ==> Base(keys.value.macKey.chain) == Base(rc.chainKey.key) && OneChain(keys.value)
                       && KeysSpent(rc'.chainKey, rc'.skipped, keys.value.macKey.chain))
      && (KeysSpent(rc.chainKey, rc.skipped, x) ==>
          KeysSpent(rc'.chainKey, rc'.skipped, x) && (keys.Ok? ==> keys.value.macKey.chain != x))
  {
    if rc.chainKey.index > counter {
      var p := FindKeys(rc.skipped, counter);
      if p < |rc.skipped| { RemoveKeepsSound(rc.chainKey, rc.skipped, p, x); }
    } else if counter - rc.chainKey.index <= MAX_FORWARD_JUMPS {
      SkipKeepsSound(rc.chainKey, rc.skipped, counter, x);
    }
  }

  // ------------------------------------------------------------------ one session

  /** Receiver chains were opened at different steps, all behind the current root. */
  ghost predicate ChainsSound(chains: seq<ReceiverChain>, depth: nat) {
    && (forall j :: 0 <= j < |chains| ==>
          KeysSound(chains[j].chainKey, chains[j].skipped) && BaseDepth(chains[j].chainKey.key) < depth)
    && (forall i, j :: 0 <= i < j < |chains| ==> BaseDepth(chains[i].chainKey.key) != BaseDepth(chains[j].chainKey.key))
  }

  ghost predicate ChainsSpent(chains: seq<ReceiverChain>, depth: nat, x: ChainSecret) {
    && BaseDepth(x) <= depth
    && forall j :: 0 <= j < |chains| ==> KeysSpent(chains[j].chainKey, chains[j].skipped, x)
  }

  /** The sending chain was opened by the last ratchet step. */
  ghost predicate SenderSound(s: Session) {
    s.sender.Some? ==> && BaseDepth(s.sender.value.chainKey.key) == Depth(s.root)
                       && ChainOrigin(s.sender.value.chainKey.key) == RootOrigin(s.root)
  }

  ghost predicate Sound(s: Session) {
    && s.Version() == CURRENT_VERSION
    && Rooted(s, RootOrigin(s.root))
    && ChainsSound(s.receivers, Depth(s.root))
    && SenderSound(s)
  }

  /** The session can never again derive the chain secret `x`. */
  ghost predicate Spent(s: Session, x: ChainSecret) {
    ChainsSpent(s.receivers, Depth(s.root), x) && (s.sender.Some? ==> KeysSpent(s.sender.value.chainKey, [], x))
  }

  lemma PushKeepsSound(chains: seq<ReceiverChain>, rc: ReceiverChain, depth: nat, x: ChainSecret)
    requires ChainsSound(chains, depth) && BaseDepth(rc.chainKey.key) == depth + 1 && rc.skipped == []
    ensures ChainsSound(PushChain(chains, rc), depth + 2)
    ensures ChainsSpent(chains, depth, x) ==> ChainsSpent(PushChain(chains, rc), depth + 2, x)
  {
    assert KeysSound(rc.chainKey, rc.skipped);
    hide KeysSound;
    var q, off := PushChain(chains, rc), if |chains| + 1 > MAX_RECEIVER_CHAINS then 1 else 0;
    forall j | 0 <= j < |q| - 1 ensures q[j] == chains[j + off] {
    }
    assert q[|q| - 1] == rc;
  }

  lemma PrepareKeepsSound(s: Session, theirs: KeyId, newKey: KeyId, x: ChainSecret)
    requires s.sender.Some? && ChainsSound(s.receivers, Depth(s.root)) && SenderSound(s)
    ensures var s1 := PrepareChain(s, theirs, newKey);
      && ChainsSound(s1.receivers, Depth(s1.root)) && SenderSound(s1) && s1.sender.Some?
      && (Spent(s, x) ==> Spent(s1, x))
  {
    if FindChain(s.receivers, theirs) == |s.receivers| {
      var rc := ReceiverChain(theirs, CreateChain(s.Version(), s.root, theirs, s.sender.value.ratchetKey).1, []);
      PushKeepsSound(s.receivers, rc, Depth(s.root), x);
    }
  }

  /** Advancing one chain of several. */
  lemma UpdateKeepsSound(chains: seq<ReceiverChain>, j: nat, rc: ReceiverChain, depth: nat, x: ChainSecret)
    requires ChainsSound(chains, depth) && j < |chains|
    requires KeysSound(rc.chainKey, rc.skipped) && Base(rc.chainKey.key) == Base(chains[j].chainKey.key)
    ensures ChainsSound(chains[j := rc], depth)
    ensures ChainsSpent(chains, depth, x) && KeysSpent(rc.chainKey, rc.skipped, x) ==>
      ChainsSpent(chains[j := rc], depth, x)
    ensures Base(x) == Base(rc.chainKey.key) && KeysSpent(rc.chainKey, rc.skipped, x) ==>
      ChainsSpent(chains[j := rc], depth, x)
  {
    var after := chains[j := rc];
    forall i | 0 <= i < |chains| && i != j && Base(x) == Base(rc.chainKey.key)
      ensures KeysSpent(after[i].chainKey, after[i].skipped, x) {
      assert BaseDepth(chains[i].chainKey.key) != BaseDepth(chains[j].chainKey.key);
    }
  }

  /** A secret of an earlier ratchet step is none of the sending chain. */
  lemma SenderIsPast(s: Session, x: ChainSecret)
    requires s.sender.Some? && SenderSound(s) && BaseDepth(x) < Depth(s.root)
    ensures KeysSpent(s.sender.value.chainKey, [], x)
  {
  }

  lemma FetchKeysSpends(s: Session, theirs: KeyId, counter: u32, newKey: KeyId, x: ChainSecret)
    requires s.sender.Some? && ChainsSound(s.receivers, Depth(s.root)) && SenderSound(s)
    ensures var (s', keys) := FetchKeys(s, theirs, counter, newKey);
      && ChainsSound(s'.receivers, Depth(s'.root)) && SenderSound(s')
      && (keys.Ok? ==> Spent(s', keys.value.macKey.chain) && OneChain(keys.value))
      && (Spent(s, x) ==> Spent(s', x) && (keys.Ok? ==> keys.value.macKey.chain != x))
  {
    hide TakeKeys, KeysSound, KeysSpent, PrepareChain;
    PrepareKeepsSound(s, theirs, newKey, x);
    var s1 := PrepareChain(s, theirs, newKey);
    var j := FindChain(s1.receivers, theirs);
    var (rc, keys) := TakeKeys(s1.receivers[j], counter);
    TakeKeysSpends(s1.receivers[j], counter, x);
    UpdateKeepsSound(s1.receivers, j, rc, Depth(s1.root), x);
    if keys.Ok? {
      UpdateKeepsSound(s1.receivers, j, rc, Depth(s1.root), keys.value.macKey.chain);
      SenderIsPast(s1, keys.value.macKey.chain);
    }
  }

  /** What an accepted message's MAC key came from is spent, stays spent, and opens nothing. */
  lemma DecryptSpends(s: Session, m: SignalMessage, newKey: KeyId, x: ChainSecret)
    requires Sound(s)
    ensures var (s', r) := Decrypt(s, m, newKey);
      && Sound(s')
      && (r.Ok? ==> && m.tag.Hmac? && Spent(s', m.tag.key.chain)
                    && m.content.body == Cbc(m.tag.key.(lo := 0, hi := 32), m.tag.key.(lo := 64, hi := 80), r.value)
                    && m.tag.key.lo == 32 && m.tag.key.hi == 64 && s.remoteIdentity.Some?
                    && m.tag == Hmac(m.tag.key, s.remoteIdentity.value, s.localIdentity, m.content))
      && (Spent(s, x) ==> Spent(s', x) && (r.Ok? ==> m.tag.key.chain != x))
  {
    hide FetchKeys, ChainsSound, ChainsSpent, Rooted;
    OpensOnlyOwnOrigin(s, m, newKey, RootOrigin(s.root));
    RootedOrigin(Decrypt(s, m, newKey).0, RootOrigin(s.root));
    DecryptKeepsIdentity(s, m, newKey);
    if s.sender.Some? {
      FetchKeysSpends(s, m.content.ratchetKey, m.content.counter, newKey, x);
      var keys := FetchKeys(s, m.content.ratchetKey, m.content.counter, newKey).1;
      if Decrypt(s, m, newKey).1.Ok? { assert m.tag.key == keys.value.macKey; }
    }
  }

  /** The new ratchet key decides nothing about the result. */
  lemma ResultIgnoresNewKey(s: Session, m: SignalMessage, k: KeyId, k': KeyId)
    ensures Decrypt(s, m, k).1 == Decrypt(s, m, k').1
  {
    hide TakeKeys;
    if s.sender.Some? {
      assert PrepareChain(s, m.content.ratchetKey, k).receivers == PrepareChain(s, m.content.ratchetKey, k').receivers;
    }
  }

  // ------------------------------------------------------------------- one record

  ghost predicate SoundRecord(rec: Record) {
    Bounded(rec) && forall i :: 0 <= i < |Sessions(rec)| ==> Sound(Sessions(rec)[i])
  }

  /** No retained session with the secrets behind `x` can derive `x`. */
  ghost predicate Closed(rec: Record, x: ChainSecret) {
    && SoundRecord(rec)
    && forall i :: 0 <= i < |Sessions(rec)| && RootOrigin(Sessions(rec)[i].root) == ChainOrigin(x) ==>
       Spent(Sessions(rec)[i], x)
  }

  lemma ClosedRejects(rec: Record, m: SignalMessage, newKey: KeyId)
    requires m.tag.Hmac? && Closed(rec, m.tag.key.chain)
    ensures DecryptRecord(rec, m, newKey).1.Err?
  {
    hide Decrypt, DecryptRecord, Spent, ChainsSound;
    if DecryptRecord(rec, m, newKey).1.Ok? {
      AcceptorHasOrigin(rec, m, newKey);
      DecryptConservesSessions(rec, m, newKey);
      DecryptSpends(Sessions(rec)[Acceptor(rec, m, newKey)], m, newKey, m.tag.key.chain);
    }
  }

  ghost predicate OthersClosed(all: seq<Session>, i: nat, x: ChainSecret) {
    forall j :: 0 <= j < |all| && j != i && RootOrigin(all[j].root) == ChainOrigin(x) ==> Spent(all[j], x)
  }

  lemma MoveKeepsSound(rec: Record, i: nat, s: Session, rec': Record, x: ChainSecret)
    requires SoundRecord(rec) && i < |Sessions(rec)| && Sound(s)
    requires Bounded(rec') && Sessions(rec') == [s] + RemoveAt(Sessions(rec), i)
    ensures SoundRecord(rec')
    ensures OthersClosed(Sessions(rec), i, x) && (RootOrigin(s.root) == ChainOrigin(x) ==> Spent(s, x)) ==>
      Closed(rec', x)
  {
    hide Sound, Spent;
    var all, all' := Sessions(rec), Sessions(rec');
    forall j | 1 <= j < |all'| ensures all'[j] == all[if j <= i then j - 1 else j] {
    }
  }

  lemma DecryptKeepsClosed(rec: Record, m: SignalMessage, newKey: KeyId, x: ChainSecret)
    requires SoundRecord(rec)
    ensures SoundRecord(DecryptRecord(rec, m, newKey).0)
    ensures Closed(rec, x) ==> Closed(DecryptRecord(rec, m, newKey).0, x)
  {
    hide Decrypt, DecryptRecord, Sound, Spent;
    var (rec', r) := DecryptRecord(rec, m, newKey);
    DecryptConservesSessions(rec, m, newKey);
    if r.Ok? {
      var i := Acceptor(rec, m, newKey);
      var s := Sessions(rec)[i];
      DecryptSpends(s, m, newKey, x);
      DecryptKeepsBacking(s, m, newKey);
      MoveKeepsSound(rec, i, Decrypt(s, m, newKey).0, rec', x);
    }
  }

  /** Acceptance closes a record to the message, if only the acceptor has its secrets. */
  lemma AcceptanceCloses(rec: Record, m: SignalMessage, newKey: KeyId)
    requires SoundRecord(rec) && DecryptRecord(rec, m, newKey).1.Ok? && m.tag.Hmac?
    requires forall j :: 0 <= j < |Sessions(rec)| && j != Acceptor(rec, m, newKey) ==>
      RootOrigin(Sessions(rec)[j].root) != ChainOrigin(m.tag.key.chain)
    ensures Closed(DecryptRecord(rec, m, newKey).0, m.tag.key.chain)
  {
    hide Decrypt, DecryptRecord, Sound, Spent;
    DecryptConservesSessions(rec, m, newKey);
    var i := Acceptor(rec, m, newKey);
    DecryptSpends(Sessions(rec)[i], m, newKey, m.tag.key.chain);
    MoveKeepsSound(rec, i, Decrypt(Sessions(rec)[i], m, newKey).0, DecryptRecord(rec, m, newKey).0, m.tag.key.chain);
  }

  lemma PromoteKeepsClosed(rec: Record, s: Session, x: ChainSecret)
    requires SoundRecord(rec) && Sound(s)
    ensures SoundRecord(Promote(rec, s)) && Promote(Archive(rec), s) == Promote(rec, s)
    ensures Closed(rec, x) && RootOrigin(s.root) != ChainOrigin(x) ==> Closed(Promote(rec, s), x)
  {
    hide Sound, Spent;
    PromotedSessions(rec, s);
  }

  lemma ArchiveKeepsClosed(rec: Record, x: ChainSecret)
    requires SoundRecord(rec)
    ensures SoundRecord(Archive(rec)) && (Closed(rec, x) ==> Closed(Archive(rec), x))
  {
    hide Sound, Spent;
    assert Sessions(Archive(rec)) == Sessions(rec)[..|Archive(rec).previous|];
  }

  /** In front of a closed record a new session alone decides. */
  lemma NewSessionDecides(rec: Record, s: Session, m: SignalMessage, newKey: KeyId)
    requires m.tag.Hmac? && Closed(rec, m.tag.key.chain) && Sound(s)
    ensures DecryptRecord(Promote(rec, s), m, newKey).1.Ok? <==> Decrypt(s, m, newKey).1.Ok?
    ensures Decrypt(s, m, newKey).1.Ok? ==> DecryptRecord(Promote(rec, s), m, newKey).1 == Decrypt(s, m, newKey).1
  {
    hide Decrypt, Spent, ChainsSound;
    var all := Sessions(Promote(rec, s));
    PromotedSessions(rec, s);
    if DecryptRecord(Promote(rec, s), m, newKey).1.Ok? {
      var i := Acceptor(Promote(rec, s), m, newKey);
      DecryptConservesSessions(Promote(rec, s), m, newKey);
      if i > 0 {
        assert all[i] == Sessions(rec)[i - 1];
        AcceptorHasOrigin(Promote(rec, s), m, newKey);
        DecryptSpends(all[i], m, newKey, m.tag.key.chain);
      }
    }
  }

  // -------------------------------------------------------------------- one store

  /** The session that a step starts at an address. */
  function Starts(st: Store, step: StoreStep, a: Address): Option<Session> {
    match step
    case ProcessBundle(a', b, baseKey, sendingKey) =>
      if a' == a then Some(InitiatorSession(st, b, baseKey, sendingKey)) else None
    case DecryptPreKey(a', pm, _) =>
      if a' == a && !HasSession(Load(st, a), pm.version, pm.baseKey) && ResponderSession(st, pm).Ok?
      then Some(ResponderSession(st, pm).value) else None
    case _ => None
  }

  /** No session with the secrets behind `x` is started. */
  predicate StartsOther(st: Store, step: StoreStep, a: Address, x: ChainSecret) {
    Starts(st, step, a).Some? ==> RootOrigin(Starts(st, step, a).value.root) != ChainOrigin(x)
  }

  lemma StartedIsSound(st: Store, step: StoreStep, a: Address)
    requires Starts(st, step, a).Some?
    ensures Sound(Starts(st, step, a).value)
  {
  }

  lemma SendKeepsClosed(rec: Record, plaintext: Bytes, x: ChainSecret)
    requires SoundRecord(rec) && rec.current.Some?
    ensures var rec' := rec.(current := Some(Encrypt(rec.current.value, plaintext).0));
      SoundRecord(rec') && (Closed(rec, x) ==> Closed(rec', x))
  {
    var s, rec' := rec.current.value, rec.(current := Some(Encrypt(rec.current.value, plaintext).0));
    assert Sessions(rec)[0] == s && Sound(s);
    assert RemoveAt(Sessions(rec), 0) == rec.previous;
    SendKeepsSession(s, plaintext, x);
    hide Sound, Spent, Encrypt;
    MoveKeepsSound(rec, 0, rec'.current.value, rec', x);
  }

  lemma SendKeepsSession(s: Session, plaintext: Bytes, x: ChainSecret)
    requires Sound(s)
    ensures var s' := Encrypt(s, plaintext).0;
      Sound(s') && (Spent(s, x) ==> Spent(s', x)) && s'.root == s.root
  {
    hide ChainsSound, ChainsSpent;
  }

  lemma PreKeyStepKeepsClosed(st: Store, a: Address, pm: PreKeySignalMessage, newKey: KeyId, x: ChainSecret)
    requires SoundRecord(Load(st, a))
    ensures var rec' := Load(DecryptPreKeyAt(st, a, pm, newKey).0, a);
      && SoundRecord(rec')
      && (Closed(Load(st, a), x) && StartsOther(st, DecryptPreKey(a, pm, newKey), a, x) ==> Closed(rec', x))
  {
    hide Decrypt, DecryptRecord, Sound, Spent;
    if DecryptPreKeyAt(st, a, pm, newKey).1.Ok? {
      PreKeyOutcome(st, a, pm, newKey);
      var rec := Load(st, a);
      if HasSession(rec, pm.version, pm.baseKey) {
        DecryptKeepsClosed(rec, pm.message, newKey, x);
      } else {
        var s := ResponderSession(st, pm).value;
        StartedIsSound(st, DecryptPreKey(a, pm, newKey), a);
        PromoteKeepsClosed(rec, s, x);
        DecryptKeepsClosed(Promote(rec, s), pm.message, newKey, x);
      }
    }
  }

  lemma BundleStepKeepsClosed(st: Store, a: Address, b: PreKeyBundle, baseKey: KeyId, sendingKey: KeyId, x: ChainSecret)
    requires SoundRecord(Load(st, a))
    ensures var rec' := Load(ProcessBundleAt(st, a, b, baseKey, sendingKey).0, a);
      && SoundRecord(rec')
      && (Closed(Load(st, a), x) && StartsOther(st, ProcessBundle(a, b, baseKey, sendingKey), a, x) ==> Closed(rec', x))
  {
    hide Sound, Spent;
    StartedIsSound(st, ProcessBundle(a, b, baseKey, sendingKey), a);
    PromoteKeepsClosed(Load(st, a), InitiatorSession(st, b, baseKey, sendingKey), x);
  }

  /** A step for another address leaves the record of `a` alone. */
  lemma OtherAddressUntouched(st: Store, step: StoreStep, a: Address)
    requires step.SavePreKey? || step.SaveSignedPreKey? || step.addr != a
    ensures Load(ApplyStore(st, step), a) == Load(st, a)
  {
    hide Decrypt, DecryptRecord, Encrypt;
  }

  lemma StepKeepsClosed(st: Store, step: StoreStep, a: Address, x: ChainSecret)
    requires SoundRecord(Load(st, a))
    ensures SoundRecord(Load(ApplyStore(st, step), a))
    ensures Closed(Load(st, a), x) && StartsOther(st, step, a, x) ==> Closed(Load(ApplyStore(st, step), a), x)
  {
    hide Decrypt, DecryptRecord, Sound, Spent, Encrypt;
    if step.SavePreKey? || step.SaveSignedPreKey? || step.addr != a {
      OtherAddressUntouched(st, step, a);
      return;
    }
    var rec := Load(st, a);
    match step
    case ProcessBundle(_, b, baseKey, sendingKey) => BundleStepKeepsClosed(st, a, b, baseKey, sendingKey, x);
    case EncryptMessage(_, plaintext) => if rec.current.Some? { SendKeepsClosed(rec, plaintext, x); }
    case DecryptSignal(_, m, newKey) => DecryptKeepsClosed(rec, m, newKey, x);
    case DecryptPreKey(_, pm, newKey) => PreKeyStepKeepsClosed(st, a, pm, newKey, x);
    case ArchiveSession(_) => ArchiveKeepsClosed(rec, x);
    case _ =>
  }

  function RunStore(st: Store, steps: seq<StoreStep>): Store
    decreases |steps|
  {
    if steps == [] then st else RunStore(ApplyStore(st, steps[0]), steps[1..])
  }

  /** No step of the run starts a session with the secrets behind `x` at the address. */
  ghost predicate NoRestart(st: Store, steps: seq<StoreStep>, a: Address, x: ChainSecret)
    decreases |steps|
  {
    steps == [] || (StartsOther(st, steps[0], a, x) && NoRestart(ApplyStore(st, steps[0]), steps[1..], a, x))
  }

  lemma {:induction false} RunKeepsClosed(st: Store, steps: seq<StoreStep>, a: Address, x: ChainSecret)
    requires SoundRecord(Load(st, a))
    ensures SoundRecord(Load(RunStore(st, steps), a))
    ensures Closed(Load(st, a), x) && NoRestart(st, steps, a, x) ==> Closed(Load(RunStore(st, steps), a), x)
    ensures RunStore(st, steps).identity == st.identity
    decreases |steps|
  {
    hide SoundRecord, Closed, StartsOther;
    if steps != [] {
      StepKeepsClosed(st, steps[0], a, x);
      StepKeepsOwnIdentity(st, steps[0]);
      RunKeepsClosed(ApplyStore(st, steps[0]), steps[1..], a, x);
    }
  }

  lemma StepKeepsOwnIdentity(st: Store, step: StoreStep)
    ensures ApplyStore(st, step).identity == st.identity
  {
    hide Decrypt, DecryptRecord, Encrypt;
  }

  /** Every reachable record is sound. */
  lemma ReachableIsSound(identity: KeyId, steps: seq<StoreStep>, a: Address)
    ensures SoundRecord(Load(RunStore(NewStore(identity), steps), a))
  {
    RunKeepsClosed(NewStore(identity), steps, a, InitialChain([]));
  }

  // ---------------------------------------------------------------------- replays

  /** After an acceptance, while no session with the message's secrets is started again, the
      message itself is rejected over every run, and a wrapper around it is accepted if and only
      if it is trusted, its version and base key are not retained, and the session that it makes
      the store start opens the message. */
  lemma OnlyNewSessionReplays(st: Store, steps: seq<StoreStep>, a: Address, pm: PreKeySignalMessage, newKey: KeyId)
    requires pm.message.tag.Hmac? && Closed(Load(st, a), pm.message.tag.key.chain)
    requires NoRestart(st, steps, a, pm.message.tag.key.chain)
    ensures var end := RunStore(st, steps);
      && DecryptSignalAt(end, a, pm.message, newKey).1.Err?
      && (DecryptPreKeyAt(end, a, pm, newKey).1.Ok? <==>
          && Trusted(end, a, pm.identityKey) && !HasSession(Load(end, a), pm.version, pm.baseKey)
          && ResponderSession(end, pm).Ok? && Decrypt(ResponderSession(end, pm).value, pm.message, newKey).1.Ok?)
      && (DecryptPreKeyAt(end, a, pm, newKey).1.Ok? ==>
          DecryptPreKeyAt(end, a, pm, newKey).1 == Decrypt(ResponderSession(end, pm).value, pm.message, newKey).1)
  {
    hide Decrypt, DecryptRecord, Sound, Spent, NoRestart;
    RunKeepsClosed(st, steps, a, pm.message.tag.key.chain);
    var end := RunStore(st, steps);
    var rec := Load(end, a);
    ClosedRejects(rec, pm.message, newKey);
    if !HasSession(rec, pm.version, pm.baseKey) && ResponderSession(end, pm).Ok? {
      var s := ResponderSession(end, pm).value;
      StartedIsSound(end, DecryptPreKey(a, pm, newKey), a);
      PromoteKeepsClosed(rec, s, pm.message.tag.key.chain);
      NewSessionDecides(rec, s, pm.message, newKey);
    }
  }

  /** The store still holds the keys that a pre-key message names. */
  predicate KeysKept(st: Store, later: Store, pm: PreKeySignalMessage)
    requires ResponderSession(st, pm).Ok?
  {
    && pm.signedPreKeyId in later.signedPreKeys
       && later.signedPreKeys[pm.signedPreKeyId] == st.signedPreKeys[pm.signedPreKeyId]
    && (pm.preKeyId.Some? ==>
        pm.preKeyId.value in later.preKeys && later.preKeys[pm.preKeyId.value] == st.preKeys[pm.preKeyId.value])
  }

  /** The same keys start the same session, other keys one with other secrets. */
  lemma KeptKeysDecide(st: Store, later: Store, pm: PreKeySignalMessage)
    requires ResponderSession(st, pm).Ok? && later.identity == st.identity
    ensures KeysKept(st, later, pm) ==> ResponderSession(later, pm) == ResponderSession(st, pm)
    ensures !KeysKept(st, later, pm) && ResponderSession(later, pm).Ok? ==>
      RootOrigin(ResponderSession(later, pm).value.root) != RootOrigin(ResponderSession(st, pm).value.root)
  {
    if !KeysKept(st, later, pm) && ResponderSession(later, pm).Ok? {
      var x, y := RootOrigin(ResponderSession(st, pm).value.root), RootOrigin(ResponderSession(later, pm).value.root);
      AgreeInjective(pm.identityKey, st.signedPreKeys[pm.signedPreKeyId], later.signedPreKeys[pm.signedPreKeyId]);
      assert x[0] == Agree(pm.identityKey, st.signedPreKeys[pm.signedPreKeyId]);
      assert y[0] == Agree(pm.identityKey, later.signedPreKeys[pm.signedPreKeyId]);
      if pm.preKeyId.Some? {
        AgreeInjective(pm.baseKey, st.preKeys[pm.preKeyId.value], later.preKeys[pm.preKeyId.value]);
        assert x[3] == Agree(pm.baseKey, st.preKeys[pm.preKeyId.value]);
        assert y[3] == Agree(pm.baseKey, later.preKeys[pm.preKeyId.value]);
      }
    }
  }

  /** A pre-key message that was accepted by the session it started, whose secrets were new. */
  ghost predicate AcceptedByItsOwn(st: Store, a: Address, pm: PreKeySignalMessage, newKey: KeyId) {
    && SoundRecord(Load(st, a)) && !HasSession(Load(st, a), pm.version, pm.baseKey)
    && ResponderSession(st, pm).Ok? && Trusted(st, a, pm.identityKey)
    && AllForeign(Load(st, a), RootOrigin(ResponderSession(st, pm).value.root))
    && Decrypt(ResponderSession(st, pm).value, pm.message, newKey).1.Ok?
  }

  lemma OwnAcceptanceCloses(st: Store, a: Address, pm: PreKeySignalMessage, newKey: KeyId)
    requires AcceptedByItsOwn(st, a, pm, newKey)
    ensures var (st', r) := DecryptPreKeyAt(st, a, pm, newKey);
      var s := ResponderSession(st, pm).value;
      && r == Decrypt(s, pm.message, newKey).1
      && pm.message.tag.Hmac? && ChainOrigin(pm.message.tag.key.chain) == RootOrigin(s.root)
      && Closed(Load(st', a), pm.message.tag.key.chain)
      && Load(st', a).current == Some(Decrypt(s, pm.message, newKey).0)
  {
    hide Decrypt, Sound, Spent;
    var s, rec := ResponderSession(st, pm).value, Load(st, a);
    StartedIsSound(st, DecryptPreKey(a, pm, newKey), a);
    PromoteKeepsClosed(rec, s, InitialChain([]));
    PromotedSessions(rec, s);
    OpensOnlyOwnOrigin(s, pm.message, newKey, RootOrigin(s.root));
    AcceptanceCloses(Promote(rec, s), pm.message, newKey);
  }

  /** Replay of a pre-key message.  Its session opened it when the store was `st`.  After any run
      that starts no session with the same secrets, the message is accepted again, whatever
      version the wrapper shows, if and only if the sender is still trusted, no retained session
      has that version and the base key, and the keys that it names are still stored.  The result
      is then the same plaintext. */
  lemma ReplayIff(st: Store, a: Address, pm: PreKeySignalMessage, newKey: KeyId, steps: seq<StoreStep>, version: nat,
                  newKey': KeyId)
    requires AcceptedByItsOwn(st, a, pm, newKey) && pm.message.tag.Hmac?
    requires NoRestart(DecryptPreKeyAt(st, a, pm, newKey).0, steps, a, pm.message.tag.key.chain)
    ensures var (st1, r) := DecryptPreKeyAt(st, a, pm, newKey);
      var end := RunStore(st1, steps);
      var again := DecryptPreKeyAt(end, a, pm.(version := version), newKey').1;
      && r.Ok?
      && (again.Ok? <==>
          && Trusted(end, a, pm.identityKey) && !HasSession(Load(end, a), version, pm.baseKey) && KeysKept(st, end, pm))
      && (again.Ok? ==> again == r)
  {
    hide Decrypt, DecryptRecord, Sound, Spent, NoRestart;
    var st1, pm' := DecryptPreKeyAt(st, a, pm, newKey).0, pm.(version := version);
    var end := RunStore(st1, steps);
    OwnAcceptanceCloses(st, a, pm, newKey);
    OnlyNewSessionReplays(st1, steps, a, pm', newKey');
    RunKeepsClosed(st1, steps, a, pm.message.tag.key.chain);
    KeptKeysDecide(st, end, pm);
    assert ResponderSession(end, pm') == ResponderSession(end, pm);
    ResultIgnoresNewKey(ResponderSession(st, pm).value, pm.message, newKey, newKey');
    if ResponderSession(end, pm).Ok? {
      var s := ResponderSession(end, pm).value;
      StartedRooted(end, pm);
      OpensOnlyOwnOrigin(s, pm.message, newKey', RootOrigin(s.root));
    }
  }

  lemma StartedRooted(st: Store, pm: PreKeySignalMessage)
    requires ResponderSession(st, pm).Ok?
    ensures var s := ResponderSession(st, pm).value; Rooted(s, RootOrigin(s.root))
  {
  }

  /** Right after its acceptance, hence while its session is retained, a pre-key message is
      accepted again if and only if the wrapper shows another version and names no one-time
      pre-key. */
  lemma ImmediateReplayIff(st: Store, a: Address, pm: PreKeySignalMessage, newKey: KeyId, version: nat, newKey': KeyId)
    requires AcceptedByItsOwn(st, a, pm, newKey)
    ensures var (st1, r) := DecryptPreKeyAt(st, a, pm, newKey);
      var again := DecryptPreKeyAt(st1, a, pm.(version := version), newKey').1;
      && (again.Ok? <==> version != CURRENT_VERSION && pm.preKeyId.None?)
      && (again.Ok? ==> again == r)
  {
    hide Decrypt, DecryptRecord, Spent, ChainsSound, Rooted;
    OwnAcceptanceCloses(st, a, pm, newKey);
    ReplayIff(st, a, pm, newKey, [], version, newKey');
    var st1 := DecryptPreKeyAt(st, a, pm, newKey).0;
    var rec, s := Load(st1, a), ResponderSession(st, pm).value;
    DecryptKeepsIdentity(s, pm.message, newKey);
    HasSessionIsMembership(rec, version, pm.baseKey);
    assert Sessions(rec)[0] == rec.current.value && Is(Sessions(rec)[0], CURRENT_VERSION, pm.baseKey);
  }

  // ------------------------------------------------------------------ distinct ids

  /** The ids of the stored record stay distinct under an accepted pre-key message if and only if
      the lookup with the wrapper's version finds its session, or no surviving session has the
      current version and its base key.  A wrapper of the current version is always safe. */
  lemma StoredIdsDistinctIff(st: Store, a: Address, pm: PreKeySignalMessage, newKey: KeyId)
    requires Bounded(Load(st, a)) && DistinctIds(Load(st, a)) && DecryptPreKeyAt(st, a, pm, newKey).1.Ok?
    ensures var rec, rec' := Load(st, a), Load(DecryptPreKeyAt(st, a, pm, newKey).0, a);
      && (DistinctIds(rec') <==>
          HasSession(rec, pm.version, pm.baseKey) || !HasSession(Archive(rec), CURRENT_VERSION, pm.baseKey))
      && (pm.version == CURRENT_VERSION ==> DistinctIds(rec'))
  {
    hide Decrypt, DecryptRecord, DistinctIds;
    var rec := Load(st, a);
    PreKeyOutcome(st, a, pm, newKey);
    if HasSession(rec, pm.version, pm.baseKey) {
      DecryptKeepsDistinctIds(rec, pm.message, newKey);
    } else {
      var s := ResponderSession(st, pm).value;
      PromotedSessions(rec, s);
      PromoteKeepsDistinctIdsIff(rec, s);
      DecryptKeepsDistinctIds(Promote(rec, s), pm.message, newKey);
      ArchiveHasNothingNew(rec, CURRENT_VERSION, pm.baseKey);
    }
  }

  lemma ArchiveHasNothingNew(rec: Record, version: nat, baseKey: KeyId)
    ensures HasSession(Archive(rec), version, baseKey) ==> HasSession(rec, version, baseKey)
  {
    HasSessionIsMembership(rec, version, baseKey);
    HasSessionIsMembership(Archive(rec), version, baseKey);
    assert Sessions(Archive(rec)) == Sessions(rec)[..|Sessions(Archive(rec))|];
  }

  /** The failing inputs, through both stores.  For every backed bundle without one-time pre-key,
      a responder that has no record for the address decrypts the first message, decrypts it
      again from a wrapper of any other version, and then holds two sessions with one id. */
  lemma WrapperVersionReplay(alice: Store, bob: Store, a: Address, b: PreKeyBundle, baseKey: KeyId, sendingKey: KeyId,
                             plaintext: Bytes, newKey: KeyId, version: nat, newKey': KeyId)
    requires BundleOf(b, bob) && b.oneTime.None? && Trusted(bob, a, alice.identity) && a !in bob.sessions
    requires sendingKey != b.signedPreKey && newKey != b.signedPreKey && newKey != sendingKey
      && version != CURRENT_VERSION
    ensures var wire := FirstMessage(alice, b, baseKey, sendingKey, plaintext);
      && wire.PreKey?
      && var (bob1, first) := DecryptPreKeyAt(bob, a, wire.preKey, newKey);
         var (bob2, second) := DecryptPreKeyAt(bob1, a, wire.preKey.(version := version), newKey');
         && first == Ok(plaintext) && second == Ok(plaintext)
         && DistinctIds(Load(bob1, a)) && !DistinctIds(Load(bob2, a))
  {
    hide Decrypt, DecryptRecord, Sound, Spent;
    ParametersMatch(alice, bob, b, baseKey, sendingKey, plaintext);
    var pm := FirstMessage(alice, b, baseKey, sendingKey, plaintext).preKey;
    var _ := FirstMessageOpens(alice, bob, b, baseKey, sendingKey, plaintext, newKey);
    assert AcceptedByItsOwn(bob, a, pm, newKey);
    OwnAcceptanceCloses(bob, a, pm, newKey);
    ImmediateReplayIff(bob, a, pm, newKey, version, newKey');
    StoredIdsDistinctIff(bob, a, pm, newKey);
    var bob1 := DecryptPreKeyAt(bob, a, pm, newKey).0;
    RetainedBase(bob, a, pm, newKey);
    StoredIdsDistinctIff(bob1, a, pm.(version := version), newKey');
  }

  /** The one record of that responder after the first message. */
  lemma RetainedBase(bob: Store, a: Address, pm: PreKeySignalMessage, newKey: KeyId)
    requires AcceptedByItsOwn(bob, a, pm, newKey) && a !in bob.sessions
    ensures var rec := Load(DecryptPreKeyAt(bob, a, pm, newKey).0, a);
      && Bounded(rec) && HasSession(Archive(rec), CURRENT_VERSION, pm.baseKey)
      && forall v :: v != CURRENT_VERSION ==> !HasSession(rec, v, pm.baseKey)
  {
    hide Decrypt, Spent;
    OwnAcceptanceCloses(bob, a, pm, newKey);
    var rec, s := Load(DecryptPreKeyAt(bob, a, pm, newKey).0, a), ResponderSession(bob, pm).value;
    DecryptKeepsIdentity(s, pm.message, newKey);
    assert rec == Record(Some(Decrypt(s, pm.message, newKey).0), []);
    assert Is(Archive(rec).previous[0], CURRENT_VERSION, pm.baseKey);
  }
}
