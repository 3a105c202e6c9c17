/** `state/session.rs` and the per-session half of `session_cipher.rs`.  The datatypes and
    functions give the meaning of each operation on a session's value; the class
    `SessionState` performs the operations by updating its fields step by step. */
module Session {
  import opened Prelude
  import opened Crypto
  import opened Ratchet

  datatype ReceiverChain = ReceiverChain(ratchetKey: KeyId, chainKey: ChainKey, skipped: seq<MessageKeys>)

  datatype SenderChain = SenderChain(ratchetKey: KeyId, chainKey: ChainKey)

  /** `preKeyId` 0 stands for "no one-time pre-key". */
  datatype PendingPreKey = PendingPreKey(preKeyId: nat, signedPreKeyId: nat, baseKey: KeyId)

  datatype Session = Session(
    rawVersion: nat,
    localIdentity: KeyId,
    remoteIdentity: Option<KeyId>,
    root: RootKey,
    previousCounter: nat,
    sender: Option<SenderChain>,
    receivers: seq<ReceiverChain>,
    pending: Option<PendingPreKey>,
    aliceBaseKey: Option<KeyId>)
  {
    /** `session_version`: 0 is read as 2. */
    function Version(): nat { if rawVersion == 0 then 2 else rawVersion }
  }

  /** `HKDF::new` accepts versions 2 and 3 only. */
  predicate KdfVersion(v: nat) { v == 2 || v == 3 }

  // ---------------------------------------------------------------- receiver chains

  function FindChain(chains: seq<ReceiverChain>, key: KeyId): (j: nat)
    ensures j <= |chains|
    ensures j < |chains| ==> chains[j].ratchetKey == key
    ensures forall i :: 0 <= i < j ==> chains[i].ratchetKey != key
  {
    IndexWhere(chains, (c: ReceiverChain) => c.ratchetKey == key)
  }

  /** `add_receiver_chain`: append, dropping the oldest beyond five. */
  function PushChain(chains: seq<ReceiverChain>, c: ReceiverChain): seq<ReceiverChain> {
    var q := chains + [c];
    if |q| > MAX_RECEIVER_CHAINS then q[1..] else q
  }

  lemma PushedChainIsFound(chains: seq<ReceiverChain>, c: ReceiverChain)
    requires FindChain(chains, c.ratchetKey) == |chains|
    ensures FindChain(PushChain(chains, c), c.ratchetKey) == |PushChain(chains, c)| - 1
  {
    var q := PushChain(chains, c);
    assert q[|q| - 1] == c;
    forall i | 0 <= i < |q| - 1 ensures q[i].ratchetKey != c.ratchetKey {
      assert q[i] == chains[if |chains| + 1 > MAX_RECEIVER_CHAINS then i + 1 else i];
    }
  }

  // ------------------------------------------------------------------- message keys

  /** `set_message_keys`: insert at the front, dropping the last beyond 2000. */
  function InsertKeys(skipped: seq<MessageKeys>, k: MessageKeys): seq<MessageKeys> {
    var q := [k] + skipped;
    if |q| > MAX_MESSAGE_KEYS then q[..|q| - 1] else q
  }

  function FindKeys(skipped: seq<MessageKeys>, counter: nat): (p: nat)
    ensures p <= |skipped|
    ensures p < |skipped| ==> skipped[p].counter == counter
    ensures forall i :: 0 <= i < p ==> skipped[i].counter != counter
  {
    IndexWhere(skipped, (k: MessageKeys) => k.counter == counter)
  }

  /** The chain key and the cache after the loop has skipped to `counter`. */
  function SkipKeys(c: ChainKey, skipped: seq<MessageKeys>, counter: u32): (ChainKey, seq<MessageKeys>)
    decreases if c.index < counter then counter - c.index else 0
  {
    if c.index < counter then SkipKeys(Next(c), InsertKeys(skipped, KeysOf(c)), counter) else (c, skipped)
  }

  /** `get_or_create_message_key` on the chain that the message selects. */
  function TakeKeys(rc: ReceiverChain, counter: u32): (ReceiverChain, Result<MessageKeys, Error>) {
    var index := rc.chainKey.index;
    if index > counter then
      var p := FindKeys(rc.skipped, counter);
      if p < |rc.skipped| then (rc.(skipped := RemoveAt(rc.skipped, p)), Ok(rc.skipped[p]))
      else (rc, Err(DuplicatedMessage(index, counter)))
    else if counter - index > MAX_FORWARD_JUMPS then (rc, Err(TooFarIntoTheFuture))
    else
      var (c, skipped) := SkipKeys(rc.chainKey, rc.skipped, counter);
      (rc.(chainKey := Next(c), skipped := skipped), Ok(KeysOf(c)))
  }

  // -------------------------------------------------------------------- the ratchet

  /** The step of `get_or_create_chain_key` for a ratchet key not seen before. */
  function RatchetStep(s: Session, theirs: KeyId, newKey: KeyId): Session
    requires s.sender.Some?
  {
    var ours := s.sender.value;
    var (r1, receiving) := CreateChain(s.Version(), s.root, theirs, ours.ratchetKey);
    var (r2, sending) := CreateChain(s.Version(), r1, theirs, newKey);
    s.(root := r2,
       receivers := PushChain(s.receivers, ReceiverChain(theirs, receiving, [])),
       previousCounter := if ours.chainKey.index > 0 then ours.chainKey.index - 1 else 0,
       sender := Some(SenderChain(newKey, sending)))
  }

  /** `get_or_create_chain_key`. */
  function PrepareChain(s: Session, theirs: KeyId, newKey: KeyId): (r: Session)
    requires s.sender.Some?
    ensures FindChain(r.receivers, theirs) < |r.receivers|
  {
    if FindChain(s.receivers, theirs) < |s.receivers| then s
    else
      PushedChainIsFound(s.receivers,
        ReceiverChain(theirs, CreateChain(s.Version(), s.root, theirs, s.sender.value.ratchetKey).1, []));
      RatchetStep(s, theirs, newKey)
  }

  /** Both ratchets: the session after the key for `content` was fetched, and the key. */
  function FetchKeys(s: Session, theirs: KeyId, counter: u32, newKey: KeyId): (Session, Result<MessageKeys, Error>)
    requires s.sender.Some?
  {
    var s1 := PrepareChain(s, theirs, newKey);
    var j := FindChain(s1.receivers, theirs);
    var (rc, keys) := TakeKeys(s1.receivers[j], counter);
    (s1.(receivers := s1.receivers[j := rc]), keys)
  }

  // --------------------------------------------------------- encryption, decryption

  /** `SignalMessage::new`. */
  function Seal(k: MessageKeys, version: nat, ratchetKey: KeyId, counter: u32, previous: nat,
                plaintext: Bytes, from: KeyId, to: KeyId): SignalMessage
  {
    var content := Content(version, ratchetKey, counter, previous, Cbc(k.cipherKey, k.iv, plaintext));
    SignalMessage(content, Hmac(k.macKey, from, to, content))
  }

  /** The checks of `decrypt_message_with_state` once the message keys are known. */
  function Open(m: SignalMessage, k: MessageKeys, from: KeyId, to: KeyId): Result<Bytes, Error> {
    if m.tag != Hmac(k.macKey, from, to, m.content) then Err(InvalidCiphertext)
    else CbcDecrypt(m.content.body, k.cipherKey, k.iv)
  }

  /** `decrypt_message_with_state`: the state as the call leaves it, and its result. */
  function Decrypt(s: Session, m: SignalMessage, newKey: KeyId): (Session, Result<Bytes, Error>) {
    if s.sender.None? then (s, Err(InvalidSessionStructure))
    else if m.content.version != s.Version() || !KdfVersion(s.Version()) then
      (s, Err(UnrecognizedMessageVersion(if m.content.version != s.Version() then m.content.version else s.Version())))
    else
      var (s1, keys) := FetchKeys(s, m.content.ratchetKey, m.content.counter, newKey);
      if keys.Err? then (s1, Err(keys.error))
      else if s1.remoteIdentity.None? then (s1, Err(InvalidSessionStructure))
      else
        var text := Open(m, keys.value, s1.remoteIdentity.value, s1.localIdentity);
        if text.Err? then (s1, text) else (s1.(pending := None), text)
  }

  /** The wire message that wraps a sealed one while a pre-key is pending. */
  function Wrap(s: Session, m: SignalMessage): CiphertextMessage {
    match s.pending
    case None => Whisper(m)
    case Some(p) =>
      PreKey(PreKeySignalMessage(s.Version(), if p.preKeyId == 0 then None else Some(p.preKeyId),
                                 p.signedPreKeyId, p.baseKey, s.localIdentity, m))
  }

  /** The session part of `message_encrypt`. */
  function Encrypt(s: Session, plaintext: Bytes): (Session, Result<CiphertextMessage, Error>) {
    if s.sender.None? then (s, Err(InvalidState))
    else if !KdfVersion(s.Version()) then (s, Err(UnrecognizedMessageVersion(s.Version())))
    else if s.remoteIdentity.None? then (s, Err(InvalidSessionStructure))
    else
      var chain := s.sender.value.chainKey;
      var sealed := Seal(KeysOf(chain), s.Version(), s.sender.value.ratchetKey, chain.index % U32_SIZE,
        s.previousCounter,
                         plaintext, s.localIdentity, s.remoteIdentity.value);
      (s.(sender := Some(s.sender.value.(chainKey := Next(chain)))), Ok(Wrap(s, sealed)))
  }

  /** A `SessionStructure` that is updated in place. */
  class SessionState {
    var rawVersion: nat
    var localIdentity: KeyId
    var remoteIdentity: Option<KeyId>
    var root: RootKey
    var previousCounter: nat
    var sender: Option<SenderChain>
    var receivers: seq<ReceiverChain>
    var pending: Option<PendingPreKey>
    var aliceBaseKey: Option<KeyId>

    ghost function Value(): Session
      reads this
    {
      Session(rawVersion, localIdentity, remoteIdentity, root, previousCounter, sender, receivers, pending,
        aliceBaseKey)
    }

    /** A clone of a stored session. */
    constructor (s: Session)
      ensures Value() == s
    {
      rawVersion, localIdentity, remoteIdentity := s.rawVersion, s.localIdentity, s.remoteIdentity;
      root, previousCounter, sender := s.root, s.previousCounter, s.sender;
      receivers, pending, aliceBaseKey := s.receivers, s.pending, s.aliceBaseKey;
    }

    /** The stored form of this state. */
    method Snapshot() returns (s: Session)
      ensures s == Value()
    {
      s := Session(rawVersion, localIdentity, remoteIdentity, root, previousCounter, sender, receivers, pending,
        aliceBaseKey);
    }

    method SessionVersion() returns (v: nat)
      ensures v == Value().Version()
    {
      v := if rawVersion == 0 then 2 else rawVersion;
    }

    /** Index of the chain with the given ratchet key, `|receivers|` if there is none. */
    method GetReceiverChain(key: KeyId) returns (j: nat)
      ensures j == FindChain(receivers, key)
    {
      j := 0;
      while j < |receivers| && receivers[j].ratchetKey != key
        invariant j <= |receivers|
        invariant forall i :: 0 <= i < j ==> receivers[i].ratchetKey != key
      {
        j := j + 1;
      }
    }

    method AddReceiverChain(key: KeyId, chainKey: ChainKey)
      modifies this`receivers
      ensures receivers == PushChain(old(receivers), ReceiverChain(key, chainKey, []))
    {
      receivers := receivers + [ReceiverChain(key, chainKey, [])];
      if |receivers| > MAX_RECEIVER_CHAINS {
        receivers := receivers[1..];
      }
    }

    method SetMessageKeys(key: KeyId, k: MessageKeys) returns (ok: bool)
      modifies this`receivers
      ensures ok == (FindChain(old(receivers), key) < |old(receivers)|)
      ensures var j := FindChain(old(receivers), key);
        receivers == if ok
          then old(receivers)[j := old(receivers)[j].(skipped := InsertKeys(old(receivers)[j].skipped, k))]
                     else old(receivers)
    {
      var j := GetReceiverChain(key);
      ok := j < |receivers|;
      if ok {
        var skipped := [k] + receivers[j].skipped;
        if |skipped| > MAX_MESSAGE_KEYS {
          skipped := skipped[..|skipped| - 1];
        }
        receivers := receivers[j := receivers[j].(skipped := skipped)];
      }
    }

    /** Fetches and removes a cached key, if there is such a chain and it holds one. */
    method GetMessageKeys(key: KeyId, counter: u32) returns (k: Option<MessageKeys>)
      modifies this`receivers
      ensures var j := FindChain(old(receivers), key);
        var skipped := if j < |old(receivers)| then old(receivers)[j].skipped else [];
        var p := FindKeys(skipped, counter);
        if p < |skipped| then
          k == Some(skipped[p]) && receivers == old(receivers)[j := old(receivers)[j].(skipped := RemoveAt(skipped, p))]
        else k == None && receivers == old(receivers)
    {
      var j := GetReceiverChain(key);
      if j == |receivers| {
        return None;
      }
      var skipped := receivers[j].skipped;
      var p := 0;
      while p < |skipped| && skipped[p].counter != counter
        invariant p <= |skipped|
        invariant forall i :: 0 <= i < p ==> skipped[i].counter != counter
      {
        p := p + 1;
      }
      assert p == FindKeys(skipped, counter);
      if p < |skipped| {
        k := Some(skipped[p]);
        receivers := receivers[j := receivers[j].(skipped := RemoveAt(skipped, p))];
      } else {
        k := None;
      }
    }

    method SetReceiverChainKey(key: KeyId, chainKey: ChainKey) returns (ok: bool)
      modifies this`receivers
      ensures ok == (FindChain(old(receivers), key) < |old(receivers)|)
      ensures var j := FindChain(old(receivers), key);
        receivers == if ok then old(receivers)[j := old(receivers)[j].(chainKey := chainKey)] else old(receivers)
    {
      var j := GetReceiverChain(key);
      ok := j < |receivers|;
      if ok {
        receivers := receivers[j := receivers[j].(chainKey := chainKey)];
      }
    }

    /** Fails only for an unknown version or, on an unknown ratchet key, without a sending chain. */
    method GetOrCreateChainKey(theirs: KeyId, newKey: KeyId) returns (chainKey: Result<ChainKey, Error>)
      modifies this
      ensures chainKey.Err? ==> Value() == old(Value())
      ensures !KdfVersion(old(Value()).Version()) ==>
        chainKey == Err(UnrecognizedMessageVersion(old(Value()).Version()))
      ensures KdfVersion(old(Value()).Version()) ==>
        (chainKey.Ok? <==> old(sender).Some? || FindChain(old(receivers), theirs) < |old(receivers)|)
      ensures chainKey.Ok? ==>
        && FindChain(receivers, theirs) < |receivers|
        && chainKey.value == receivers[FindChain(receivers, theirs)].chainKey
        && (if old(sender).Some?
            then Value() == PrepareChain(old(Value()), theirs, newKey) else Value() == old(Value()))
    {
      var version := SessionVersion();
      var j := GetReceiverChain(theirs);
      if !KdfVersion(version) {
        return Err(UnrecognizedMessageVersion(version));
      }
      if j < |receivers| {
        return Ok(receivers[j].chainKey);
      }
      if sender.None? {
        return Err(InvalidProtobufEncoding);
      }
      ghost var before := Value();
      var ours := sender.value.ratchetKey;
      var receiving := CreateChain(version, root, theirs, ours);
      var sending := CreateChain(version, receiving.0, theirs, newKey);
      PushedChainIsFound(receivers, ReceiverChain(theirs, receiving.1, []));
      root := sending.0;
      AddReceiverChain(theirs, receiving.1);
      var currentIndex := sender.value.chainKey.index;
      previousCounter := if currentIndex > 0 then currentIndex - 1 else 0;
      sender := Some(SenderChain(newKey, sending.1));
      assert Value() == RatchetStep(before, theirs, newKey);
      chainKey := Ok(receiving.1);
    }

    method GetOrCreateMessageKey(theirs: KeyId, chainKey: ChainKey, counter: u32)
      returns (keys: Result<MessageKeys, Error>)
      requires FindChain(receivers, theirs) < |receivers|
      requires chainKey == receivers[FindChain(receivers, theirs)].chainKey
      modifies this`receivers
      ensures var j := FindChain(old(receivers), theirs);
        var taken := TakeKeys(old(receivers)[j], counter);
        keys == taken.1 && receivers == old(receivers)[j := taken.0]
    {
      var index := chainKey.index;
      if index > counter {
        var cached := GetMessageKeys(theirs, counter);
        return if cached.Some? then Ok(cached.value) else Err(DuplicatedMessage(index, counter));
      }
      if counter - index > MAX_FORWARD_JUMPS {
        return Err(TooFarIntoTheFuture);
      }
      ghost var start := receivers;
      ghost var j := FindChain(start, theirs);
      var c := chainKey;
      while c.index < counter
        invariant |receivers| == |start| && c.index <= counter
        invariant receivers == start[j := start[j].(skipped := receivers[j].skipped)]
        invariant SkipKeys(c, receivers[j].skipped, counter) == SkipKeys(start[j].chainKey, start[j].skipped, counter)
        decreases counter - c.index
      {
        KeepsPlace(start, receivers, j, theirs);
        var _ := SetMessageKeys(theirs, KeysOf(c));
        c := Next(c);
      }
      KeepsPlace(start, receivers, j, theirs);
      var _ := SetReceiverChainKey(theirs, Next(c));
      keys := Ok(KeysOf(c));
    }

    method DecryptMessage(m: SignalMessage, newKey: KeyId) returns (r: Result<Bytes, Error>)
      modifies this
      ensures Value() == Decrypt(old(Value()), m, newKey).0
      ensures r == Decrypt(old(Value()), m, newKey).1
    {
      if sender.None? {
        return Err(InvalidSessionStructure);
      }
      var version := SessionVersion();
      if m.content.version != version {
        return Err(UnrecognizedMessageVersion(m.content.version));
      }
      var chainKey := GetOrCreateChainKey(m.content.ratchetKey, newKey);
      if chainKey.Err? {
        return Err(chainKey.error);
      }
      var keys := GetOrCreateMessageKey(m.content.ratchetKey, chainKey.value, m.content.counter);
      if keys.Err? {
        return Err(keys.error);
      }
      if remoteIdentity.None? {
        return Err(InvalidSessionStructure);
      }
      if m.tag != Hmac(keys.value.macKey, remoteIdentity.value, localIdentity, m.content) {
        return Err(InvalidCiphertext);
      }
      r := CbcDecrypt(m.content.body, keys.value.cipherKey, keys.value.iv);
      if r.Ok? {
        pending := None;
      }
    }

    method EncryptMessage(plaintext: Bytes) returns (r: Result<CiphertextMessage, Error>)
      modifies this
      ensures Value() == Encrypt(old(Value()), plaintext).0
      ensures r == Encrypt(old(Value()), plaintext).1
    {
      if sender.None? {
        return Err(InvalidState);
      }
      var version := SessionVersion();
      if !KdfVersion(version) {
        return Err(UnrecognizedMessageVersion(version));
      }
      var chain := sender.value.chainKey;
      var keys := KeysOf(chain);
      if remoteIdentity.None? {
        return Err(InvalidSessionStructure);
      }
      var sealed := Seal(keys, version, sender.value.ratchetKey, chain.index % U32_SIZE, previousCounter,
                         plaintext, localIdentity, remoteIdentity.value);
      var before := Snapshot();
      r := Ok(Wrap(before, sealed));
      sender := Some(sender.value.(chainKey := Next(chain)));
    }
  }

  /** Changing a chain without changing its ratchet key leaves lookups alone. */
  lemma KeepsPlace(before: seq<ReceiverChain>, after: seq<ReceiverChain>, j: nat, key: KeyId)
    requires |before| == |after| && j == FindChain(before, key)
    requires forall i :: 0 <= i < |before| ==> before[i].ratchetKey == after[i].ratchetKey
    ensures FindChain(after, key) == j
  {
  }
}
