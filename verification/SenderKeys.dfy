/** `sender_keys.rs` and `group_cipher.rs`: one hash chain per sender, its skipped keys, the
    queue of states and the group cipher over a store. */
module SenderKeys {
  import opened Prelude
  import opened Crypto

  /** A sender's chain key: a random seed, or HMAC(previous chain key, 0x02). */
  datatype GroupSecret = Seed(id: nat) | NextSeed(prev: GroupSecret)

  datatype SenderChainKey = SenderChainKey(iteration: nat, chain: GroupSecret)

  /** A message key is stored as its iteration and its seed HMAC(chain, 0x01); the seed is
      named by the chain key it comes from. */
  datatype SenderMessageKey = SenderMessageKey(iteration: nat, chain: GroupSecret)

  /** Bytes `lo..hi` of HKDF(seed, "WhisperGroup"). */
  datatype GroupSlice = GroupSlice(chain: GroupSecret, lo: nat, hi: nat)

  function Iv(k: SenderMessageKey): GroupSlice { GroupSlice(k.chain, 0, 16) }

  function CipherKey(k: SenderMessageKey): GroupSlice { GroupSlice(k.chain, 16, 48) }

  /** `SenderChainKey::next`; the u32 iteration wraps. */
  function NextKey(k: SenderChainKey): SenderChainKey {
    SenderChainKey((k.iteration + 1) % U32_SIZE, NextSeed(k.chain))
  }

  function MessageKeyOf(k: SenderChainKey): SenderMessageKey { SenderMessageKey(k.iteration, k.chain) }

  datatype GroupBody = GroupCbc(key: GroupSlice, iv: GroupSlice, plaintext: Bytes) | GroupNoise(bytes: Bytes)

  datatype GroupSignature = Signed(signer: KeyId, keyId: nat, iteration: nat, body: GroupBody) | Unverifiable

  datatype SenderKeyMessage = SenderKeyMessage(keyId: nat, iteration: u32, body: GroupBody, signature: GroupSignature)

  datatype Distribution = Distribution(id: nat, iteration: nat, chain: GroupSecret, signingKey: KeyId)

  /** `privateKey` is present only with the sender itself. */
  datatype GroupState = GroupState(
    id: nat, chainKey: SenderChainKey, signingKey: KeyId, privateKey: Option<KeyId>, messageKeys: seq<SenderMessageKey>)

  /** Push at the end, dropping the oldest beyond 2000. */
  function AddMessageKey(keys: seq<SenderMessageKey>, k: SenderMessageKey): seq<SenderMessageKey> {
    var q := keys + [k];
    if |q| > MAX_MESSAGE_KEYS then q[|q| - MAX_MESSAGE_KEYS..] else q
  }

  function FindMessageKey(keys: seq<SenderMessageKey>, iteration: nat): (p: nat)
    ensures p <= |keys|
    ensures p < |keys| ==> keys[p].iteration == iteration
    ensures forall i :: 0 <= i < p ==> keys[i].iteration != iteration
  {
    IndexWhere(keys, (k: SenderMessageKey) => k.iteration == iteration)
  }

  function SkipMessageKeys(k: SenderChainKey, keys: seq<SenderMessageKey>, iteration: u32): (SenderChainKey,
                           seq<SenderMessageKey>)
    decreases if k.iteration < iteration then iteration - k.iteration else 0
  {
    if k.iteration < iteration
      then SkipMessageKeys(NextKey(k), AddMessageKey(keys, MessageKeyOf(k)), iteration) else (k, keys)
  }

  /** `get_sender_key`. */
  function TakeSenderKey(st: GroupState, iteration: u32): (GroupState, Result<SenderMessageKey, Error>) {
    var at := st.chainKey.iteration;
    if at > iteration then
      var p := FindMessageKey(st.messageKeys, iteration);
      if p < |st.messageKeys| then (st.(messageKeys := RemoveAt(st.messageKeys, p)), Ok(st.messageKeys[p]))
      else (st, Err(DuplicatedMessage(at, iteration)))
    else if iteration - at > MAX_FORWARD_JUMPS then (st, Err(TooFarIntoTheFuture))
    else
      var (k, keys) := SkipMessageKeys(st.chainKey, st.messageKeys, iteration);
      (st.(chainKey := NextKey(k), messageKeys := keys), Ok(MessageKeyOf(k)))
  }

  /** `add_sender_key_state`: push in front, keeping the newest five. */
  function AddState(states: seq<GroupState>, st: GroupState): seq<GroupState> {
    var q := [st] + states;
    if |q| > MAX_SENDER_KEY_STATES then q[..MAX_SENDER_KEY_STATES] else q
  }

  /** `sender_key_state_for_keyid`: the first, hence newest, state with the id. */
  function FindState(states: seq<GroupState>, id: nat): (j: nat)
    ensures j <= |states|
    ensures j < |states| ==> states[j].id == id
    ensures forall i :: 0 <= i < j ==> states[i].id != id
  {
    IndexWhere(states, (st: GroupState) => st.id == id)
  }

  type GroupStore = map<nat, seq<GroupState>>

  /** `group_encrypt` for one sender key name. */
  function GroupEncryptAt(store: GroupStore, name: nat, plaintext: Bytes): (GroupStore,
                          Result<SenderKeyMessage, Error>) {
    if name !in store then (store, Err(InvalidSenderKeyId))
    else if store[name] == [] then (store, Err(NoSenderKeyState))
    else
      var st := store[name][0];
      if st.privateKey.None? then (store, Err(BadKeyLength))
      else
        var k := MessageKeyOf(st.chainKey);
        var body := GroupCbc(CipherKey(k), Iv(k), plaintext);
        var i := k.iteration % U32_SIZE;
        (store[name := store[name][0 := st.(chainKey := NextKey(st.chainKey))]],
         Ok(SenderKeyMessage(st.id, i, body, Signed(st.privateKey.value, st.id, i, body))))
  }

  function OpenGroup(m: SenderKeyMessage, k: SenderMessageKey): Result<Bytes, Error> {
    if m.body.GroupCbc? && m.body.key == CipherKey(k) && m.body.iv == Iv(k)
      then Ok(m.body.plaintext) else Err(InvalidCiphertext)
  }

  predicate SignedBy(m: SenderKeyMessage, key: KeyId) { m.signature == Signed(key, m.keyId, m.iteration, m.body) }

  /** `group_decrypt`: nothing is stored unless the message was decrypted. */
  function GroupDecryptAt(store: GroupStore, name: nat, m: SenderKeyMessage): (GroupStore, Result<Bytes, Error>) {
    if name !in store then (store, Err(InvalidSenderKeyId))
    else
      var states := store[name];
      var j := FindState(states, m.keyId);
      if j == |states| then (store, Err(NoSenderKeyState))
      else if !SignedBy(m, states[j].signingKey) then (store, Err(SignatureValidationFailed))
      else
        var (st, k) := TakeSenderKey(states[j], m.iteration);
        if k.Err? then (store, Err(k.error))
        else
          var text := OpenGroup(m, k.value);
          if text.Err? then (store, text) else (store[name := states[j := st]], text)
  }

  function StatesAt(store: GroupStore, name: nat): seq<GroupState> { if name in store then store[name] else [] }

  /** `process_sender_key_distribution_message`. */
  function ProcessDistributionAt(store: GroupStore, name: nat, d: Distribution): GroupStore {
    store[name := AddState(StatesAt(store, name),
      GroupState(d.id, SenderChainKey(d.iteration, d.chain), d.signingKey, None, []))]
  }

  /** `create_sender_key_distribution_message`; the random draws are parameters. */
  function CreateDistributionAt(store: GroupStore, name: nat, id: nat, seed: GroupSecret,
                                signingKey: KeyId): (GroupStore, Distribution) {
    var states := StatesAt(store, name);
    var created := [GroupState(id, SenderChainKey(0, seed), signingKey, Some(signingKey), [])];
    var st := if states == [] then created[0] else states[0];
    (if states == [] then store[name := created] else store,
     Distribution(st.id, st.chainKey.iteration, st.chainKey.chain, st.signingKey))
  }

  /** `group_encrypt` succeeds exactly with a front state that holds the private signing key.  The
      body is encrypted with bytes 16 to 48 of the material of the state's chain key, bytes 0 to 16
      as initial vector, and signed with the private key; the state moves on by one. */
  lemma GroupEncryptionOutcome(store: GroupStore, name: nat, plaintext: Bytes)
    ensures var (store', r) := GroupEncryptAt(store, name, plaintext);
      if name !in store then store' == store && r == Err(InvalidSenderKeyId)
      else if store[name] == [] then store' == store && r == Err(NoSenderKeyState)
      else if store[name][0].privateKey.None? then store' == store && r == Err(BadKeyLength)
      else
        var st := store[name][0];
        var c, i := st.chainKey.chain, st.chainKey.iteration;
        && r.Ok?
        && r.value.body == GroupCbc(GroupSlice(c, 16, 48), GroupSlice(c, 0, 16), plaintext)
        && r.value.keyId == st.id && r.value.iteration == i % U32_SIZE
        && r.value.signature == Signed(st.privateKey.value, st.id, i % U32_SIZE, r.value.body)
        && store'.Keys == store.Keys && (forall n :: n in store && n != name ==> store'[n] == store[n])
        && store'[name] == [st.(chainKey := SenderChainKey((i + 1) % U32_SIZE, NextSeed(c)))] + store[name][1..]
  {
  }

  /** State `j` is the newest one with the id. */
  ghost predicate NewestOf(states: seq<GroupState>, j: nat, id: nat) {
    j < |states| && states[j].id == id && forall i :: 0 <= i < j ==> states[i].id != id
  }

  /** What `group_decrypt` refuses, in the order of its checks, and with which error; it succeeds
      exactly if the newest state of the key id checks the signature and hands out a key that fits
      the body, and stores that state's successor only then. */
  lemma GroupDecryptionOutcome(store: GroupStore, name: nat, m: SenderKeyMessage, j: nat)
    requires name in store ==> NewestOf(store[name], j, m.keyId) || forall i :: 0 <= i < |store[name]| ==>
      store[name][i].id != m.keyId
    ensures var (store', r) := GroupDecryptAt(store, name, m);
      if name !in store then store' == store && r == Err(InvalidSenderKeyId)
      else if !NewestOf(store[name], j, m.keyId) then store' == store && r == Err(NoSenderKeyState)
      else if m.signature != Signed(store[name][j].signingKey, m.keyId, m.iteration, m.body) then
        store' == store && r == Err(SignatureValidationFailed)
      else
        var (st, k) := TakeSenderKey(store[name][j], m.iteration);
        if k.Err? then store' == store && r == Err(k.error)
        else if m.body.GroupCbc? && m.body.key == GroupSlice(k.value.chain, 16, 48)
          && m.body.iv == GroupSlice(k.value.chain, 0, 16) then
          store' == store[name := store[name][j := st]] && r == Ok(m.body.plaintext)
        else store' == store && r == Err(InvalidCiphertext)
  {
    hide TakeSenderKey;
    if name in store && NewestOf(store[name], j, m.keyId) {
      var f := FindState(store[name], m.keyId);
      assert f <= j && j <= f;
    }
  }

  /** A processed distribution message becomes the front state, with the announced iteration, chain
      key and public signing key, in front of at most the four newest others. */
  lemma DistributionOutcome(store: GroupStore, name: nat, d: Distribution)
    ensures var before := if name in store then store[name] else [];
      ProcessDistributionAt(store, name, d) == store[name :=
        [GroupState(d.id, SenderChainKey(d.iteration, d.chain), d.signingKey, None, [])] + before[..Min(|before|, 4)]]
  {
    var before := if name in store then store[name] else [];
    var st := GroupState(d.id, SenderChainKey(d.iteration, d.chain), d.signingKey, None, []);
    if |before| > 4 { assert ([st] + before)[..5] == [st] + before[..4]; } else { assert before[..|before|] == before; }
  }

  /** A `SenderKeyState` that is updated in place. */
  class SenderKeyState {
    var id: nat
    var chainKey: SenderChainKey
    var signingKey: KeyId
    var privateKey: Option<KeyId>
    var messageKeys: seq<SenderMessageKey>

    ghost function Value(): GroupState
      reads this
    {
      GroupState(id, chainKey, signingKey, privateKey, messageKeys)
    }

    constructor (st: GroupState)
      ensures Value() == st
    {
      id, chainKey, signingKey, privateKey, messageKeys := st.id, st.chainKey, st.signingKey, st.privateKey,
        st.messageKeys;
    }

    method AddSenderMessageKey(k: SenderMessageKey)
      modifies this`messageKeys
      ensures messageKeys == AddMessageKey(old(messageKeys), k)
    {
      messageKeys := messageKeys + [k];
      ghost var q := messageKeys;
      while |messageKeys| > MAX_MESSAGE_KEYS
        invariant |messageKeys| <= |q| && messageKeys == q[|q| - |messageKeys|..]
        invariant |messageKeys| >= MAX_MESSAGE_KEYS || messageKeys == q
        decreases |messageKeys|
      {
        messageKeys := messageKeys[1..];
      }
    }

    method RemoveSenderMessageKey(iteration: u32) returns (k: Option<SenderMessageKey>)
      modifies this`messageKeys
      ensures var p := FindMessageKey(old(messageKeys), iteration);
        if p < |old(messageKeys)| then k == Some(old(messageKeys)[p]) && messageKeys == RemoveAt(old(messageKeys), p)
        else k == None && messageKeys == old(messageKeys)
    {
      var p := 0;
      while p < |messageKeys| && messageKeys[p].iteration != iteration
        invariant p <= |messageKeys|
        invariant forall i :: 0 <= i < p ==> messageKeys[i].iteration != iteration
      {
        p := p + 1;
      }
      assert p == FindMessageKey(messageKeys, iteration);
      if p < |messageKeys| {
        k := Some(messageKeys[p]);
        messageKeys := RemoveAt(messageKeys, p);
      } else {
        k := None;
      }
    }

    method GetSenderKey(iteration: u32) returns (k: Result<SenderMessageKey, Error>)
      modifies this
      ensures Value() == TakeSenderKey(old(Value()), iteration).0
      ensures k == TakeSenderKey(old(Value()), iteration).1
    {
      if chainKey.iteration > iteration {
        var cached := RemoveSenderMessageKey(iteration);
        return if cached.Some? then Ok(cached.value) else Err(DuplicatedMessage(chainKey.iteration, iteration));
      }
      if iteration - chainKey.iteration > MAX_FORWARD_JUMPS {
        return Err(TooFarIntoTheFuture);
      }
      var c := chainKey;
      while c.iteration < iteration
        invariant c.iteration <= iteration
        invariant SkipMessageKeys(c, messageKeys, iteration)
          == SkipMessageKeys(old(chainKey), old(messageKeys), iteration)
        invariant Value() == old(Value()).(messageKeys := messageKeys)
        decreases iteration - c.iteration
      {
        AddSenderMessageKey(MessageKeyOf(c));
        c := NextKey(c);
      }
      chainKey := NextKey(c);
      k := Ok(MessageKeyOf(c));
    }
  }

  /** The sender key store and the four group operations on it. */
  class SenderKeyStore {
    var keys: GroupStore

    constructor ()
      ensures keys == map[]
    {
      keys := map[];
    }

    method GroupEncrypt(name: nat, plaintext: Bytes) returns (r: Result<SenderKeyMessage, Error>)
      modifies this
      ensures keys == GroupEncryptAt(old(keys), name, plaintext).0
      ensures r == GroupEncryptAt(old(keys), name, plaintext).1
    {
      if name !in keys {
        return Err(InvalidSenderKeyId);
      }
      var states := keys[name];
      if states == [] {
        return Err(NoSenderKeyState);
      }
      var st := states[0];
      var k := MessageKeyOf(st.chainKey);
      var body := GroupCbc(CipherKey(k), Iv(k), plaintext);
      if st.privateKey.None? {
        return Err(BadKeyLength);
      }
      var i := k.iteration % U32_SIZE;
      r := Ok(SenderKeyMessage(st.id, i, body, Signed(st.privateKey.value, st.id, i, body)));
      states := states[0 := st.(chainKey := NextKey(st.chainKey))];
      keys := keys[name := states];
    }

    method GroupDecrypt(name: nat, m: SenderKeyMessage) returns (r: Result<Bytes, Error>)
      modifies this
      ensures keys == GroupDecryptAt(old(keys), name, m).0
      ensures r == GroupDecryptAt(old(keys), name, m).1
    {
      if name !in keys {
        return Err(InvalidSenderKeyId);
      }
      var states := keys[name];
      var j := 0;
      while j < |states| && states[j].id != m.keyId
        invariant j <= |states|
        invariant forall i :: 0 <= i < j ==> states[i].id != m.keyId
      {
        j := j + 1;
      }
      assert j == FindState(states, m.keyId);
      if j == |states| {
        return Err(NoSenderKeyState);
      }
      if !SignedBy(m, states[j].signingKey) {
        return Err(SignatureValidationFailed);
      }
      var state := new SenderKeyState(states[j]);
      var k := state.GetSenderKey(m.iteration);
      if k.Err? {
        return Err(k.error);
      }
      r := OpenGroup(m, k.value);
      if r.Ok? {
        var st := GroupState(state.id, state.chainKey, state.signingKey, state.privateKey, state.messageKeys);
        keys := keys[name := states[j := st]];
      }
    }

    method ProcessDistribution(name: nat, d: Distribution)
      modifies this
      ensures keys == ProcessDistributionAt(old(keys), name, d)
    {
      var states := if name in keys then keys[name] else [];
      states := [GroupState(d.id, SenderChainKey(d.iteration, d.chain), d.signingKey, None, [])] + states;
      ghost var q := states;
      while |states| > MAX_SENDER_KEY_STATES
        invariant |states| <= |q| && states == q[..|states|]
        invariant |states| >= MAX_SENDER_KEY_STATES || states == q
        decreases |states|
      {
        states := states[..|states| - 1];
      }
      keys := keys[name := states];
    }

    method CreateDistribution(name: nat, id: nat, seed: GroupSecret, signingKey: KeyId) returns (d: Distribution)
      modifies this
      ensures keys == CreateDistributionAt(old(keys), name, id, seed, signingKey).0
      ensures d == CreateDistributionAt(old(keys), name, id, seed, signingKey).1
    {
      var states := if name in keys then keys[name] else [];
      if states == [] {
        states := [GroupState(id, SenderChainKey(0, seed), signingKey, Some(signingKey), [])];
        keys := keys[name := states];
      }
      d := Distribution(states[0].id, states[0].chainKey.iteration, states[0].chainKey.chain, states[0].signingKey);
    }
  }
}
