/** `ratchet/keys.rs`: the symmetric and the Diffie-Hellman ratchet, and the facts about
    key terms on which every protocol theorem rests. */
module Ratchet {
  import opened Prelude
  import opened Crypto

  /** `ChainKey::next_chain_key`; the u32 index wraps. */
  function Next(c: ChainKey): ChainKey {
    ChainKey(c.version, NextChain(c.key), (c.index + 1) % U32_SIZE)
  }

  /** `ChainKey::message_keys`. */
  function KeysOf(c: ChainKey): MessageKeys {
    MessageKeys(Slice(c.version, c.key, 0, 32), Slice(c.version, c.key, 32, 64),
                Slice(c.version, c.key, 64, 80), c.index)
  }

  /** `RootKey::create_chain`. */
  function CreateChain(version: nat, root: RootKey, theirs: KeyId, ours: KeyId): (RootKey, ChainKey) {
    var shared := Agree(theirs, ours);
    (NextRoot(version, root, shared), ChainKey(version, RatchetChain(version, root, shared), 0))
  }

  /** `derive_keys` on the concatenated X3DH agreements. */
  function DeriveKeys(secrets: seq<Dh>): (RootKey, ChainKey) {
    (InitialRoot(secrets), ChainKey(CURRENT_VERSION, InitialChain(secrets), 0))
  }

  /** The chain secret `i` symmetric steps after `c`. */
  function Nth(c: ChainSecret, i: nat): ChainSecret {
    if i == 0 then c else NextChain(Nth(c, i - 1))
  }

  function KeyAt(c: ChainSecret, i: nat): ChainKey {
    ChainKey(CURRENT_VERSION, Nth(c, i), i)
  }

  /** A session's ratchet keys in the order in which they took effect: entry 0 is the
      responder's signed pre-key, odd entries are the initiator's, even ones the responder's.
      Epoch `n` is the sending chain that goes with entry `n`. */
  function RootAt(secrets: seq<Dh>, keys: seq<KeyId>, n: nat): RootKey
    requires n < |keys|
  {
    if n == 0 then InitialRoot(secrets)
    else NextRoot(CURRENT_VERSION, RootAt(secrets, keys, n - 1), Agree(keys[n], keys[n - 1]))
  }

  function ChainAt(secrets: seq<Dh>, keys: seq<KeyId>, n: nat): ChainSecret
    requires n < |keys|
  {
    if n == 0 then InitialChain(secrets)
    else RatchetChain(CURRENT_VERSION, RootAt(secrets, keys, n - 1), Agree(keys[n], keys[n - 1]))
  }

  /** Number of Diffie-Hellman steps behind a root key. */
  function Depth(r: RootKey): nat {
    match r case InitialRoot(_) => 0 case NextRoot(_, prev, _) => 1 + Depth(prev)
  }

  /** The X3DH secrets from which a term descends. */
  function RootOrigin(r: RootKey): seq<Dh> {
    match r case InitialRoot(s) => s case NextRoot(_, prev, _) => RootOrigin(prev)
  }

  function ChainOrigin(c: ChainSecret): seq<Dh> {
    match c
    case InitialChain(s) => s
    case RatchetChain(_, root, _) => RootOrigin(root)
    case NextChain(prev) => ChainOrigin(prev)
  }

  /** The chain secret with its symmetric steps stripped, and their number. */
  function Base(c: ChainSecret): (b: ChainSecret)
    ensures !b.NextChain?
  {
    if c.NextChain? then Base(c.prev) else c
  }

  function Steps(c: ChainSecret): nat {
    if c.NextChain? then 1 + Steps(c.prev) else 0
  }

  lemma {:induction false} RootAtFacts(secrets: seq<Dh>, keys: seq<KeyId>, n: nat)
    requires n < |keys|
    ensures Depth(RootAt(secrets, keys, n)) == n
    ensures RootOrigin(RootAt(secrets, keys, n)) == secrets
    ensures ChainOrigin(ChainAt(secrets, keys, n)) == secrets
  {
    if n > 0 { RootAtFacts(secrets, keys, n - 1); }
  }

  /** Epochs depend only on the keys up to them. */
  lemma {:induction false} EpochPrefix(secrets: seq<Dh>, keys: seq<KeyId>, more: seq<KeyId>, n: nat)
    requires n < |keys|
    ensures RootAt(secrets, keys + more, n) == RootAt(secrets, keys, n)
    ensures ChainAt(secrets, keys + more, n) == ChainAt(secrets, keys, n)
  {
    if n > 0 { EpochPrefix(secrets, keys, more, n - 1); }
  }

  lemma {:induction false} NthFacts(c: ChainSecret, i: nat)
    ensures Base(Nth(c, i)) == Base(c)
    ensures Steps(Nth(c, i)) == Steps(c) + i
    ensures ChainOrigin(Nth(c, i)) == ChainOrigin(c)
  {
    if i > 0 { NthFacts(c, i - 1); }
  }

  /** Every epoch and counter of one lineage has its own chain secret, hence its own
      message keys: (epoch, counter) is recoverable from the key term. */
  lemma ChainSecretsDistinct(secrets: seq<Dh>, keys: seq<KeyId>, e: nat, i: nat, e': nat, i': nat)
    requires e < |keys| && e' < |keys|
    requires Nth(ChainAt(secrets, keys, e), i) == Nth(ChainAt(secrets, keys, e'), i')
    ensures e == e' && i == i'
  {
    NthFacts(ChainAt(secrets, keys, e), i);
    NthFacts(ChainAt(secrets, keys, e'), i');
    if e > 0 { RootAtFacts(secrets, keys, e - 1); }
    if e' > 0 { RootAtFacts(secrets, keys, e' - 1); }
  }

  /** A chain opened on the root of epoch `n` can only meet the lineage at epoch `n + 1`. */
  lemma OpenedChainMeetsOnlyNextEpoch(
    secrets: seq<Dh>, keys: seq<KeyId>, n: nat, shared: Dh, j: nat, e: nat, i: nat)
    requires n < |keys| && e < |keys|
    requires Nth(RatchetChain(CURRENT_VERSION, RootAt(secrets, keys, n), shared), j)
          == Nth(ChainAt(secrets, keys, e), i)
    ensures e == n + 1 && i == j
  {
    NthFacts(RatchetChain(CURRENT_VERSION, RootAt(secrets, keys, n), shared), j);
    NthFacts(ChainAt(secrets, keys, e), i);
    RootAtFacts(secrets, keys, n);
    if e > 0 { RootAtFacts(secrets, keys, e - 1); }
  }
}
