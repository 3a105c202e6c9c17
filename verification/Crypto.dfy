/** Symbolic cryptography.  Every primitive is a free constructor, so two terms are
    equal exactly when they were built in the same way from the same inputs.  A key
    pair is named by one id: the id stands for the private key and for its public key. */
module Crypto {
  import opened Prelude

  type KeyId = nat
  type Bytes = seq<nat>

  /** A Diffie-Hellman output: the unordered pair of the two secrets involved. */
  datatype Dh = Dh(lo: KeyId, hi: KeyId)

  function Agree(theirs: KeyId, ours: KeyId): Dh {
    if theirs <= ours then Dh(theirs, ours) else Dh(ours, theirs)
  }

  /** 32-byte root keys: the first half of HKDF(X3DH secrets, "WhisperText"), or the
      first half of HKDF(shared, salt = previous root, "WhisperRatchet"). */
  datatype RootKey =
    | InitialRoot(secrets: seq<Dh>)
    | NextRoot(version: nat, prev: RootKey, shared: Dh)

  /** 32-byte chain keys: the second halves of the same two derivations, or
      HMAC(previous chain key, 0x02). */
  datatype ChainSecret =
    | InitialChain(secrets: seq<Dh>)
    | RatchetChain(version: nat, root: RootKey, shared: Dh)
    | NextChain(prev: ChainSecret)

  datatype ChainKey = ChainKey(version: nat, key: ChainSecret, index: nat)

  /** Bytes `lo..hi` of HKDF(HMAC(chain key, 0x01), "WhisperMessageKeys"). */
  datatype Slice = Slice(version: nat, chain: ChainSecret, lo: nat, hi: nat)

  datatype MessageKeys = MessageKeys(cipherKey: Slice, macKey: Slice, iv: Slice, counter: nat)

  /** AES-256-CBC output, or bytes that are not the encryption of anything. */
  datatype Ciphertext = Cbc(key: Slice, iv: Slice, plaintext: Bytes) | Noise(bytes: Bytes)

  function CbcDecrypt(c: Ciphertext, key: Slice, iv: Slice): Result<Bytes, Error> {
    if c.Cbc? && c.key == key && c.iv == iv then Ok(c.plaintext) else Err(InvalidCiphertext)
  }

  /** The authenticated fields of a `SignalMessage`. */
  datatype Content = Content(
    version: nat, ratchetKey: KeyId, counter: u32, previousCounter: nat, body: Ciphertext)

  datatype Tag =
    | Hmac(key: Slice, sender: KeyId, receiver: KeyId, content: Content)
    | Junk(bytes: Bytes)

  datatype SignalMessage = SignalMessage(content: Content, tag: Tag)

  datatype PreKeySignalMessage = PreKeySignalMessage(
    version: nat, preKeyId: Option<nat>, signedPreKeyId: nat, baseKey: KeyId,
    identityKey: KeyId, message: SignalMessage)

  datatype CiphertextMessage =
    | Whisper(signal: SignalMessage)
    | PreKey(preKey: PreKeySignalMessage)

  /** The inner message of either kind. */
  function Inner(m: CiphertextMessage): SignalMessage {
    match m case Whisper(s) => s case PreKey(p) => p.message
  }

  lemma AgreeInjective(a: KeyId, b: KeyId, c: KeyId)
    ensures Agree(a, b) == Agree(a, c) ==> b == c
    ensures Agree(a, b) == Agree(b, a)
  {
  }
}
