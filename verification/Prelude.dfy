/** Shared result types, the protocol's error kinds and its size limits. */
module Prelude {

  datatype Option<+T> = None | Some(value: T)

  datatype Result<+T, +E> = Ok(value: T) | Err(error: E)

  /** The kinds of `SignalProtocolError` that the modelled code returns. */
  datatype Error =
    | InvalidSessionStructure
    | InvalidProtobufEncoding
    | UnrecognizedMessageVersion(version: nat)
    | DuplicatedMessage(chain: nat, counter: nat)
    | TooFarIntoTheFuture
    | NoMatchingSession
    | InvalidCiphertext
    | InvalidState
    | SessionNotFound
    | UntrustedIdentity
    | InvalidPreKeyId
    | InvalidSignedPreKeyId
    | SignatureValidationFailed
    | InvalidSenderKeyId
    | NoSenderKeyState
    | BadKeyLength

  const MAX_FORWARD_JUMPS: nat := 2000
  const MAX_MESSAGE_KEYS: nat := 2000
  const MAX_RECEIVER_CHAINS: nat := 5
  const ARCHIVED_STATES_MAX_LENGTH: nat := 40
  const MAX_SENDER_KEY_STATES: nat := 5
  const CURRENT_VERSION: nat := 3

  const U32_SIZE: nat := 0x1_0000_0000

  function Min(a: nat, b: nat): nat { if a <= b then a else b }

  type u32 = n: nat | n < U32_SIZE

  type byte = n: nat | n < 256

  /** `position` with a predicate: the index of the first element satisfying `p`, or `|s|`. */
  function IndexWhere<T>(s: seq<T>, p: T -> bool): (i: nat)
    ensures i <= |s|
    ensures i < |s| ==> p(s[i])
    ensures forall j :: 0 <= j < i ==> !p(s[j])
  {
    if s == [] || p(s[0]) then 0 else
      var i := IndexWhere(s[1..], p);
      assert forall j :: 1 <= j < i + 1 ==> s[j] == s[1..][j - 1];
      1 + i
  }

  /** `position`: the index of the first element equal to `x`, or `|s|`. */
  function IndexOf<T(==)>(s: seq<T>, x: T): (i: nat)
    ensures i <= |s|
    ensures i < |s| ==> s[i] == x
    ensures forall j :: 0 <= j < i ==> s[j] != x
  {
    if s == [] || s[0] == x then 0 else 1 + IndexOf(s[1..], x)
  }

  /** `Vec::remove`: the sequence without the element at index `i`. */
  function RemoveAt<T>(s: seq<T>, i: nat): (r: seq<T>)
    requires i < |s|
    ensures |r| == |s| - 1
  {
    s[..i] + s[i + 1..]
  }
}
