/** `kdf.rs`: HKDF expansion, against section 2.3 of RFC 5869. */
module Hkdf {
  import opened Prelude

  type Hash = h: seq<byte> | |h| == 32 witness seq(32, _ => 0)

  /** HMAC-SHA256 as a function of key and message; nothing else about it is used. */
  type Hmac = (seq<byte>, seq<byte>) -> Hash

  /** The first counter byte is 0 for version 2 and 1 for version 3. */
  function StartOffset(version: nat): Result<byte, Error> {
    if version == 2 then Ok(0) else if version == 3 then Ok(1) else Err(UnrecognizedMessageVersion(version))
  }

  /** The counter byte of block `i` (from 0): the index cast to `u8`, plus the offset, as `u8`. */
  function CounterByte(offset: byte, i: nat): byte { (i % 256 + offset) % 256 }

  /** Output block `i` (from 0) as the code computes it, with its 8-bit counter. */
  function CodeBlock(hmac: Hmac, prk: seq<byte>, info: seq<byte>, offset: byte, i: nat): Hash {
    var previous: seq<byte> := if i == 0 then [] else CodeBlock(hmac, prk, info, offset, i - 1);
    hmac(prk, previous + info + [CounterByte(offset, i)])
  }

  function CodeBlocks(hmac: Hmac, prk: seq<byte>, info: seq<byte>, offset: byte, n: nat): (r: seq<byte>)
    ensures |r| == 32 * n
  {
    if n == 0 then [] else CodeBlocks(hmac, prk, info, offset, n - 1) + CodeBlock(hmac, prk, info, offset, n - 1)
  }

  /** T(0) is empty; T(i) = HMAC(PRK, T(i-1) | info | i). */
  function T(hmac: Hmac, prk: seq<byte>, info: seq<byte>, i: nat): seq<byte>
    requires i <= 255
  {
    if i == 0 then [] else hmac(prk, T(hmac, prk, info, i - 1) + info + [i])
  }

  /** T(1) | T(2) | ... | T(n) */
  function Okm(hmac: Hmac, prk: seq<byte>, info: seq<byte>, n: nat): seq<byte>
    requires n <= 255
  {
    if n == 0 then [] else Okm(hmac, prk, info, n - 1) + T(hmac, prk, info, n)
  }

  function Rounds(length: nat): (n: nat)
    ensures length <= 32 * n < length + 32
  {
    (length + 31) / 32
  }

  /** `expand`: chains HMACs, feeding the last 32 bytes of the result back in. */
  method Expand(hmac: Hmac, prk: seq<byte>, info: seq<byte>, offset: byte, length: nat) returns (r: seq<byte>)
    ensures r == CodeBlocks(hmac, prk, info, offset, Rounds(length))[..length]
    ensures offset == 1 && length <= 255 * 32 ==>
      |Okm(hmac, prk, info, Rounds(length))| >= length && r == Okm(hmac, prk, info, Rounds(length))[..length]
  {
    var iterations := (length + 32 - 1) / 32;
    var result: seq<byte> := [];
    for i := 0 to iterations
      invariant result == CodeBlocks(hmac, prk, info, offset, i)
    {
      var input: seq<byte> := [];
      if |result| >= 32 {
        LastBlock(hmac, prk, info, offset, i);
        input := input + result[|result| - 32..];
      }
      input := input + info;
      input := input + [CounterByte(offset, i)];
      var d := hmac(prk, input);
      ghost var previous := if i == 0 then [] else CodeBlock(hmac, prk, info, offset, i - 1);
      assert input == previous + info + [CounterByte(offset, i)];
      result := result + d;
    }
    r := result[..length];
    if offset == 1 && length <= 255 * 32 { BlocksAreOkm(hmac, prk, info, iterations); }
  }

  lemma LastBlock(hmac: Hmac, prk: seq<byte>, info: seq<byte>, offset: byte, n: nat)
    requires n > 0
    ensures CodeBlocks(hmac, prk, info, offset, n)[32 * n - 32..] == CodeBlock(hmac, prk, info, offset, n - 1)
  {
  }

  /** No counter overflows: for version 3 the code's block `i` is T(i + 1), for up to 255 blocks. */
  lemma {:induction false} BlockIsT(hmac: Hmac, prk: seq<byte>, info: seq<byte>, i: nat)
    requires i < 255
    ensures CodeBlock(hmac, prk, info, 1, i) == T(hmac, prk, info, i + 1)
  {
    if i > 0 { BlockIsT(hmac, prk, info, i - 1); }
  }

  lemma {:induction false} BlocksAreOkm(hmac: Hmac, prk: seq<byte>, info: seq<byte>, n: nat)
    requires n <= 255
    ensures CodeBlocks(hmac, prk, info, 1, n) == Okm(hmac, prk, info, n)
  {
    if n > 0 {
      BlocksAreOkm(hmac, prk, info, n - 1);
      BlockIsT(hmac, prk, info, n - 1);
    }
  }

  /** For version 3 the counter byte of a block is the number that T gives it exactly for the first
      255 blocks, and the counter bytes of all blocks differ exactly up to 256 blocks. */
  lemma CounterIsBlockNumberIff(i: nat, n: nat)
    ensures CounterByte(1, i) == i + 1 <==> i < 255
    ensures (forall j, k :: 0 <= j < k < n ==> CounterByte(1, j) != CounterByte(1, k)) <==> n <= 256
  {
    if n > 256 {
      assert CounterByte(1, 0) == CounterByte(1, 256);
    }
  }

  /** Every 32-byte block of the output is the HMAC of the block before it (nothing for the first),
      the info and the block's number from 1. */
  lemma {:induction false} OutputBlocksChain(hmac: Hmac, prk: seq<byte>, info: seq<byte>, n: nat, i: nat)
    requires i < n <= 255
    ensures var okm := Okm(hmac, prk, info, n);
      && |okm| == 32 * n
      && okm[32 * i..32 * i + 32]
           == hmac(prk, (if i == 0 then [] else okm[32 * i - 32..32 * i]) + info + [i + 1])
  {
    OkmBlock(hmac, prk, info, n, i);
    if i > 0 { OkmBlock(hmac, prk, info, n, i - 1); }
  }

  lemma {:induction false} OkmBlock(hmac: Hmac, prk: seq<byte>, info: seq<byte>, n: nat, i: nat)
    requires i < n <= 255
    ensures |Okm(hmac, prk, info, n)| == 32 * n
    ensures Okm(hmac, prk, info, n)[32 * i..32 * i + 32] == T(hmac, prk, info, i + 1)
  {
    if n > 1 { OkmBlock(hmac, prk, info, n - 1, if i < n - 1 then i else 0); }
    var shorter, last := Okm(hmac, prk, info, n - 1), T(hmac, prk, info, n);
    assert Okm(hmac, prk, info, n) == shorter + last;
    if i < n - 1 { assert (shorter + last)[32 * i..32 * i + 32] == shorter[32 * i..32 * i + 32]; }
  }

  lemma {:induction false} BlocksArePrefix(hmac: Hmac, prk: seq<byte>, info: seq<byte>, offset: byte, m: nat, n: nat)
    requires m <= n
    ensures CodeBlocks(hmac, prk, info, offset, m) == CodeBlocks(hmac, prk, info, offset, n)[..32 * m]
    decreases n
  {
    if m < n {
      BlocksArePrefix(hmac, prk, info, offset, m, n - 1);
      var shorter := CodeBlocks(hmac, prk, info, offset, n - 1);
      assert CodeBlocks(hmac, prk, info, offset, n)[..32 * m] == shorter[..32 * m];
    }
  }

  /** Shorter outputs are prefixes of longer ones. */
  lemma ShorterIsPrefix(hmac: Hmac, prk: seq<byte>, info: seq<byte>, offset: byte, short: nat, long: nat)
    requires short <= long
    ensures var a, b := CodeBlocks(hmac, prk, info, offset, Rounds(short))[..short],
      CodeBlocks(hmac, prk, info, offset, Rounds(long))[..long];
      a == b[..short]
  {
    assert Rounds(short) <= Rounds(long);
    BlocksArePrefix(hmac, prk, info, offset, Rounds(short), Rounds(long));
  }

  /** `derive_salted_secrets`: extract, then expand. */
  method DeriveSaltedSecrets(hmac: Hmac, version: nat, ikm: seq<byte>, salt: seq<byte>, info: seq<byte>, length: nat)
    returns (r: Result<seq<byte>, Error>)
    ensures version != 2 && version != 3 ==> r == Err(UnrecognizedMessageVersion(version))
    ensures version == 3 && length <= 255 * 32 ==>
      |Okm(hmac, hmac(salt, ikm), info, Rounds(length))| >= length
      && r == Ok(Okm(hmac, hmac(salt, ikm), info, Rounds(length))[..length])
    ensures version == 2 ==> r == Ok(CodeBlocks(hmac, hmac(salt, ikm), info, 0, Rounds(length))[..length])
  {
    var offset := StartOffset(version);
    if offset.Err? {
      return Err(offset.error);
    }
    var prk := hmac(salt, ikm);
    var okm := Expand(hmac, prk, info, offset.value, length);
    r := Ok(okm);
  }
}
