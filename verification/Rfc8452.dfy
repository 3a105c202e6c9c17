/** AES-256-GCM-SIV as sections 4 and 5 of RFC 8452 state it, byte by byte and number by number,
    without the functions of `GcmSiv`; and why `encrypt` and `decrypt` meet it. */
module Rfc8452 {
  import opened Prelude
  import opened Gf2
  import opened Polyval
  import opened GcmSiv

  // ------------------------------------------------------------------- the statement

  /** Key derivation: the first eight bytes of consecutive blocks, each the encryption of a
      little-endian index and the nonce. */
  ghost predicate IsDerived(aes: BlockFunction, key: Key, nonce: seq<byte>, first: nat, derived: seq<byte>)
    requires |nonce| == NONCE_SIZE && first + |derived| / 8 < 256
  {
    forall j :: 0 <= j < |derived| ==> derived[j] == aes(key, [first + j / 8, 0, 0, 0] + nonce)[j % 8]
  }

  /** Block `n` of data that is padded with zeros to full blocks. */
  function PaddedBlock(data: seq<byte>, n: nat): Block {
    seq(16, j requires 0 <= j < 16 => if 16 * n + j < |data| then data[16 * n + j] else 0)
  }

  function PaddedNumbers(data: seq<byte>): seq<nat> {
    seq((|data| + 15) / 16, n requires 0 <= n => LoadLe(PaddedBlock(data, n)))
  }

  /** The bit lengths of associated data and plaintext, in the low and the high half. */
  function Lengths(aad: seq<byte>, data: seq<byte>): nat { 8 * |aad| + 0x1_0000_0000_0000_0000 * (8 * |data|) }

  /** The digest with the nonce mixed into bytes 0 to 11 and the top bit of byte 15 cleared. */
  ghost predicate IsMasked(t: Block, s: Block, nonce: seq<byte>)
    requires |nonce| == NONCE_SIZE
  {
    && (forall j :: 0 <= j < 12 ==> t[j] == Xor(s[j], nonce[j]))
    && (forall j :: 12 <= j < 15 ==> t[j] == s[j])
    && t[15] == if s[15] >= 128 then s[15] - 128 else s[15]
  }

  /** Counter block `n`: a little-endian counter in bytes 0 to 3 that starts with those of the tag
      and wraps, the rest of the tag, and the top bit of byte 15 set. */
  ghost predicate IsCounter(c: Block, tag: Block, n: nat) {
    && LoadLe(c[..4]) == (LoadLe(tag[..4]) + n) % U32_SIZE
    && (forall j :: 4 <= j < 15 ==> c[j] == tag[j])
    && c[15] == if tag[15] >= 128 then tag[15] else tag[15] + 128
  }

  ghost predicate IsCipher(aes: BlockFunction, key: Key, tag: Block, data: seq<byte>, cipher: seq<byte>) {
    && |cipher| == |data|
    && forall j, c: Block :: 0 <= j < |data| && IsCounter(c, tag, j / 16) ==>
       cipher[j] == Xor(data[j], aes(key, c)[j % 16])
  }

  /** The tag of the plaintext under the derived keys. */
  ghost predicate IsTag(aes: BlockFunction, mk: Key, pk: Block, nonce: seq<byte>, aad: seq<byte>, data: seq<byte>,
                        s: Block, t: Block, tag: Block)
    requires |nonce| == NONCE_SIZE
  {
    && IsPolyval(LoadLe(s), 0, LoadLe(pk), PaddedNumbers(aad) + PaddedNumbers(data) + [Lengths(aad, data)])
    && IsMasked(t, s, nonce) && tag == aes(mk, t)
  }

  /** `tag` and `cipher` are the encryption of `data`. */
  ghost predicate IsSealed(aes: BlockFunction, key: Key, nonce: seq<byte>, aad: seq<byte>, data: seq<byte>, tag: Block,
                           cipher: seq<byte>)
    requires |nonce| == NONCE_SIZE
  {
    exists mk: Key, pk: Block, s: Block, t: Block ::
      && IsDerived(aes, key, nonce, 0, pk) && IsDerived(aes, key, nonce, 2, mk)
      && IsTag(aes, mk, pk, nonce, aad, data, s, t, tag)
      && IsCipher(aes, mk, tag, data, cipher)
  }

  // ------------------------------------------------------------------- little endian

  function Power(i: nat): nat { if i == 0 then 1 else 256 * Power(i - 1) }

  /** Digit `i` to the base 256. */
  function Digit(n: nat, i: nat): nat { if i == 0 then n % 256 else Digit(n / 256, i - 1) }

  /** Byte `i` of a little-endian number is its digit `i`. */
  lemma {:induction false} LoadLeDigit(b: seq<byte>, i: nat)
    requires i < |b|
    ensures Digit(LoadLe(b), i) == b[i]
  {
    if i > 0 { LoadLeDigit(b[1..], i - 1); }
  }

  /** A number has one encoding of each length. */
  lemma {:induction false} LoadLeInjective(a: seq<byte>, b: seq<byte>)
    requires |a| == |b| && LoadLe(a) == LoadLe(b)
    ensures a == b
  {
    if a != [] {
      LoadLeInjective(a[1..], b[1..]);
      assert a == [a[0]] + a[1..] && b == [b[0]] + b[1..];
    }
  }

  lemma {:induction false} LoadLeConcat(a: seq<byte>, b: seq<byte>)
    ensures LoadLe(a + b) == LoadLe(a) + Power(|a|) * LoadLe(b)
  {
    if a == [] {
      assert a + b == b;
    } else {
      LoadLeConcat(a[1..], b);
      assert (a + b)[1..] == a[1..] + b;
      assert Power(|a|) * LoadLe(b) == 256 * (Power(|a| - 1) * LoadLe(b));
    }
  }

  lemma {:induction false} StoreLeLoads(n: nat, k: nat)
    requires n < Power(k)
    ensures LoadLe(StoreLe(n, k)) == n
  {
    if k > 0 {
      StoreLeLoads(n / 256, k - 1);
      assert StoreLe(n, k)[1..] == StoreLe(n / 256, k - 1);
    }
  }

  lemma PowerOf8()
    ensures Power(4) == U32_SIZE && Power(8) == 0x1_0000_0000_0000_0000
  {
    assert Power(2) == 65536;
    assert Power(4) == 65536 * 65536;
    assert Power(6) == 65536 * Power(4);
  }

  lemma {:induction false} ShlIsProduct(a: nat, k: nat)
    ensures Shl(a, k) == a * Shl(1, k)
  {
    if k > 0 { ShlIsProduct(a, k - 1); }
  }

  /** The polynomial in a loaded block is the block's little-endian number. */
  lemma BlockIsNumber(b: Block)
    ensures Value(LoadBlock(b)) == LoadLe(b)
  {
    hide LoadLe, Power, Xor, Fits;
    var lo, hi := b[..8], b[8..];
    assert b == lo + hi;
    LoadLeConcat(lo, hi);
    LoadFits(lo);
    XorAbove(LoadLe(lo), LoadLe(hi), 64);
    XorCommutes(LoadLe(lo), Shl(LoadLe(hi), 64));
    ShlIsProduct(LoadLe(hi), 64);
    PowerOf8();
    PowersOfTwo();
  }

  lemma PowersOfTwo()
    ensures Shl(1, 64) == 0x1_0000_0000_0000_0000
  {
    hide Shl;
    SmallPower();
    PowerSquared(4);
    PowerSquared(8);
    PowerSquared(16);
    PowerSquared(32);
  }

  lemma SmallPower()
    ensures Shl(1, 4) == 16
  {
  }

  lemma PowerSquared(k: nat)
    ensures Shl(1, 2 * k) == Shl(1, k) * Shl(1, k)
  {
    ShlAdds(1, k, k);
    ShlIsProduct(Shl(1, k), k);
  }

  // ---------------------------------------------------------- the parts of the code

  lemma {:induction false} ChunksArePadded(data: seq<byte>)
    ensures Values(Chunks(data)) == PaddedNumbers(data)
    decreases |data|
  {
    hide LoadLe;
    if 0 < |data| < 16 {
      assert PaddedBlock(data, 0) == data + seq(16 - |data|, _ => 0);
      BlockIsNumber(PaddedBlock(data, 0));
      assert PaddedNumbers(data) == [LoadLe(PaddedBlock(data, 0))];
    } else if |data| >= 16 {
      var rest := data[16..];
      ChunksArePadded(rest);
      assert PaddedBlock(data, 0) == data[..16];
      BlockIsNumber(data[..16]);
      PaddedStep(data);
      assert Values(Chunks(data)) == [Value(LoadBlock(data[..16]))] + Values(Chunks(rest));
    }
  }

  lemma PaddedStep(data: seq<byte>)
    requires |data| >= 16
    ensures PaddedNumbers(data) == [LoadLe(PaddedBlock(data, 0))] + PaddedNumbers(data[16..])
  {
    hide LoadLe;
    var rest := data[16..];
    forall n | 0 <= n < (|rest| + 15) / 16 ensures PaddedBlock(data, n + 1) == PaddedBlock(rest, n) {
    }
  }

  /** The length block holds the two bit lengths. */
  lemma LengthBlockIsLengths(aad: seq<byte>, data: seq<byte>)
    requires |aad| <= AAD_MAX && |data| <= PTEXT_MAX
    ensures Value(LoadBlock(LengthBlock(aad, data))) == Lengths(aad, data)
    ensures LoadLe(LengthBlock(aad, data)[..8]) == 8 * |aad| && LoadLe(LengthBlock(aad, data)[8..]) == 8 * |data|
  {
    hide LoadLe, StoreLe, Power;
    var b, lo, hi := LengthBlock(aad, data), StoreLe(|aad| * 8, 8), StoreLe(|data| * 8, 8);
    PowerOf8();
    StoreLeLoads(|aad| * 8, 8);
    StoreLeLoads(|data| * 8, 8);
    LoadLeConcat(lo, hi);
    BlockIsNumber(b);
    assert b == lo + hi && b[..8] == lo && b[8..] == hi;
  }

  /** The 16 bytes of the digest are POLYVAL of the padded associated data, the padded plaintext
      and the two lengths. */
  lemma DigestIsRfc8452(polyvalKey: Block, aad: seq<byte>, data: seq<byte>)
    requires |aad| <= AAD_MAX && |data| <= PTEXT_MAX
    ensures IsPolyval(LoadLe(StoreReg(Digest(polyvalKey, aad, data))), 0, LoadLe(polyvalKey),
                      PaddedNumbers(aad) + PaddedNumbers(data) + [Lengths(aad, data)])
  {
    hide LoadLe, StoreLe, Digest, IsPolyval, StoreReg, Chunks, LoadBlock, LengthBlock;
    DigestIsPolyval(polyvalKey, aad, data);
    BlockIsNumber(StoreReg(Digest(polyvalKey, aad, data)));
    BlockIsNumber(polyvalKey);
    ChunksArePadded(aad);
    ChunksArePadded(data);
    LengthBlockIsLengths(aad, data);
    assert Values(Chunks(aad) + Chunks(data) + [LengthBlock(aad, data)])
        == Values(Chunks(aad)) + Values(Chunks(data)) + [Value(LoadBlock(LengthBlock(aad, data)))];
  }

  lemma TagInputIsMasked(s: Block, nonce: seq<byte>)
    requires |nonce| == NONCE_SIZE
    ensures IsMasked(TagInput(s, nonce), s, nonce)
  {
    hide Xor;
  }

  lemma CounterBlockIsCounter(tag: Block, n: nat)
    ensures IsCounter(CounterBlock(tag, n), tag, n)
  {
    hide LoadLe, StoreLe, Power;
    var c := CounterBlock(tag, n);
    PowerOf8();
    StoreLeLoads((LoadLe(tag[..4]) + n) % U32_SIZE, 4);
    assert c[..4] == StoreLe((LoadLe(tag[..4]) + n) % U32_SIZE, 4);
  }

  /** There is one counter block of each number. */
  lemma CounterIsUnique(c: Block, c': Block, tag: Block, n: nat)
    requires IsCounter(c, tag, n) && IsCounter(c', tag, n)
    ensures c == c'
  {
    hide LoadLe;
    LoadLeInjective(c[..4], c'[..4]);
    assert c == c[..4] + c[4..15] + [c[15]] && c' == c'[..4] + c'[4..15] + [c'[15]];
    assert c[4..15] == c'[4..15];
  }

  lemma CtrIsCipher(aes: BlockFunction, key: Key, tag: Block, data: seq<byte>, cipher: seq<byte>)
    ensures IsCipher(aes, key, tag, data, cipher) <==> cipher == Ctr(aes, key, tag, data)
  {
    hide CounterBlock, IsCounter, Xor;
    forall j, c: Block | 0 <= j < |data| && IsCounter(c, tag, j / 16) ensures c == CounterBlock(tag, j / 16) {
      CounterBlockIsCounter(tag, j / 16);
      CounterIsUnique(c, CounterBlock(tag, j / 16), tag, j / 16);
    }
    if IsCipher(aes, key, tag, data, cipher) {
      forall j | 0 <= j < |data| ensures cipher[j] == Ctr(aes, key, tag, data)[j] {
        CounterBlockIsCounter(tag, j / 16);
      }
    }
  }

  lemma SmallIndex(i: nat)
    requires i < 256
    ensures StoreLe(i, 4) == [i, 0, 0, 0]
  {
    StoreBytes(i);
    assert StoreLe(i, 4) == [i % 256] + StoreLe(i / 256, 3);
    assert StoreLe(0, 3) == [0] + StoreLe(0, 2) == [0] + ([0] + StoreLe(0, 1));
  }

  lemma KeysAreDerived(aes: BlockFunction, key: Key, nonce: seq<byte>)
    requires |nonce| == NONCE_SIZE
    ensures IsDerived(aes, key, nonce, 0, PolyvalKey(aes, key, nonce))
    ensures IsDerived(aes, key, nonce, 2, MessageKey(aes, key, nonce))
  {
    hide StoreLe;
    SmallIndex(0);
    SmallIndex(1);
    SmallIndex(2);
    SmallIndex(3);
    SmallIndex(4);
    SmallIndex(5);
  }

  lemma DerivedIsUnique(aes: BlockFunction, key: Key, nonce: seq<byte>, first: nat, a: seq<byte>, b: seq<byte>)
    requires |nonce| == NONCE_SIZE && first + |a| / 8 < 256 && |a| == |b|
    requires IsDerived(aes, key, nonce, first, a) && IsDerived(aes, key, nonce, first, b)
    ensures a == b
  {
  }

  /** Two tags of the same inputs are equal. */
  lemma TagIsUnique(aes: BlockFunction, mk: Key, pk: Block, nonce: seq<byte>, aad: seq<byte>, data: seq<byte>,
                    s: Block, t: Block, tag: Block, s': Block, t': Block, tag': Block)
    requires |nonce| == NONCE_SIZE
    requires IsTag(aes, mk, pk, nonce, aad, data, s, t, tag) && IsTag(aes, mk, pk, nonce, aad, data, s', t', tag')
    ensures tag == tag'
  {
    hide LoadLe, IsPolyval, Xor;
    PolyvalIsUnique(LoadLe(s), LoadLe(s'), 0, LoadLe(pk),
      PaddedNumbers(aad) + PaddedNumbers(data) + [Lengths(aad, data)]);
    LoadLeInjective(s, s');
    assert t == t';
  }

  lemma CodeTag(aes: BlockFunction, key: Key, nonce: seq<byte>, aad: seq<byte>, data: seq<byte>)
    returns (s: Block, t: Block)
    requires |nonce| == NONCE_SIZE && |aad| <= AAD_MAX && |data| <= PTEXT_MAX
    ensures IsTag(aes, MessageKey(aes, key, nonce), PolyvalKey(aes, key, nonce), nonce, aad, data, s, t,
                  SealTag(aes, key, nonce, aad, data))
  {
    hide LoadLe, IsPolyval, Digest, StoreReg, TagInput, MessageKey, PolyvalKey, IsMasked;
    s := StoreReg(Digest(PolyvalKey(aes, key, nonce), aad, data));
    t := TagInput(s, nonce);
    DigestIsRfc8452(PolyvalKey(aes, key, nonce), aad, data);
    TagInputIsMasked(s, nonce);
  }

  /** What `encrypt` returns and leaves in the buffer, for every permitted input, is the encryption
      that the standard describes, and nothing else is. */
  lemma SealedIff(aes: BlockFunction, key: Key, nonce: seq<byte>, aad: seq<byte>, data: seq<byte>, tag: Block,
                  cipher: seq<byte>)
    requires |nonce| == NONCE_SIZE && |aad| <= AAD_MAX && |data| <= PTEXT_MAX
    ensures IsSealed(aes, key, nonce, aad, data, tag, cipher) <==>
      tag == SealTag(aes, key, nonce, aad, data) && cipher == Sealed(aes, key, nonce, aad, data)
  {
    hide IsTag, IsDerived, IsCipher, SealTag, MessageKey, PolyvalKey, Ctr;
    var mk, pk := MessageKey(aes, key, nonce), PolyvalKey(aes, key, nonce);
    var s, t := CodeTag(aes, key, nonce, aad, data);
    KeysAreDerived(aes, key, nonce);
    CtrIsCipher(aes, mk, tag, data, cipher);
    if IsSealed(aes, key, nonce, aad, data, tag, cipher) {
      var mk': Key, pk': Block, s': Block, t': Block :|
        && IsDerived(aes, key, nonce, 0, pk') && IsDerived(aes, key, nonce, 2, mk')
        && IsTag(aes, mk', pk', nonce, aad, data, s', t', tag) && IsCipher(aes, mk', tag, data, cipher);
      DerivedIsUnique(aes, key, nonce, 2, mk, mk');
      DerivedIsUnique(aes, key, nonce, 0, pk, pk');
      TagIsUnique(aes, mk, pk, nonce, aad, data, s, t, SealTag(aes, key, nonce, aad, data), s', t', tag);
    }
  }

  /** `decrypt` accepts exactly the encryptions of a plaintext, and returns that plaintext. */
  lemma OpenedIff(aes: BlockFunction, key: Key, nonce: seq<byte>, aad: seq<byte>, data: seq<byte>, tag: Block,
                  plaintext: seq<byte>)
    requires |nonce| == NONCE_SIZE && |aad| <= AAD_MAX && |data| <= PTEXT_MAX
    ensures Accepts(aes, key, nonce, aad, data, tag) && plaintext == Candidate(aes, key, nonce, data, tag) <==>
      |plaintext| == |data| && IsSealed(aes, key, nonce, aad, plaintext, tag, data)
  {
    hide IsSealed, SealTag, Ctr;
    if |plaintext| == |data| {
      SealedIff(aes, key, nonce, aad, plaintext, tag, data);
      if IsSealed(aes, key, nonce, aad, plaintext, tag, data) { OpenAfterSeal(aes, key, nonce, aad, plaintext); }
    }
    if Accepts(aes, key, nonce, aad, data, tag) { SealAfterOpen(aes, key, nonce, aad, data, tag); }
  }
}
