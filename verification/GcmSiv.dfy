/** `aes_gcm_siv.rs` and `aes.rs`: AES-256-GCM-SIV (RFC 8452) over any block function. */
module GcmSiv {
  import opened Prelude
  import opened Gf2
  import opened Polyval

  datatype GcmError = InvalidNonceSize | InvalidTag | InvalidInputSize | InvalidOutputBuffer

  const NONCE_SIZE: nat := 12
  const TAG_SIZE: nat := 16
  const AAD_MAX: nat := 0x10_0000_0000
  const PTEXT_MAX: nat := 0x10_0000_0000

  type Key = k: seq<byte> | |k| == 32 witness seq(32, _ => 0)

  /** AES-256 as a function of key and block; nothing else about it is used. */
  type BlockFunction = (Key, Block) -> Block

  // ---------------------------------------------------------------------------- bytes

  lemma ByteFits(a: nat)
    ensures Fits(a, 8) <==> a < 256
  {
    DropByte(a % 256, a / 256);
  }

  function XorByte(a: byte, b: byte): (r: byte)
    ensures r == Xor(a, b)
  {
    ByteFits(a);
    ByteFits(b);
    XorFits(a, b, 8);
    ByteFits(Xor(a, b));
    Xor(a, b)
  }

  /** The `k` little-endian bytes of a number. */
  function StoreLe(n: nat, k: nat): (r: seq<byte>)
    ensures |r| == k
  {
    if k == 0 then [] else [n % 256] + StoreLe(n / 256, k - 1)
  }

  lemma StoreLe4Injective(n: nat, m: nat)
    requires n < U32_SIZE && m < U32_SIZE && StoreLe(n, 4) == StoreLe(m, 4)
    ensures n == m
  {
    StoreBytes(n);
    StoreBytes(m);
  }

  lemma StoreBytes(n: nat)
    requires n < U32_SIZE
    ensures var b: seq<nat> := StoreLe(n, 4); n == b[0] + 256 * (b[1] + 256 * (b[2] + 256 * b[3]))
  {
    var n1, n2, n3 := n / 256, n / 256 / 256, n / 256 / 256 / 256;
    assert StoreLe(n, 4) == [n % 256] + StoreLe(n1, 3);
    assert StoreLe(n1, 3) == [n1 % 256] + StoreLe(n2, 2);
    assert StoreLe(n2, 2) == [n2 % 256] + StoreLe(n3, 1);
    assert StoreLe(n3, 1) == [n3 % 256];
  }

  /** Block `b` of a byte sequence. */
  function BlockOf(data: seq<byte>, b: nat): Block
    requires 16 * b + 16 <= |data|
  {
    data[16 * b..16 * b + 16]
  }

  /** `copy_from_slice` of one block into a buffer. */
  method StoreBlock(buf: array<byte>, b: nat, block: Block)
    requires 16 * b + 16 <= buf.Length
    modifies buf
    ensures buf[..] == old(buf[..])[..16 * b] + block + old(buf[..])[16 * b + 16..]
  {
    forall k | 0 <= k < 16 {
      buf[16 * b + k] := block[k];
    }
    ghost var was := old(buf[..]);
    assert forall k :: 0 <= k < 16 * b ==> buf[k] == was[k];
    assert forall k :: 16 * b + 16 <= k < buf.Length ==> buf[k] == was[k];
    assert buf[16 * b..16 * b + 16] == block;
  }

  /** What storing one block does to the others. */
  lemma StoredBlocks(before: seq<byte>, after: seq<byte>, b: nat, block: Block, c: nat)
    requires 16 * b + 16 <= |before| && 16 * c + 16 <= |before|
    requires after == before[..16 * b] + block + before[16 * b + 16..]
    ensures |after| == |before|
    ensures BlockOf(after, c) == if c == b then block else BlockOf(before, c)
  {
    if c < b {
      assert after[..16 * b] == before[..16 * b];
      assert after[16 * c..16 * c + 16] == after[..16 * b][16 * c..16 * c + 16];
    } else if c > b {
      assert after[16 * b + 16..] == before[16 * b + 16..];
      assert after[16 * c..16 * c + 16] == after[16 * b + 16..][16 * c - (16 * b + 16)..16 * c - 16 * b];
    }
  }

  // ------------------------------------------------------------------ Aes256::encrypt

  /** The first `n` blocks are encrypted and the others untouched. */
  ghost predicate EncryptedUpTo(aes: BlockFunction, key: Key, before: seq<byte>, after: seq<byte>, n: nat) {
    && |after| == |before|
    && (forall b :: 0 <= b < n && 16 * b + 16 <= |before| ==> BlockOf(after, b) == aes(key, BlockOf(before, b)))
    && (forall b :: n <= b && 16 * b + 16 <= |before| ==> BlockOf(after, b) == BlockOf(before, b))
  }

  lemma OneMoreBlock(aes: BlockFunction, key: Key, before: seq<byte>, mid: seq<byte>, after: seq<byte>, n: nat)
    requires EncryptedUpTo(aes, key, before, mid, n) && 16 * n + 16 <= |before|
    requires after == mid[..16 * n] + aes(key, BlockOf(before, n)) + mid[16 * n + 16..]
    ensures EncryptedUpTo(aes, key, before, after, n + 1)
  {
    forall b: nat | 16 * b + 16 <= |before|
      ensures |after| == |before| && BlockOf(after, b) == if b == n
        then aes(key, BlockOf(before, n)) else BlockOf(mid, b)
    {
      StoredBlocks(mid, after, n, aes(key, BlockOf(before, n)), b);
    }
    assert |after| == |before|;
  }

  /** `trait_encrypt`: full chunks of `pb` blocks go through a scratch array and are encrypted
      together; the last, shorter chunk is encrypted block by block. */
  method EncryptInPlace(aes: BlockFunction, key: Key, buf: array<byte>, pb: nat) returns (r: Result<(), GcmError>)
    requires pb > 0
    modifies buf
    ensures r == if buf.Length % 16 == 0 then Ok(()) else Err(InvalidOutputBuffer)
    ensures r.Ok? ==> EncryptedUpTo(aes, key, old(buf[..]), buf[..], buf.Length / 16)
    ensures r.Err? ==> buf[..] == old(buf[..])
  {
    if buf.Length % 16 != 0 {
      return Err(InvalidOutputBuffer);
    }
    r := Ok(());
    var blocks := buf.Length / 16;
    var done := 0;
    while done < blocks
      invariant done <= blocks
      invariant EncryptedUpTo(aes, key, old(buf[..]), buf[..], done)
    {
      if done + pb <= blocks {
        var pbuf: seq<Block> := [];
        for j := 0 to pb
          invariant |pbuf| == j && forall i :: 0 <= i < j ==> pbuf[i] == BlockOf(old(buf[..]), done + i)
          invariant EncryptedUpTo(aes, key, old(buf[..]), buf[..], done)
        {
          assert BlockOf(buf[..], done + j) == BlockOf(old(buf[..]), done + j);
          pbuf := pbuf + [buf[16 * (done + j)..16 * (done + j) + 16]];
        }
        for j := 0 to pb
          invariant EncryptedUpTo(aes, key, old(buf[..]), buf[..], done + j)
        {
          ghost var mid := buf[..];
          StoreBlock(buf, done + j, aes(key, pbuf[j]));
          OneMoreBlock(aes, key, old(buf[..]), mid, buf[..], done + j);
        }
        done := done + pb;
      } else {
        while done < blocks
          invariant done <= blocks
          invariant EncryptedUpTo(aes, key, old(buf[..]), buf[..], done)
        {
          ghost var mid := buf[..];
          assert BlockOf(mid, done) == BlockOf(old(buf[..]), done);
          StoreBlock(buf, done, aes(key, buf[16 * done..16 * done + 16]));
          OneMoreBlock(aes, key, old(buf[..]), mid, buf[..], done);
          done := done + 1;
        }
      }
    }
  }

  // ---------------------------------------------------------------------- counter mode

  /** Counter block `n` for a tag: the 32-bit counter in the first four bytes wraps, and the
      top bit of the last byte is set. */
  function CounterBlock(tag: Block, n: nat): Block {
    StoreLe((LoadLe(tag[..4]) + n) % U32_SIZE, 4) + tag[4..15] + [tag[15] % 128 + 128]
  }

  /** No two blocks of one message share a counter block. */
  lemma CounterBlocksDiffer(tag: Block, n: nat, m: nat)
    requires n < m < U32_SIZE
    ensures CounterBlock(tag, n) != CounterBlock(tag, m)
  {
    var c := LoadLe(tag[..4]);
    if CounterBlock(tag, n) == CounterBlock(tag, m) {
      assert StoreLe((c + n) % U32_SIZE, 4) == CounterBlock(tag, n)[..4];
      assert StoreLe((c + m) % U32_SIZE, 4) == CounterBlock(tag, m)[..4];
      StoreLe4Injective((c + n) % U32_SIZE, (c + m) % U32_SIZE);
    }
  }

  /** The block indices of a permitted buffer stay below the counter's range. */
  lemma PermittedBuffersFit(length: nat, j: nat)
    requires j < length <= PTEXT_MAX
    ensures j / 16 < U32_SIZE
  {
  }

  function KeystreamByte(aes: BlockFunction, key: Key, tag: Block, j: nat): byte {
    aes(key, CounterBlock(tag, j / 16))[j % 16]
  }

  /** Counter mode byte by byte (section 4 of RFC 8452). */
  function Ctr(aes: BlockFunction, key: Key, tag: Block, data: seq<byte>): (r: seq<byte>)
    ensures |r| == |data|
    ensures forall j :: 0 <= j < |data| ==> r[j] == XorByte(data[j], KeystreamByte(aes, key, tag, j))
  {
    seq(|data|, j requires 0 <= j < |data| => XorByte(data[j], KeystreamByte(aes, key, tag, j)))
  }

  lemma CtrIsInvolution(aes: BlockFunction, key: Key, tag: Block, data: seq<byte>)
    ensures Ctr(aes, key, tag, Ctr(aes, key, tag, data)) == data
  {
    var once := Ctr(aes, key, tag, data);
    forall j | 0 <= j < |data| ensures Ctr(aes, key, tag, once)[j] == data[j] {
      XorCancels(data[j], KeystreamByte(aes, key, tag, j));
    }
  }

  /** Fills `ctr` with eight counter blocks, the first one numbered `first`. */
  method FillCounters(ctr: array<byte>, tag: Block, counter: u32, ghost first: nat) returns (next: u32)
    requires ctr.Length == 128 && counter == (LoadLe(tag[..4]) + first) % U32_SIZE
    modifies ctr
    ensures next == (LoadLe(tag[..4]) + first + 8) % U32_SIZE
    ensures forall b :: 0 <= b < 8 ==> BlockOf(ctr[..], b) == CounterBlock(tag, first + b)
  {
    hide StoreLe, LoadLe;
    next := counter;
    for b := 0 to 8
      invariant next == (LoadLe(tag[..4]) + first + b) % U32_SIZE
      invariant forall i :: 0 <= i < b ==> BlockOf(ctr[..], i) == CounterBlock(tag, first + i)
    {
      ghost var before := ctr[..];
      var block := StoreLe(next, 4) + tag[4..15] + [tag[15] % 128 + 128];
      assert block == CounterBlock(tag, first + b);
      hide CounterBlock;
      StoreBlock(ctr, b, block);
      forall i | 0 <= i < b + 1 ensures BlockOf(ctr[..], i) == CounterBlock(tag, first + i) {
        StoredBlocks(before, ctr[..], b, CounterBlock(tag, first + b), i);
      }
      CounterStep(LoadLe(tag[..4]) + first + b);
      next := (next + 1) % U32_SIZE;
    }
  }

  lemma CounterStep(n: nat)
    ensures (n % U32_SIZE + 1) % U32_SIZE == (n + 1) % U32_SIZE
  {
  }

  /** Part of a buffer went through counter mode. */
  ghost predicate CtrUpTo(aes: BlockFunction, key: Key, tag: Block, before: seq<byte>, after: seq<byte>, n: nat) {
    && |after| == |before|
    && (forall j :: 0 <= j < n && j < |before| ==> after[j] == XorByte(before[j], KeystreamByte(aes, key, tag, j)))
    && (forall j :: n <= j < |before| ==> after[j] == before[j])
  }

  /** The keystream bytes of one pad. */
  lemma PadBytes(aes: BlockFunction, key: Key, tag: Block, ctr: seq<byte>, pad: seq<byte>, i: nat, j: nat)
    requires |ctr| == |pad| == 128 && EncryptedUpTo(aes, key, ctr, pad, 8)
    requires forall b :: 0 <= b < 8 ==> BlockOf(ctr, b) == CounterBlock(tag, 8 * i + b)
    requires j < 128
    ensures pad[j] == KeystreamByte(aes, key, tag, 128 * i + j)
  {
    var b := j / 16;
    assert BlockOf(pad, b)[j % 16] == pad[j];
    assert (128 * i + j) / 16 == 8 * i + b && (128 * i + j) % 16 == j % 16;
  }

  /** `ctr32`: pads of eight blocks, XORed into the buffer in place. */
  method Ctr32(aes: BlockFunction, key: Key, buffer: array<byte>, tag: Block)
    modifies buffer
    ensures buffer[..] == Ctr(aes, key, tag, old(buffer[..]))
  {
    var ctr := new byte[128](_ => 0);
    var pad := new byte[128](_ => 0);
    var counter: u32 := LoadLe(tag[..4]) % U32_SIZE;
    var padsRequired := (buffer.Length + 128) / 128;
    for i := 0 to padsRequired
      invariant fresh(ctr) && fresh(pad) && ctr != pad
      invariant counter == (LoadLe(tag[..4]) + 8 * i) % U32_SIZE
      invariant CtrUpTo(aes, key, tag, old(buffer[..]), buffer[..], 128 * i)
    {
      counter := FillCounters(ctr, tag, counter, 8 * i);
      ghost var filled := ctr[..];
      forall k | 0 <= k < 128 {
        pad[k] := ctr[k];
      }
      assert pad[..] == filled;
      var _ := EncryptInPlace(aes, key, pad, 8);
      var toXor := Min(128, buffer.Length - 128 * i);
      XorPad(aes, key, tag, buffer, pad, filled, i, toXor, old(buffer[..]));
    }
    assert buffer[..] == Ctr(aes, key, tag, old(buffer[..]));
  }

  method XorPad(aes: BlockFunction, key: Key, tag: Block, buffer: array<byte>, pad: array<byte>, ghost ctr: seq<byte>,
                i: nat, toXor: nat,
                ghost start: seq<byte>)
    requires buffer != pad && pad.Length == 128 && |ctr| == 128 && 128 * i <= buffer.Length
    requires toXor == Min(128, buffer.Length - 128 * i)
    requires EncryptedUpTo(aes, key, ctr, pad[..], 8)
    requires forall b :: 0 <= b < 8 ==> BlockOf(ctr, b) == CounterBlock(tag, 8 * i + b)
    requires CtrUpTo(aes, key, tag, start, buffer[..], 128 * i)
    modifies buffer
    ensures CtrUpTo(aes, key, tag, start, buffer[..], 128 * (i + 1))
  {
    for j := 0 to toXor
      invariant pad[..] == old(pad[..])
      invariant CtrUpTo(aes, key, tag, start, buffer[..], 128 * i + j)
    {
      PadBytes(aes, key, tag, ctr, pad[..], i, j);
      buffer[128 * i + j] := XorByte(buffer[128 * i + j], pad[j]);
    }
  }

  // ---------------------------------------------------------------- keys and the tag

  /** Key derivation (section 4 of RFC 8452): the first halves of the encryptions of six
      counter blocks under the key-generating key. */
  function DerivedBlock(aes: BlockFunction, key: Key, nonce: seq<byte>, i: nat): Block
    requires |nonce| == NONCE_SIZE
  {
    aes(key, StoreLe(i, 4) + nonce)
  }

  function PolyvalKey(aes: BlockFunction, key: Key, nonce: seq<byte>): Block
    requires |nonce| == NONCE_SIZE
  {
    DerivedBlock(aes, key, nonce, 0)[..8] + DerivedBlock(aes, key, nonce, 1)[..8]
  }

  function MessageKey(aes: BlockFunction, key: Key, nonce: seq<byte>): Key
    requires |nonce| == NONCE_SIZE
  {
    DerivedBlock(aes, key, nonce, 2)[..8] + DerivedBlock(aes, key, nonce, 3)[..8]
    + DerivedBlock(aes, key, nonce, 4)[..8] + DerivedBlock(aes, key, nonce, 5)[..8]
  }

  /** `derive_keys`: eight blocks are encrypted at once, two of them only as filler. */
  method DeriveKeys(aes: BlockFunction, key: Key, nonce: seq<byte>) returns (r: Result<(Key, Block), GcmError>)
    ensures |nonce| != NONCE_SIZE ==> r == Err(InvalidNonceSize)
    ensures |nonce| == NONCE_SIZE ==> r == Ok((MessageKey(aes, key, nonce), PolyvalKey(aes, key, nonce)))
  {
    hide StoreLe;
    if |nonce| != NONCE_SIZE {
      return Err(InvalidNonceSize);
    }
    var pad := new byte[128](_ => 0);
    for i := 0 to 6
      invariant forall b :: 0 <= b < i ==> BlockOf(pad[..], b) == StoreLe(b, 4) + nonce
    {
      ghost var before := pad[..];
      StoreBlock(pad, i, StoreLe(i, 4) + nonce);
      forall b | 0 <= b < i + 1 ensures BlockOf(pad[..], b) == StoreLe(b, 4) + nonce {
        StoredBlocks(before, pad[..], i, StoreLe(i, 4) + nonce, b);
      }
    }
    var _ := EncryptInPlace(aes, key, pad, 8);
    ghost var blocks := pad[..];
    assert forall b :: 0 <= b < 6 ==> BlockOf(blocks, b) == DerivedBlock(aes, key, nonce, b);
    var polyvalKey: seq<byte> := [];
    for i := 0 to 2
      invariant pad[..] == blocks && polyvalKey == FirstHalves(blocks, 0, i)
    {
      assert BlockOf(blocks, i)[..8] == pad[16 * i..16 * i + 8];
      polyvalKey := polyvalKey + pad[16 * i..16 * i + 8];
    }
    var aesKey: seq<byte> := [];
    for i := 0 to 4
      invariant pad[..] == blocks && aesKey == FirstHalves(blocks, 2, i)
    {
      assert BlockOf(blocks, 2 + i)[..8] == pad[32 + 16 * i..32 + 16 * i + 8];
      aesKey := aesKey + pad[32 + 16 * i..32 + 16 * i + 8];
    }
    HalvesAreKeys(aes, key, nonce, blocks);
    r := Ok((aesKey, polyvalKey));
  }

  /** The first eight bytes of `n` blocks from block `from` on. */
  function FirstHalves(data: seq<byte>, from: nat, n: nat): seq<byte>
    requires 16 * (from + n) <= |data|
    decreases n
  {
    if n == 0 then [] else FirstHalves(data, from, n - 1) + BlockOf(data, from + n - 1)[..8]
  }

  lemma HalvesAreKeys(aes: BlockFunction, key: Key, nonce: seq<byte>, blocks: seq<byte>)
    requires |nonce| == NONCE_SIZE && |blocks| == 128
    requires forall b :: 0 <= b < 6 ==> BlockOf(blocks, b) == DerivedBlock(aes, key, nonce, b)
    ensures FirstHalves(blocks, 0, 2) == PolyvalKey(aes, key, nonce)
    ensures FirstHalves(blocks, 2, 4) == MessageKey(aes, key, nonce)
  {
    assert FirstHalves(blocks, 0, 1) == BlockOf(blocks, 0)[..8];
    assert FirstHalves(blocks, 2, 1) == BlockOf(blocks, 2)[..8];
    assert FirstHalves(blocks, 2, 2) == FirstHalves(blocks, 2, 1) + BlockOf(blocks, 3)[..8];
    assert FirstHalves(blocks, 2, 3) == FirstHalves(blocks, 2, 2) + BlockOf(blocks, 4)[..8];
  }

  /** The 16 bytes of a register. */
  function StoreReg(v: Reg): Block { StoreLe(v.lo, 8) + StoreLe(v.hi, 8) }

  function LengthBlock(aad: seq<byte>, data: seq<byte>): Block { StoreLe(|aad| * 8, 8) + StoreLe(|data| * 8, 8) }

  /** POLYVAL over padded associated data, padded plaintext and the length block. */
  function Digest(polyvalKey: Block, aad: seq<byte>, data: seq<byte>): Reg {
    Absorb(Reg(0, 0), LoadBlock(polyvalKey), Chunks(aad) + Chunks(data) + [LengthBlock(aad, data)])
  }

  /** The digest with the nonce mixed in and the top bit cleared. */
  function TagInput(digest: Block, nonce: seq<byte>): (r: Block)
    requires |nonce| == NONCE_SIZE
  {
    seq(12, i requires 0 <= i < 12 => XorByte(digest[i], nonce[i])) + digest[12..15] + [digest[15] % 128]
  }

  function Tag(aes: BlockFunction, key: Key, polyvalKey: Block, nonce: seq<byte>, aad: seq<byte>,
               data: seq<byte>): Block
    requires |nonce| == NONCE_SIZE
  {
    aes(key, TagInput(StoreReg(Digest(polyvalKey, aad, data)), nonce))
  }

  /** Storing a number that fits and loading it again gives the number. */
  lemma {:induction false} LoadAfterStore(n: nat, k: nat)
    requires Fits(n, 8 * k)
    ensures LoadLe(StoreLe(n, k)) == n
  {
    if k == 0 {
      ShrNone(n);
    } else {
      DropByte(n % 256, n / 256);
      ShrAdds(n, 8, 8 * k - 8);
      LoadAfterStore(n / 256, k - 1);
      assert StoreLe(n, k)[1..] == StoreLe(n / 256, k - 1);
    }
  }

  /** The stored bytes of a register encode it. */
  lemma LoadAfterStoreReg(v: Reg)
    requires Lanes(v)
    ensures LoadBlock(StoreReg(v)) == v
  {
    hide StoreLe, LoadLe, Fits;
    LoadAfterStore(v.lo, 8);
    LoadAfterStore(v.hi, 8);
    assert StoreReg(v)[..8] == StoreLe(v.lo, 8) && StoreReg(v)[8..] == StoreLe(v.hi, 8);
  }

  /** The 16 bytes of the digest encode POLYVAL of section 3 of RFC 8452. */
  lemma DigestIsPolyval(polyvalKey: Block, aad: seq<byte>, data: seq<byte>)
    ensures IsPolyval(Value(LoadBlock(StoreReg(Digest(polyvalKey, aad, data)))), 0, Value(LoadBlock(polyvalKey)),
                      Values(Chunks(aad) + Chunks(data) + [LengthBlock(aad, data)]))
  {
    hide LoadLe, StoreLe, Absorb, IsPolyval, LoadBlock, StoreReg;
    var blocks := Chunks(aad) + Chunks(data) + [LengthBlock(aad, data)];
    LoadBlockLanes(polyvalKey);
    ZeroRegister();
    AbsorbIsPolyval(Reg(0, 0), LoadBlock(polyvalKey), blocks);
    LoadAfterStoreReg(Digest(polyvalKey, aad, data));
  }

  lemma ZeroRegister()
    ensures Lanes(Reg(0, 0)) && Value(Reg(0, 0)) == 0
  {
    ShrOfZero(64);
    ShlOfZero(64);
    XorZero(0);
  }

  method ComputeTag(aes: BlockFunction, key: Key, polyvalKey: Block, nonce: seq<byte>, aad: seq<byte>, data: seq<byte>)
    returns (tag: Block)
    requires |nonce| == NONCE_SIZE
    ensures tag == Tag(aes, key, polyvalKey, nonce, aad, data)
  {
    hide ClmulBlock, Absorb, LoadLe, TagInput;
    var lengthBlock := LengthBlock(aad, data);
    var polyval := new PolyvalClmul(polyvalKey);
    ghost var h := polyval.h;
    AbsorbConcat(Reg(0, 0), h, Chunks(aad), Chunks(data));
    AbsorbConcat(Reg(0, 0), h, Chunks(aad) + Chunks(data), [lengthBlock]);
    polyval.UpdatePadded(aad);
    polyval.UpdatePadded(data);
    assert Chunks(lengthBlock) == [lengthBlock] by {
      assert lengthBlock[..16] == lengthBlock && lengthBlock[16..] == [];
    }
    polyval.Update(lengthBlock);
    var buf := MaskDigest(StoreReg(polyval.s), nonce);
    ghost var input := buf[..];
    var _ := EncryptInPlace(aes, key, buf, 8);
    assert BlockOf(input, 0) == input && BlockOf(buf[..], 0) == buf[..];
    tag := buf[..];
  }

  /** The digest is combined with the nonce byte by byte, and its top bit cleared. */
  method MaskDigest(digest: Block, nonce: seq<byte>) returns (buf: array<byte>)
    requires |nonce| == NONCE_SIZE
    ensures fresh(buf) && buf.Length == 16 && buf[..] == TagInput(digest, nonce)
  {
    buf := new byte[16](i requires 0 <= i < 16 => digest[i]);
    for i := 0 to 12
      invariant forall j :: 0 <= j < i ==> buf[j] == XorByte(digest[j], nonce[j])
      invariant forall j :: i <= j < 16 ==> buf[j] == digest[j]
    {
      buf[i] := XorByte(buf[i], nonce[i]);
    }
    buf[15] := buf[15] % 128;
  }

  // ----------------------------------------------------------------- encrypt, decrypt

  /** What `encrypt` returns and leaves in the buffer, for inputs it accepts. */
  function SealTag(aes: BlockFunction, key: Key, nonce: seq<byte>, aad: seq<byte>, data: seq<byte>): Block
    requires |nonce| == NONCE_SIZE
  {
    Tag(aes, MessageKey(aes, key, nonce), PolyvalKey(aes, key, nonce), nonce, aad, data)
  }

  function Sealed(aes: BlockFunction, key: Key, nonce: seq<byte>, aad: seq<byte>, data: seq<byte>): seq<byte>
    requires |nonce| == NONCE_SIZE
  {
    Ctr(aes, MessageKey(aes, key, nonce), SealTag(aes, key, nonce, aad, data), data)
  }

  /** The candidate plaintext, and whether `decrypt` accepts it. */
  function Candidate(aes: BlockFunction, key: Key, nonce: seq<byte>, data: seq<byte>, tag: Block): seq<byte>
    requires |nonce| == NONCE_SIZE
  {
    Ctr(aes, MessageKey(aes, key, nonce), tag, data)
  }

  predicate Accepts(aes: BlockFunction, key: Key, nonce: seq<byte>, aad: seq<byte>, data: seq<byte>, tag: Block)
    requires |nonce| == NONCE_SIZE
  {
    tag == SealTag(aes, key, nonce, aad, Candidate(aes, key, nonce, data, tag))
  }

  method Encrypt(aes: BlockFunction, key: Key, buffer: array<byte>, nonce: seq<byte>, aad: seq<byte>)
    returns (r: Result<Block, GcmError>)
    modifies buffer
    ensures var data := old(buffer[..]);
      if buffer.Length > 0x10_0000_0000 || |aad| > 0x10_0000_0000 then r == Err(InvalidInputSize) && buffer[..] == data
      else if |nonce| != NONCE_SIZE then r == Err(InvalidNonceSize) && buffer[..] == data
      else r == Ok(SealTag(aes, key, nonce, aad, data)) && buffer[..] == Sealed(aes, key, nonce, aad, data)
  {
    hide Ctr, Tag, MessageKey, PolyvalKey;
    if buffer.Length > PTEXT_MAX || |aad| > AAD_MAX {
      return Err(InvalidInputSize);
    }
    var keys := DeriveKeys(aes, key, nonce);
    if keys.Err? {
      return Err(keys.error);
    }
    var tag := ComputeTag(aes, keys.value.0, keys.value.1, nonce, aad, buffer[..]);
    Ctr32(aes, keys.value.0, buffer, tag);
    r := Ok(tag);
  }

  method Decrypt(aes: BlockFunction, key: Key, buffer: array<byte>, nonce: seq<byte>, aad: seq<byte>, tag: seq<byte>)
    returns (r: Result<(), GcmError>)
    modifies buffer
    ensures var data := old(buffer[..]);
      if |nonce| != NONCE_SIZE then r == Err(InvalidNonceSize) && buffer[..] == data
      else if |tag| != TAG_SIZE then r == Err(InvalidTag) && buffer[..] == data
      else if buffer.Length > 0x10_0000_0000 || |aad| > 0x10_0000_0000
        then r == Err(InvalidInputSize) && buffer[..] == data
      else if Accepts(aes, key, nonce, aad, data, tag) then
        r == Ok(()) && buffer[..] == Candidate(aes, key, nonce, data, tag)
      else r == Err(InvalidTag) && forall j :: 0 <= j < buffer.Length ==> buffer[j] == 0
  {
    hide Ctr, Tag, MessageKey, PolyvalKey;
    if |nonce| != NONCE_SIZE {
      return Err(InvalidNonceSize);
    }
    if |tag| != TAG_SIZE {
      return Err(InvalidTag);
    }
    if buffer.Length > PTEXT_MAX || |aad| > AAD_MAX {
      return Err(InvalidInputSize);
    }
    var keys := DeriveKeys(aes, key, nonce);
    Ctr32(aes, keys.value.0, buffer, tag);
    var gtag := ComputeTag(aes, keys.value.0, keys.value.1, nonce, aad, buffer[..]);
    if tag != gtag {
      for i := 0 to buffer.Length
        invariant forall j :: 0 <= j < i ==> buffer[j] == 0
      {
        buffer[i] := 0;
      }
      return Err(InvalidTag);
    }
    r := Ok(());
  }

  /** Decrypting an encryption restores the buffer, for any block function. */
  lemma OpenAfterSeal(aes: BlockFunction, key: Key, nonce: seq<byte>, aad: seq<byte>, data: seq<byte>)
    requires |nonce| == NONCE_SIZE
    ensures var tag, sealed := SealTag(aes, key, nonce, aad, data), Sealed(aes, key, nonce, aad, data);
      Accepts(aes, key, nonce, aad, sealed, tag) && Candidate(aes, key, nonce, sealed, tag) == data
  {
    hide Ctr, SealTag;
    CtrIsInvolution(aes, MessageKey(aes, key, nonce), SealTag(aes, key, nonce, aad, data), data);
  }

  /** Whatever `decrypt` accepts is exactly what `encrypt` produces from the result. */
  lemma SealAfterOpen(aes: BlockFunction, key: Key, nonce: seq<byte>, aad: seq<byte>, data: seq<byte>, tag: Block)
    requires |nonce| == NONCE_SIZE && Accepts(aes, key, nonce, aad, data, tag)
    ensures var opened' := Candidate(aes, key, nonce, data, tag);
      SealTag(aes, key, nonce, aad, opened') == tag && Sealed(aes, key, nonce, aad, opened') == data
  {
    hide Ctr, SealTag;
    CtrIsInvolution(aes, MessageKey(aes, key, nonce), tag, data);
  }
}
