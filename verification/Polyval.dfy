/** `polyval_clmul.rs` and `polyval_pmul.rs`: the carry-less multiplication with a two-fold
    reduction, against the operation `dot` of section 3 of RFC 8452. */
module Polyval {
  import opened Prelude
  import opened Gf2

  /** A 128-bit register as its two 64-bit lanes. */
  datatype Reg = Reg(lo: nat, hi: nat)

  predicate Lanes(v: Reg) { Fits(v.lo, 64) && Fits(v.hi, 64) }

  /** The polynomial in a register. */
  function Value(v: Reg): nat { Xor(v.lo, Shl(v.hi, 64)) }

  /** The field polynomial, in the form in which the reduction uses it; see
      `ModulusIsFieldPolynomial`. */
  function Modulus(): nat { Xor(Xor(Shl(1, 128), Shl(POLY, 64)), 1) }

  // -------------------------------------------------------------------- instructions

  function XorReg(a: Reg, b: Reg): Reg { Reg(Xor(a.lo, b.lo), Xor(a.hi, b.hi)) }

  /** The 64 by 64 bit carry-less product, `_mm_clmulepi64_si128` or `vmull_p64`. */
  function Clmul(a: nat, b: nat): Reg { Reg(Low(Mul(a, b), 64), Shr(Mul(a, b), 64)) }

  /** `_mm_slli_si128(v, 8)` and `_mm_srli_si128(v, 8)`. */
  function ShiftLeft8(v: Reg): Reg { Reg(0, v.lo) }

  function ShiftRight8(v: Reg): Reg { Reg(v.hi, 0) }

  /** `_mm_shuffle_epi32(v, 0x4E)`. */
  function Swap(v: Reg): Reg { Reg(v.hi, v.lo) }

  /** The reduction constant, the high lane of `_mm_set_epi32(-0x3e000000, 0, 0, 0)`. */
  const POLY: nat := 0xC200_0000_0000_0000

  function Fold(v: Reg): Reg { XorReg(Swap(v), Clmul(v.lo, POLY)) }

  /** `PolyvalClmul::process_block`: the new accumulator. */
  function ClmulBlock(s: Reg, h: Reg, input: Reg): Reg {
    var t := XorReg(s, input);
    var pm := XorReg(Clmul(t.hi, h.lo), Clmul(t.lo, h.hi));
    var pl := Clmul(t.lo, h.lo);
    var ph := Clmul(t.hi, h.hi);
    var t0 := XorReg(ShiftLeft8(pm), pl);
    var t1 := XorReg(ShiftRight8(pm), ph);
    XorReg(t1, Fold(Fold(t0)))
  }

  /** `vextq_u8(a, b, 8)`: the high half of `a` below the low half of `b`. */
  function Extract8(a: Reg, b: Reg): Reg { Reg(a.hi, b.lo) }

  /** `swap_halves`: `vcombine_u64(hi, lo)`. */
  function SwapHalves(v: Reg): Reg {
    var hi, lo := v.hi, v.lo;
    Reg(hi, lo)
  }

  /** `PolyvalPmul::process_block`. */
  function PmulBlock(s: Reg, h: Reg, input: Reg): Reg {
    var t := XorReg(s, input);
    var pl := Clmul(t.lo, h.lo);
    var ph := Clmul(t.hi, h.hi);
    var pm := XorReg(Clmul(t.lo, h.hi), Clmul(t.hi, h.lo));
    var t0 := XorReg(Extract8(Reg(0, 0), pm), pl);
    var t1 := XorReg(Extract8(pm, Reg(0, 0)), ph);
    var r0 := XorReg(SwapHalves(t0), Clmul(t0.lo, POLY));
    var r1 := XorReg(SwapHalves(r0), Clmul(r0.lo, POLY));
    XorReg(t1, r1)
  }

  // --------------------------------------------------------------------------- dot

  /** `r` is a · b · x^-128 modulo the field polynomial, as a polynomial of degree below 128. */
  ghost predicate IsDot(r: nat, a: nat, b: nat) {
    Fits(r, 128) && exists q: nat :: Shl(r, 128) == Xor(Mul(a, b), Mul(q, Modulus()))
  }

  lemma ShlByte(a: nat, k: nat)
    ensures Shl(a, k + 8) == 256 * Shl(a, k)
  {
    assert Shl(a, k + 2) == 4 * Shl(a, k);
    assert Shl(a, k + 4) == 4 * Shl(a, k + 2);
    assert Shl(a, k + 6) == 4 * Shl(a, k + 4);
    assert Shl(a, k + 8) == 4 * Shl(a, k + 6);
  }

  /** The constant is the byte 0xC2 in the top position. */
  lemma PolyIsTopByte()
    ensures POLY == Shl(0xC2, 56)
  {
    ShlByte(0xC2, 0);
    ShlByte(0xC2, 8);
    ShlByte(0xC2, 16);
    ShlByte(0xC2, 24);
    ShlByte(0xC2, 32);
    ShlByte(0xC2, 40);
    ShlByte(0xC2, 48);
  }

  lemma ByteBits()
    ensures Xor(Shl(1, 7), Xor(Shl(1, 6), Shl(1, 1))) == 0xC2
  {
    XorAbove(2, 1, 6);
    XorAbove(66, 1, 7);
  }

  lemma TopBits(k: nat)
    ensures Xor(Shl(1, 7 + k), Xor(Shl(1, 6 + k), Shl(1, 1 + k))) == Shl(0xC2, k)
  {
    var a, b, c := Shl(1, 7), Shl(1, 6), Shl(1, 1);
    ByteBits();
    ShlAdds(1, 7, k);
    ShlAdds(1, 6, k);
    ShlAdds(1, 1, k);
    XorShl(b, c, k);
    XorShl(a, Xor(b, c), k);
  }

  lemma PolyFits()
    ensures Fits(POLY, 64)
  {
    PolyIsTopByte();
    ShrAdds(Shl(0xC2, 56), 56, 8);
    ShrShl(0xC2, 56);
    assert Shr(0xC2, 8) == 0;
  }

  /** The modulus is x^128 + x^127 + x^126 + x^121 + 1. */
  lemma ModulusIsFieldPolynomial()
    ensures Modulus() == Xor(Xor(Shl(1, 128), Xor(Shl(1, 127), Xor(Shl(1, 126), Shl(1, 121)))), 1)
  {
    PolyIsTopByte();
    ShlAdds(0xC2, 56, 64);
    TopBits(120);
  }

  lemma ValueXor(a: Reg, b: Reg)
    ensures Value(XorReg(a, b)) == Xor(Value(a), Value(b))
  {
    XorShl(a.hi, b.hi, 64);
    XorShuffle(a.lo, Shl(a.hi, 64), b.lo, Shl(b.hi, 64));
  }

  lemma ValueClmul(a: nat, b: nat)
    ensures Value(Clmul(a, b)) == Mul(a, b)
  {
    SplitAt(Mul(a, b), 64);
  }

  /** The product of the low lane with the field polynomial. */
  lemma TimesModulus(a: nat)
    ensures Mul(a, Modulus()) == Xor(Xor(Shl(a, 128), Shl(Mul(a, POLY), 64)), a)
  {
    MulDistributesRight(a, Xor(Shl(1, 128), Shl(POLY, 64)), 1);
    MulDistributesRight(a, Shl(1, 128), Shl(POLY, 64));
    MulShlRight(a, 1, 128);
    MulShlRight(a, POLY, 64);
    MulOneRight(a);
  }

  /** One fold divides by x^64 modulo the field polynomial. */
  lemma FoldDivides(v: Reg)
    ensures Shl(Value(Fold(v)), 64) == Xor(Value(v), Mul(v.lo, Modulus()))
  {
    var l, h, m := v.lo, v.hi, Mul(v.lo, POLY);
    calc {
      Shl(Value(Fold(v)), 64);
      { ValueXor(Swap(v), Clmul(l, POLY)); ValueClmul(l, POLY); }
      Shl(Xor(Xor(h, Shl(l, 64)), m), 64);
      { XorShl(Xor(h, Shl(l, 64)), m, 64); XorShl(h, Shl(l, 64), 64); ShlAdds(l, 64, 64); }
      Xor(Xor(Shl(h, 64), Shl(l, 128)), Shl(m, 64));
      { XorAssociates(Shl(h, 64), Shl(l, 128), Shl(m, 64)); }
      Xor(Shl(h, 64), Xor(Shl(l, 128), Shl(m, 64)));
      { LowLaneCancels(l, Shl(h, 64), Xor(Shl(l, 128), Shl(m, 64))); }
      Xor(Xor(l, Shl(h, 64)), Xor(Xor(Shl(l, 128), Shl(m, 64)), l));
      { TimesModulus(l); }
      Xor(Value(v), Mul(l, Modulus()));
    }
  }

  lemma LowLaneCancels(l: nat, h: nat, m: nat)
    ensures Xor(Xor(l, h), Xor(m, l)) == Xor(h, m)
  {
    XorCommutes(l, h);
    XorCommutes(m, l);
    XorAssociates(h, l, Xor(l, m));
    XorCancels(l, m);
  }

  /** The four partial products make up the whole product. */
  lemma Schoolbook(t: Reg, h: Reg)
    ensures Mul(Value(t), Value(h)) ==
      Xor(Xor(Mul(t.lo, h.lo), Shl(Mul(t.lo, h.hi), 64)), Xor(Shl(Mul(t.hi, h.lo), 64), Shl(Mul(t.hi, h.hi), 128)))
  {
    MulDistributesLeft(t.lo, Shl(t.hi, 64), Value(h));
    MulDistributesRight(t.lo, h.lo, Shl(h.hi, 64));
    MulShlRight(t.lo, h.hi, 64);
    MulShlLeft(t.hi, Value(h), 64);
    MulDistributesRight(t.hi, h.lo, Shl(h.hi, 64));
    MulShlRight(t.hi, h.hi, 64);
    XorShl(Mul(t.hi, h.lo), Shl(Mul(t.hi, h.hi), 64), 64);
    ShlAdds(Mul(t.hi, h.hi), 64, 64);
  }

  /** The low and high 128 bits before reduction. */
  function LowHalf(t: Reg, h: Reg): Reg {
    XorReg(ShiftLeft8(XorReg(Clmul(t.hi, h.lo), Clmul(t.lo, h.hi))), Clmul(t.lo, h.lo))
  }

  function HighHalf(t: Reg, h: Reg): Reg {
    XorReg(ShiftRight8(XorReg(Clmul(t.hi, h.lo), Clmul(t.lo, h.hi))), Clmul(t.hi, h.hi))
  }

  /** A middle product, spread over both halves. */
  lemma MiddleSplits(v: Reg)
    ensures Shl(Value(v), 64) == Xor(Value(ShiftLeft8(v)), Shl(Value(ShiftRight8(v)), 128))
  {
    XorShl(v.lo, Shl(v.hi, 64), 64);
    ShlAdds(v.hi, 64, 64);
    XorZero(Shl(v.lo, 64));
    ShlOfZero(64);
    XorZero(v.hi);
  }

  lemma {:induction false} ShlOfZero(k: nat)
    ensures Shl(0, k) == 0
  {
    if k > 0 { ShlOfZero(k - 1); }
  }

  lemma HalvesMakeProduct(t: Reg, h: Reg)
    ensures Mul(Value(t), Value(h)) == Xor(Value(LowHalf(t, h)), Shl(Value(HighHalf(t, h)), 128))
  {
    var a, b := Mul(t.hi, h.lo), Mul(t.lo, h.hi);
    var pm := XorReg(Clmul(t.hi, h.lo), Clmul(t.lo, h.hi));
    var pl, ph := Mul(t.lo, h.lo), Mul(t.hi, h.hi);
    var ml, mh := Value(ShiftLeft8(pm)), Value(ShiftRight8(pm));
    ValueXor(Clmul(t.hi, h.lo), Clmul(t.lo, h.hi));
    ValueClmul(t.hi, h.lo);
    ValueClmul(t.lo, h.hi);
    ValueClmul(t.lo, h.lo);
    ValueClmul(t.hi, h.hi);
    calc {
      Mul(Value(t), Value(h));
      { Schoolbook(t, h); }
      Xor(Xor(pl, Shl(b, 64)), Xor(Shl(a, 64), Shl(ph, 128)));
      { Regroup(pl, Shl(b, 64), Shl(a, 64), Shl(ph, 128)); XorShl(a, b, 64); }
      Xor(Xor(Shl(Xor(a, b), 64), pl), Shl(ph, 128));
      { MiddleSplits(pm); }
      Xor(Xor(Xor(ml, Shl(mh, 128)), pl), Shl(ph, 128));
      { Regroup2(ml, Shl(mh, 128), pl, Shl(ph, 128)); XorShl(mh, ph, 128); }
      Xor(Xor(ml, pl), Shl(Xor(mh, ph), 128));
      { ValueXor(ShiftLeft8(pm), Clmul(t.lo, h.lo)); ValueXor(ShiftRight8(pm), Clmul(t.hi, h.hi)); }
      Xor(Value(LowHalf(t, h)), Shl(Value(HighHalf(t, h)), 128));
    }
  }

  lemma Regroup(p: nat, b: nat, a: nat, q: nat)
    ensures Xor(Xor(p, b), Xor(a, q)) == Xor(Xor(Xor(a, b), p), q)
  {
    XorAssociates(Xor(p, b), a, q);
    XorCommutes(Xor(p, b), a);
    XorCommutes(p, b);
    XorAssociates(a, b, p);
  }

  lemma Regroup2(a: nat, b: nat, c: nat, d: nat)
    ensures Xor(Xor(Xor(a, b), c), d) == Xor(Xor(a, c), Xor(b, d))
  {
    XorAssociates(Xor(a, b), c, d);
    XorShuffle(a, b, c, d);
  }

  /** Two folds divide by x^128. */
  lemma TwoFoldsDivide(v: Reg)
    ensures Shl(Value(Fold(Fold(v))), 128) == Xor(Value(v), Mul(Xor(v.lo, Shl(Fold(v).lo, 64)), Modulus()))
  {
    var r, p := Fold(v), Modulus();
    calc {
      Shl(Value(Fold(r)), 128);
      { ShlAdds(Value(Fold(r)), 64, 64); }
      Shl(Shl(Value(Fold(r)), 64), 64);
      { FoldDivides(r); }
      Shl(Xor(Value(r), Mul(r.lo, p)), 64);
      { XorShl(Value(r), Mul(r.lo, p), 64); MulShlLeft(r.lo, p, 64); FoldDivides(v); }
      Xor(Xor(Value(v), Mul(v.lo, p)), Mul(Shl(r.lo, 64), p));
      { XorAssociates(Value(v), Mul(v.lo, p), Mul(Shl(r.lo, 64), p)); MulDistributesLeft(v.lo, Shl(r.lo, 64), p); }
      Xor(Value(v), Mul(Xor(v.lo, Shl(r.lo, 64)), p));
    }
  }

  lemma ClmulLanes(a: nat, b: nat)
    requires Fits(a, 64) && Fits(b, 64)
    ensures Lanes(Clmul(a, b))
  {
    LowFits(Mul(a, b), 64);
    MulFits(a, b, 64, 64);
    ShrAdds(Mul(a, b), 64, 64);
  }

  lemma XorLanes(a: Reg, b: Reg)
    requires Lanes(a) && Lanes(b)
    ensures Lanes(XorReg(a, b))
  {
    XorFits(a.lo, b.lo, 64);
    XorFits(a.hi, b.hi, 64);
  }

  lemma FoldLanes(v: Reg)
    requires Lanes(v)
    ensures Lanes(Fold(v))
  {
    PolyFits();
    ClmulLanes(v.lo, POLY);
    XorLanes(Swap(v), Clmul(v.lo, POLY));
  }

  lemma BlockLanes(s: Reg, h: Reg, input: Reg)
    requires Lanes(s) && Lanes(h) && Lanes(input)
    ensures Lanes(ClmulBlock(s, h, input))
  {
    var t := XorReg(s, input);
    XorLanes(s, input);
    ClmulLanes(t.hi, h.lo);
    ClmulLanes(t.lo, h.hi);
    ClmulLanes(t.lo, h.lo);
    ClmulLanes(t.hi, h.hi);
    var pm := XorReg(Clmul(t.hi, h.lo), Clmul(t.lo, h.hi));
    XorLanes(Clmul(t.hi, h.lo), Clmul(t.lo, h.hi));
    ShrOfZero(64);
    XorLanes(ShiftLeft8(pm), Clmul(t.lo, h.lo));
    XorLanes(ShiftRight8(pm), Clmul(t.hi, h.hi));
    FoldLanes(LowHalf(t, h));
    FoldLanes(Fold(LowHalf(t, h)));
    XorLanes(HighHalf(t, h), Fold(Fold(LowHalf(t, h))));
  }

  lemma ValueFits(v: Reg)
    requires Lanes(v)
    ensures Fits(Value(v), 128)
  {
    FitsMore(v.lo, 64, 128);
    ShrAdds(Shl(v.hi, 64), 64, 64);
    ShrShl(v.hi, 64);
    XorFits(v.lo, Shl(v.hi, 64), 128);
  }

  /** The CLMUL code computes `dot` for all 128-bit inputs. */
  lemma ClmulBlockIsDot(s: Reg, h: Reg, input: Reg)
    requires Lanes(s) && Lanes(h) && Lanes(input)
    ensures IsDot(Value(ClmulBlock(s, h, input)), Xor(Value(s), Value(input)), Value(h))
  {
    var t := XorReg(s, input);
    var v, u := LowHalf(t, h), HighHalf(t, h);
    var q := Xor(v.lo, Shl(Fold(v).lo, 64));
    var r := Value(ClmulBlock(s, h, input));
    BlockLanes(s, h, input);
    ValueFits(ClmulBlock(s, h, input));
    ValueXor(s, input);
    calc {
      Shl(r, 128);
      { ValueXor(u, Fold(Fold(v))); XorShl(Value(u), Value(Fold(Fold(v))), 128); TwoFoldsDivide(v); }
      Xor(Shl(Value(u), 128), Xor(Value(v), Mul(q, Modulus())));
      {
        XorAssociates(Shl(Value(u), 128), Value(v), Mul(q, Modulus()));
        XorCommutes(Shl(Value(u), 128), Value(v));
        HalvesMakeProduct(t, h);
      }
      Xor(Mul(Value(t), Value(h)), Mul(q, Modulus()));
    }
  }

  /** The PMULL code computes the same register. */
  lemma PmulBlockIsClmulBlock(s: Reg, h: Reg, input: Reg)
    ensures PmulBlock(s, h, input) == ClmulBlock(s, h, input)
  {
    var t := XorReg(s, input);
    XorCommutes(Clmul(t.hi, h.lo).lo, Clmul(t.lo, h.hi).lo);
    XorCommutes(Clmul(t.hi, h.lo).hi, Clmul(t.lo, h.hi).hi);
  }

  // --------------------------------------------------------------------- uniqueness

  /** A polynomial x^2n + poly·x^n + 1 has constant term 1 and degree 2n. */
  lemma Shape(poly: nat, n: nat)
    requires n > 0 && Fits(poly, n)
    ensures var p := Xor(Xor(Shl(1, n + n), Shl(poly, n)), 1);
      p % 2 == 1 && Shr(p, n + n) == 1
  {
    var x := Xor(Shl(1, n + n), Shl(poly, n));
    XorDouble(Shl(1, n + n - 1), Shl(poly, n - 1));
    XorStep(x, 1);
    XorShr(x, 1, n + n);
    XorShr(Shl(1, n + n), Shl(poly, n), n + n);
    ShrShl(1, n + n);
    ShrAdds(Shl(poly, n), n, n);
    ShrShl(poly, n);
    ShrAdds(1, 1, n + n - 1);
    ShrOfZero(n + n - 1);
    XorZero(1);
  }

  lemma ModulusShape()
    ensures Modulus() % 2 == 1 && Shr(Modulus(), 128) == 1
  {
    PolyFits();
    Shape(POLY, 64);
  }

  lemma EvenFactor(q: nat, p: nat)
    requires p % 2 == 1 && Mul(q, p) % 2 == 0
    ensures q % 2 == 0 && Mul(q, p) == 2 * Mul(q / 2, p)
  {
    MulUnfold(q, p);
    XorStep(if q % 2 == 1 then p else 0, 2 * Mul(q / 2, p));
    XorZero(2 * Mul(q / 2, p));
  }

  /** x does not divide a polynomial with constant term 1, so powers of x can be cancelled. */
  lemma {:induction false} CancelPowerOfX(d: nat, q: nat, p: nat, k: nat)
    requires p % 2 == 1 && Shl(d, k) == Mul(q, p)
    ensures d == Mul(Shr(q, k), p)
    decreases k
  {
    if k > 0 {
      EvenFactor(q, p);
      CancelPowerOfX(d, q / 2, p, k - 1);
    }
  }

  /** A non-zero multiple of a polynomial of degree n has degree at least n. */
  lemma {:induction false} MultiplesAreLarge(q: nat, p: nat, n: nat)
    requires q > 0 && Shr(p, n) == 1
    ensures !Fits(Mul(q, p), n)
  {
    if q == 1 {
      XorZero(p);
    } else {
      MultiplesAreLarge(q / 2, p, n);
      var c, m := if q % 2 == 1 then p else 0, 2 * Mul(q / 2, p);
      assert Fits(c, n + 1) by {
        ShrAdds(p, n, 1);
        ShrOfZero(n + 1);
      }
      XorShr(c, m, n + 1);
      XorZero(Shr(m, n + 1));
      if Fits(Mul(q, p), n) { FitsMore(Mul(q, p), n, n + 1); }
    }
  }

  /** `dot` has one value, so `IsDot` determines it. */
  lemma DotIsUnique(r: nat, r': nat, a: nat, b: nat)
    requires IsDot(r, a, b) && IsDot(r', a, b)
    ensures r == r'
  {
    var p := Modulus();
    var q: nat :| Shl(r, 128) == Xor(Mul(a, b), Mul(q, p));
    var q': nat :| Shl(r', 128) == Xor(Mul(a, b), Mul(q', p));
    var d := Xor(r, r');
    XorShl(r, r', 128);
    XorShuffle(Mul(a, b), Mul(q, p), Mul(a, b), Mul(q', p));
    XorSelf(Mul(a, b));
    XorZero(Xor(Mul(q, p), Mul(q', p)));
    MulDistributesLeft(q, q', p);
    ModulusShape();
    CancelPowerOfX(d, Xor(q, q'), p, 128);
    XorFits(r, r', 128);
    if Shr(Xor(q, q'), 128) > 0 { MultiplesAreLarge(Shr(Xor(q, q'), 128), p, 128); }
    XorCancels(r, r');
    XorZero(r);
  }

  // ----------------------------------------------------------------- bytes and blocks

  type Block = b: seq<byte> | |b| == 16 witness [0, 0, 0, 0, 0, 0, 0, 0, 0, 0, 0, 0, 0, 0, 0, 0]

  /** Little-endian bytes as a number. */
  function LoadLe(b: seq<byte>): nat { if b == [] then 0 else b[0] + 256 * LoadLe(b[1..]) }

  /** `_mm_loadu_si128` and `vld1q_u8`. */
  function LoadBlock(b: Block): Reg { Reg(LoadLe(b[..8]), LoadLe(b[8..])) }

  lemma {:induction false} LoadFits(b: seq<byte>)
    ensures Fits(LoadLe(b), 8 * |b|)
  {
    if b != [] {
      LoadFits(b[1..]);
      DropByte(b[0], LoadLe(b[1..]));
      ShrAdds(LoadLe(b), 8, 8 * |b| - 8);
    }
  }

  lemma ShrTwo(a: nat, k: nat)
    ensures Shr(a, k + 2) == Shr(a / 4, k)
  {
    assert Shr(a, k + 2) == Shr(a / 2, k + 1) == Shr(a / 2 / 2, k);
    assert a / 2 / 2 == a / 4;
  }

  lemma ShrNone(a: nat)
    ensures Shr(a, 0) == a
  {
  }

  lemma DropByte(x: byte, rest: nat)
    ensures Shr(x + 256 * rest, 8) == rest
  {
    hide Shr;
    ShrTwo(x + 256 * rest, 6);
    assert (x + 256 * rest) / 4 == x / 4 + 64 * rest;
    ShrTwo(x / 4 + 64 * rest, 4);
    assert (x / 4 + 64 * rest) / 4 == x / 16 + 16 * rest;
    ShrTwo(x / 16 + 16 * rest, 2);
    assert (x / 16 + 16 * rest) / 4 == x / 64 + 4 * rest;
    ShrTwo(x / 64 + 4 * rest, 0);
    ShrNone(rest);
  }

  lemma LoadBlockLanes(b: Block)
    ensures Lanes(LoadBlock(b))
  {
    LoadFits(b[..8]);
    LoadFits(b[8..]);
  }

  /** The blocks of `data`, the last one padded with zeros. */
  function Chunks(data: seq<byte>): seq<Block> {
    if data == [] then []
    else if |data| < 16 then [data + seq(16 - |data|, _ => 0)]
    else [data[..16]] + Chunks(data[16..])
  }

  function Values(blocks: seq<Block>): seq<nat> {
    seq(|blocks|, i requires 0 <= i < |blocks| => Value(LoadBlock(blocks[i])))
  }

  lemma {:induction false} ChunksSplit(data: seq<byte>, n: nat)
    requires 16 * n <= |data|
    ensures Chunks(data) == Chunks(data[..16 * n]) + Chunks(data[16 * n..])
    decreases n
  {
    if n == 0 {
      assert data[..0] == [] && data[0..] == data;
    } else {
      var rest := data[16..];
      ChunksSplit(rest, n - 1);
      assert data[..16 * n][..16] == data[..16];
      assert data[..16 * n][16..] == rest[..16 * (n - 1)];
      assert data[16 * n..] == rest[16 * (n - 1)..];
    }
  }

  /** `s` is POLYVAL of the blocks under `h`, from the accumulator `s0` on:
      S_j = dot(S_(j-1) + X_j, H). */
  ghost predicate IsPolyval(s: nat, s0: nat, h: nat, blocks: seq<nat>)
    decreases |blocks|
  {
    if blocks == [] then s == s0
    else exists s1 :: IsDot(s1, Xor(s0, blocks[0]), h) && IsPolyval(s, s1, h, blocks[1..])
  }

  /** POLYVAL has one value as well. */
  lemma {:induction false} PolyvalIsUnique(s: nat, s': nat, s0: nat, h: nat, blocks: seq<nat>)
    requires IsPolyval(s, s0, h, blocks) && IsPolyval(s', s0, h, blocks)
    ensures s == s'
    decreases |blocks|
  {
    if blocks != [] {
      var s1 :| IsDot(s1, Xor(s0, blocks[0]), h) && IsPolyval(s, s1, h, blocks[1..]);
      var s1' :| IsDot(s1', Xor(s0, blocks[0]), h) && IsPolyval(s', s1', h, blocks[1..]);
      DotIsUnique(s1, s1', Xor(s0, blocks[0]), h);
      PolyvalIsUnique(s, s', s1, h, blocks[1..]);
    }
  }

  lemma PolyvalStep(s: nat, s1: nat, s0: nat, h: nat, x: nat, rest: seq<nat>)
    requires IsDot(s1, Xor(s0, x), h) && IsPolyval(s, s1, h, rest)
    ensures IsPolyval(s, s0, h, [x] + rest)
  {
    assert ([x] + rest)[1..] == rest;
  }

  /** The accumulator after a sequence of blocks. */
  function Absorb(s: Reg, h: Reg, blocks: seq<Block>): Reg
    decreases |blocks|
  {
    if blocks == [] then s else Absorb(ClmulBlock(s, h, LoadBlock(blocks[0])), h, blocks[1..])
  }

  lemma ChunkStep(data: seq<byte>, i: nat)
    requires 16 * i + 16 <= |data|
    ensures Chunks(data[16 * i..]) == [data[16 * i..16 * i + 16]] + Chunks(data[16 * (i + 1)..])
  {
    var rest := data[16 * i..];
    assert rest[..16] == data[16 * i..16 * i + 16] && rest[16..] == data[16 * (i + 1)..];
  }

  lemma AbsorbStep(s: Reg, h: Reg, b: Block, rest: seq<Block>)
    ensures Absorb(s, h, [b] + rest) == Absorb(ClmulBlock(s, h, LoadBlock(b)), h, rest)
  {
    assert ([b] + rest)[1..] == rest;
  }

  /** Padding amounts to whole blocks followed by one block of the rest and zeros. */
  lemma PaddedChunks(data: seq<byte>, n: nat)
    requires 16 * n <= |data| < 16 * n + 16
    ensures |data| == 16 * n ==> data[..16 * n] == data
    ensures |data| > 16 * n ==>
      Chunks(data) == Chunks(data[..16 * n]) + Chunks(data[16 * n..] + seq(16 - (|data| - 16 * n), _ => 0))
  {
    ChunksSplit(data, n);
    var rest := data[16 * n..];
    if rest != [] {
      var block := rest + seq(16 - |rest|, _ => 0);
      assert block[..16] == block && block[16..] == [];
    }
  }

  /** The first block of an absorption. */
  lemma AbsorbFirst(s: Reg, h: Reg, blocks: seq<Block>) returns (s1: Reg)
    requires blocks != [] && Lanes(s) && Lanes(h)
    ensures Lanes(s1) && Absorb(s, h, blocks) == Absorb(s1, h, blocks[1..])
    ensures IsDot(Value(s1), Xor(Value(s), Value(LoadBlock(blocks[0]))), Value(h))
  {
    var x := LoadBlock(blocks[0]);
    LoadBlockLanes(blocks[0]);
    BlockLanes(s, h, x);
    ClmulBlockIsDot(s, h, x);
    s1 := ClmulBlock(s, h, x);
  }

  lemma {:induction false} AbsorbIsPolyval(s: Reg, h: Reg, blocks: seq<Block>)
    requires Lanes(s) && Lanes(h)
    ensures Lanes(Absorb(s, h, blocks))
    ensures IsPolyval(Value(Absorb(s, h, blocks)), Value(s), Value(h), Values(blocks))
    decreases |blocks|
  {
    if blocks != [] {
      var s1 := AbsorbFirst(s, h, blocks);
      AbsorbIsPolyval(s1, h, blocks[1..]);
      var x := Value(LoadBlock(blocks[0]));
      PolyvalStep(Value(Absorb(s, h, blocks)), Value(s1), Value(s), Value(h), x, Values(blocks[1..]));
      assert Values(blocks) == [x] + Values(blocks[1..]);
    }
  }

  lemma {:induction false} AbsorbConcat(s: Reg, h: Reg, a: seq<Block>, b: seq<Block>)
    ensures Absorb(s, h, a + b) == Absorb(Absorb(s, h, a), h, b)
    decreases |a|
  {
    if a == [] {
      assert a + b == b;
    } else {
      assert (a + b)[1..] == a[1..] + b;
      AbsorbConcat(ClmulBlock(s, h, LoadBlock(a[0])), h, a[1..], b);
    }
  }

  /** `PolyvalClmul`; `PolyvalPmul` differs only in `process_block`. */
  class PolyvalClmul {
    const h: Reg
    var s: Reg

    constructor (key: Block)
      ensures h == LoadBlock(key) && s == Reg(0, 0)
    {
      h := LoadBlock(key);
      s := Reg(0, 0);
    }

    method ProcessBlock(chunk: Block)
      modifies this
      ensures s == ClmulBlock(old(s), h, LoadBlock(chunk))
    {
      var input := LoadBlock(chunk);
      var t := XorReg(s, input);
      var pm := XorReg(Clmul(t.hi, h.lo), Clmul(t.lo, h.hi));
      var pl := Clmul(t.lo, h.lo);
      var ph := Clmul(t.hi, h.hi);
      var t0 := XorReg(ShiftLeft8(pm), pl);
      var t1 := XorReg(ShiftRight8(pm), ph);
      var r0 := XorReg(Swap(t0), Clmul(t0.lo, POLY));
      var r1 := XorReg(Swap(r0), Clmul(r0.lo, POLY));
      s := XorReg(t1, r1);
    }

    method Update(data: seq<byte>)
      requires |data| % 16 == 0
      modifies this
      ensures s == Absorb(old(s), h, Chunks(data))
    {
      hide ClmulBlock;
      var i := 0;
      while 16 * i < |data|
        invariant 16 * i <= |data|
        invariant Absorb(s, h, Chunks(data[16 * i..])) == Absorb(old(s), h, Chunks(data))
      {
        ChunkStep(data, i);
        AbsorbStep(s, h, data[16 * i..16 * i + 16], Chunks(data[16 * (i + 1)..]));
        ProcessBlock(data[16 * i..16 * i + 16]);
        i := i + 1;
      }
    }

    /** Data of any length counts as POLYVAL of its zero-padded blocks. */
    method UpdatePadded(data: seq<byte>)
      modifies this
      ensures s == Absorb(old(s), h, Chunks(data))
      ensures Lanes(old(s)) && Lanes(h) ==>
        Lanes(s) && IsPolyval(Value(s), Value(old(s)), Value(h), Values(Chunks(data)))
    {
      hide ClmulBlock;
      var fullBlocks := |data| / 16;
      var remainder := |data| % 16;
      PaddedChunks(data, fullBlocks);
      if Lanes(s) && Lanes(h) { AbsorbIsPolyval(s, h, Chunks(data)); }
      var whole := data[..16 * fullBlocks];
      if remainder > 0 {
        var rembytes := data[16 * fullBlocks..] + seq(16 - remainder, _ => 0);
        AbsorbConcat(s, h, Chunks(whole), Chunks(rembytes));
        Update(whole);
        Update(rembytes);
      } else {
        Update(whole);
      }
    }
  }
}
