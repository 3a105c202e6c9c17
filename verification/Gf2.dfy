/** Polynomials over GF(2), written as natural numbers: bit `i` is the coefficient of x^i.
    Addition is bitwise exclusive or, multiplication is carry-less. */
module Gf2 {

  function Xor(a: nat, b: nat): nat
    decreases a + b
  {
    if a == 0 && b == 0 then 0 else (a % 2 + b % 2) % 2 + 2 * Xor(a / 2, b / 2)
  }

  /** Carry-less product. */
  function Mul(a: nat, b: nat): nat {
    if a == 0 then 0 else Xor(if a % 2 == 1 then b else 0, 2 * Mul(a / 2, b))
  }

  /** a · x^k */
  function Shl(a: nat, k: nat): nat { if k == 0 then a else 2 * Shl(a, k - 1) }

  /** The coefficients from x^k on. */
  function Shr(a: nat, k: nat): nat { if k == 0 then a else Shr(a / 2, k - 1) }

  /** The coefficients below x^k. */
  function Low(a: nat, k: nat): nat { if k == 0 then 0 else a % 2 + 2 * Low(a / 2, k - 1) }

  /** Degree below `k`: the polynomial fits in `k` bits. */
  predicate Fits(a: nat, k: nat) { Shr(a, k) == 0 }

  // -------------------------------------------------------------------- exclusive or

  lemma XorStep(a: nat, b: nat)
    ensures Xor(a, b) % 2 == (a % 2 + b % 2) % 2
    ensures Xor(a, b) / 2 == Xor(a / 2, b / 2)
  {
  }

  lemma SameBits(a: nat, b: nat)
    requires a % 2 == b % 2 && a / 2 == b / 2
    ensures a == b
  {
  }

  lemma {:induction false} XorZero(a: nat)
    ensures Xor(a, 0) == a && Xor(0, a) == a
  {
    if a > 0 { XorZero(a / 2); }
  }

  lemma {:induction false} XorSelf(a: nat)
    ensures Xor(a, a) == 0
  {
    if a > 0 { XorSelf(a / 2); }
  }

  lemma {:induction false} XorCommutes(a: nat, b: nat)
    ensures Xor(a, b) == Xor(b, a)
    decreases a + b
  {
    if a + b > 0 { XorCommutes(a / 2, b / 2); }
  }

  lemma Parity(x: nat, y: nat, z: nat)
    ensures ((x % 2 + y % 2) % 2 + z % 2) % 2 == (x % 2 + (y % 2 + z % 2) % 2) % 2
  {
  }

  lemma {:induction false} XorAssociates(a: nat, b: nat, c: nat)
    ensures Xor(Xor(a, b), c) == Xor(a, Xor(b, c))
    decreases a + b + c
  {
    if a + b + c > 0 {
      XorAssociates(a / 2, b / 2, c / 2);
      XorStep(a, b);
      XorStep(b, c);
      var p, q := Xor(a, b), Xor(b, c);
      XorStep(p, c);
      XorStep(a, q);
      Parity(a, b, c);
      SameBits(Xor(p, c), Xor(a, q));
    }
  }

  /** Swapping the inner operands of a sum of sums. */
  lemma XorShuffle(a: nat, b: nat, c: nat, d: nat)
    ensures Xor(Xor(a, b), Xor(c, d)) == Xor(Xor(a, c), Xor(b, d))
  {
    XorAssociates(a, b, Xor(c, d));
    XorAssociates(b, c, d);
    XorCommutes(b, c);
    XorAssociates(c, b, d);
    XorAssociates(a, c, Xor(b, d));
  }

  /** Adding the same polynomial twice cancels. */
  lemma XorCancels(a: nat, b: nat)
    ensures Xor(Xor(a, b), b) == a && Xor(a, Xor(a, b)) == b
  {
    XorAssociates(a, b, b);
    XorSelf(b);
    XorZero(a);
    XorAssociates(a, a, b);
    XorSelf(a);
    XorZero(b);
  }

  lemma XorDouble(a: nat, b: nat)
    ensures Xor(2 * a, 2 * b) == 2 * Xor(a, b)
  {
    assert 2 * a / 2 == a && 2 * b / 2 == b;
    assert 2 * a % 2 == 0 && 2 * b % 2 == 0;
    XorStep(2 * a, 2 * b);
  }

  // -------------------------------------------------------------------------- shifts

  lemma {:induction false} XorShl(a: nat, b: nat, k: nat)
    ensures Xor(Shl(a, k), Shl(b, k)) == Shl(Xor(a, b), k)
  {
    if k > 0 {
      XorShl(a, b, k - 1);
      XorDouble(Shl(a, k - 1), Shl(b, k - 1));
    }
  }

  lemma {:induction false} XorShr(a: nat, b: nat, k: nat)
    ensures Shr(Xor(a, b), k) == Xor(Shr(a, k), Shr(b, k))
  {
    if k > 0 {
      XorStep(a, b);
      XorShr(a / 2, b / 2, k - 1);
    }
  }

  lemma {:induction false} ShlAdds(a: nat, i: nat, j: nat)
    ensures Shl(Shl(a, i), j) == Shl(a, i + j)
  {
    if j > 0 { ShlAdds(a, i, j - 1); }
  }

  lemma {:induction false} ShrShl(a: nat, k: nat)
    ensures Shr(Shl(a, k), k) == a
  {
    if k > 0 { ShrShl(a, k - 1); }
  }

  lemma {:induction false} ShrAdds(a: nat, i: nat, j: nat)
    ensures Shr(Shr(a, i), j) == Shr(a, i + j)
  {
    if i > 0 { ShrAdds(a / 2, i - 1, j); }
  }

  lemma {:induction false} ShrOfZero(k: nat)
    ensures Shr(0, k) == 0
  {
    if k > 0 { ShrOfZero(k - 1); }
  }

  lemma FitsMore(a: nat, i: nat, j: nat)
    requires Fits(a, i) && i <= j
    ensures Fits(a, j)
  {
    ShrAdds(a, i, j - i);
    ShrOfZero(j - i);
  }

  lemma {:induction false} LowFits(a: nat, k: nat)
    ensures Fits(Low(a, k), k)
  {
    if k > 0 { LowFits(a / 2, k - 1); }
  }

  lemma XorFits(a: nat, b: nat, k: nat)
    requires Fits(a, k) && Fits(b, k)
    ensures Fits(Xor(a, b), k)
  {
    XorShr(a, b, k);
    XorZero(0);
  }

  lemma XorJoin(bit: nat, l: nat, h: nat)
    requires bit < 2
    ensures Xor(bit + 2 * l, 2 * h) == bit + 2 * Xor(l, h)
  {
    XorStep(bit + 2 * l, 2 * h);
  }

  /** A polynomial is its low part plus its high part. */
  lemma {:induction false} SplitAt(a: nat, k: nat)
    ensures a == Xor(Low(a, k), Shl(Shr(a, k), k))
  {
    if k == 0 {
      XorZero(a);
    } else {
      SplitAt(a / 2, k - 1);
      XorJoin(a % 2, Low(a / 2, k - 1), Shl(Shr(a / 2, k - 1), k - 1));
    }
  }

  /** Parts without common bits: exclusive or is addition. */
  lemma {:induction false} XorAbove(lo: nat, hi: nat, k: nat)
    requires Fits(lo, k)
    ensures Xor(Shl(hi, k), lo) == Shl(hi, k) + lo
    decreases k
  {
    if k == 0 {
      XorZero(hi);
    } else {
      XorAbove(lo / 2, hi, k - 1);
      XorCommutes(Shl(hi, k), lo);
      XorCommutes(Shl(hi, k - 1), lo / 2);
      XorJoin(lo % 2, lo / 2, Shl(hi, k - 1));
    }
  }

  // ------------------------------------------------------------------ multiplication

  lemma MulUnfold(a: nat, b: nat)
    ensures Mul(a, b) == Xor(if a % 2 == 1 then b else 0, 2 * Mul(a / 2, b))
  {
    if a == 0 { XorZero(0); }
  }

  lemma MulDoubleLeft(a: nat, b: nat)
    ensures Mul(2 * a, b) == 2 * Mul(a, b)
  {
    if a > 0 { XorZero(2 * Mul(a, b)); }
  }

  lemma {:induction false} MulDoubleRight(a: nat, b: nat)
    ensures Mul(a, 2 * b) == 2 * Mul(a, b)
  {
    if a > 0 {
      MulDoubleRight(a / 2, b);
      XorDouble(if a % 2 == 1 then b else 0, 2 * Mul(a / 2, b));
    }
  }

  lemma {:induction false} MulDistributesRight(a: nat, b: nat, c: nat)
    ensures Mul(a, Xor(b, c)) == Xor(Mul(a, b), Mul(a, c))
  {
    XorZero(0);
    if a > 0 {
      MulDistributesRight(a / 2, b, c);
      XorDouble(Mul(a / 2, b), Mul(a / 2, c));
      var on := a % 2 == 1;
      XorShuffle(if on then b else 0, 2 * Mul(a / 2, b), if on then c else 0, 2 * Mul(a / 2, c));
    }
  }

  /** The lowest coefficient of a sum, as a multiple of `c`. */
  lemma LowBitOfSum(a: nat, b: nat, c: nat)
    ensures (if Xor(a, b) % 2 == 1 then c else 0) == Xor(if a % 2 == 1 then c else 0, if b % 2 == 1 then c else 0)
  {
    XorStep(a, b);
    XorSelf(c);
    XorZero(c);
    XorZero(0);
  }

  lemma {:induction false} MulDistributesLeft(a: nat, b: nat, c: nat)
    ensures Mul(Xor(a, b), c) == Xor(Mul(a, c), Mul(b, c))
    decreases a + b
  {
    if a + b > 0 {
      MulDistributesLeft(a / 2, b / 2, c);
      XorStep(a, b);
      LowBitOfSum(a, b, c);
      MulUnfold(a, c);
      MulUnfold(b, c);
      MulUnfold(Xor(a, b), c);
      XorDouble(Mul(a / 2, c), Mul(b / 2, c));
      XorShuffle(if a % 2 == 1 then c else 0, 2 * Mul(a / 2, c), if b % 2 == 1 then c else 0, 2 * Mul(b / 2, c));
    } else {
      XorZero(0);
    }
  }

  lemma {:induction false} MulShlLeft(a: nat, b: nat, k: nat)
    ensures Mul(Shl(a, k), b) == Shl(Mul(a, b), k)
  {
    if k > 0 {
      MulShlLeft(a, b, k - 1);
      MulDoubleLeft(Shl(a, k - 1), b);
    }
  }

  lemma {:induction false} MulShlRight(a: nat, b: nat, k: nat)
    ensures Mul(a, Shl(b, k)) == Shl(Mul(a, b), k)
  {
    if k > 0 {
      MulShlRight(a, b, k - 1);
      MulDoubleRight(a, Shl(b, k - 1));
    }
  }

  lemma {:induction false} MulOneRight(a: nat)
    ensures Mul(a, 1) == a
  {
    if a > 0 {
      MulOneRight(a / 2);
      XorStep(a % 2, 2 * (a / 2));
      XorZero(a / 2);
      SameBits(a, Xor(a % 2, 2 * (a / 2)));
    }
  }

  /** Degrees add up. */
  lemma {:induction false} MulFits(a: nat, b: nat, i: nat, j: nat)
    requires Fits(a, i) && Fits(b, j)
    ensures Fits(Mul(a, b), i + j)
    decreases i
  {
    if i == 0 {
      ShrOfZero(j);
    } else {
      MulFits(a / 2, b, i - 1, j);
      FitsMore(b, j, i + j);
      ShrOfZero(i + j);
      MulUnfold(a, b);
      XorFits(if a % 2 == 1 then b else 0, 2 * Mul(a / 2, b), i + j);
    }
  }
}
