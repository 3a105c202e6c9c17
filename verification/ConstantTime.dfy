/** `utils.rs`: the branch-free comparison, against lexicographic order. */
module ConstantTime {

  datatype Ordering = Less | Equal | Greater

  // ------------------------------------------------------- branch-free byte helpers

  function ExpandTopBit(a: bv8): bv8 { 0 - (a >> 7) }

  function CtIsZero(a: bv8): bv8 { ExpandTopBit(!a & (a - 1)) }

  function CtIsEq(a: bv8, b: bv8): bv8 { CtIsZero(a ^ b) }

  function CtIsLt(a: bv8, b: bv8): bv8 { ExpandTopBit(a ^ ((a ^ b) | ((a - b) ^ a))) }

  function CtSelect(mask: bv8, a: bv8, b: bv8): bv8 { b ^ (mask & (a ^ b)) }

  lemma MasksAreRight(a: bv8, b: bv8)
    ensures CtIsEq(a, b) == if a == b then 0xFF else 0
    ensures CtIsLt(a, b) == if a < b then 0xFF else 0
  {
    assert a ^ b == 0 <==> a == b;
    IsZeroIsRight(a ^ b);
    IsLtIsRight(a, b);
  }

  lemma IsZeroIsRight(a: bv8)
    ensures CtIsZero(a) == if a == 0 then 0xFF else 0
  {
  }

  lemma IsLtIsRight(a: bv8, b: bv8)
    ensures CtIsLt(a, b) == if a < b then 0xFF else 0
  {
  }

  lemma SelectIsRight(mask: bv8, a: bv8, b: bv8)
    requires mask == 0 || mask == 0xFF
    ensures CtSelect(mask, a, b) == if mask == 0xFF then a else b
  {
  }

  // -------------------------------------------------------------- the reference order

  /** The first difference decides; a proper prefix comes first.  This is how slices compare. */
  function Lex(x: seq<bv8>, y: seq<bv8>): Ordering {
    if x == [] && y == [] then Equal
    else if x == [] then Less
    else if y == [] then Greater
    else if x[0] < y[0] then Less
    else if y[0] < x[0] then Greater
    else Lex(x[1..], y[1..])
  }

  /** Length first, then lexicographic. */
  function Compare(x: seq<bv8>, y: seq<bv8>): Ordering {
    if |x| < |y| then Less else if |x| > |y| then Greater else Lex(x, y)
  }

  function Code(o: Ordering): bv8 {
    match o case Equal => 0 case Less => 1 case Greater => 255
  }

  /** Scans from the last byte to the first, so that the first difference wins. */
  method ConstantTimeCmp(x: seq<bv8>, y: seq<bv8>) returns (o: Ordering)
    ensures o == Compare(x, y)
  {
    if |x| < |y| {
      return Less;
    }
    if |x| > |y| {
      return Greater;
    }
    var n := |x|;
    var result: bv8 := 0;
    for i := 0 to n
      invariant result == Code(Lex(x[n - i..], y[n - i..]))
    {
      var a, b := x[n - 1 - i], y[n - 1 - i];
      var isEq, isLt := CtIsEq(a, b), CtIsLt(a, b);
      MasksAreRight(a, b);
      SelectIsRight(isLt, 1, 255);
      SelectIsRight(isEq, result, CtSelect(isLt, 1, 255));
      assert x[n - 1 - i..][1..] == x[n - i..] && y[n - 1 - i..][1..] == y[n - i..];
      result := CtSelect(isEq, result, CtSelect(isLt, 1, 255));
    }
    assert x[0..] == x && y[0..] == y;
    o := if result == 0 then Equal else if result == 1 then Less else Greater;
  }

  // -------------------------------------------------------------------- total order

  function Flip(o: Ordering): Ordering {
    match o case Less => Greater case Equal => Equal case Greater => Less
  }

  lemma {:induction false} LexIsAntisymmetric(x: seq<bv8>, y: seq<bv8>)
    ensures Lex(y, x) == Flip(Lex(x, y))
    ensures Lex(x, y) == Equal <==> x == y
  {
    if x != [] && y != [] {
      LexIsAntisymmetric(x[1..], y[1..]);
      assert x == [x[0]] + x[1..] && y == [y[0]] + y[1..];
    }
  }

  lemma {:induction false} LexIsTransitive(x: seq<bv8>, y: seq<bv8>, z: seq<bv8>)
    requires Lex(x, y) == Less && Lex(y, z) == Less
    ensures Lex(x, z) == Less
  {
    if x != [] && y != [] && z != [] && x[0] == y[0] && y[0] == z[0] {
      LexIsTransitive(x[1..], y[1..], z[1..]);
    }
  }

  /** The comparison is a total order whose equality is equality. */
  lemma CompareIsTotalOrder(x: seq<bv8>, y: seq<bv8>, z: seq<bv8>)
    ensures Compare(x, y) == Equal <==> x == y
    ensures Compare(y, x) == Flip(Compare(x, y))
    ensures Compare(x, y) == Less && Compare(y, z) == Less ==> Compare(x, z) == Less
  {
    LexIsAntisymmetric(x, y);
    if |x| == |y| == |z| && Lex(x, y) == Less && Lex(y, z) == Less { LexIsTransitive(x, y, z); }
  }

  /** Position `k` is the first difference, and the smaller byte there is that of `x`. */
  ghost predicate SmallerAt(x: seq<bv8>, y: seq<bv8>, k: nat) {
    k < |x| && k < |y| && x[..k] == y[..k] && x[k] < y[k]
  }

  lemma {:induction false} LexByFirstDifference(x: seq<bv8>, y: seq<bv8>)
    requires |x| == |y|
    ensures Lex(x, y) == Less <==> exists k: nat :: SmallerAt(x, y, k)
  {
    if x != [] {
      var x', y' := x[1..], y[1..];
      LexByFirstDifference(x', y');
      if x[0] < y[0] { assert SmallerAt(x, y, 0); }
      if k: nat :| SmallerAt(x, y, k) && k > 0 {
        assert x[0] == x[..k][0] == y[..k][0] == y[0];
        assert x[..k][1..] == x'[..k - 1] && y[..k][1..] == y'[..k - 1];
        assert SmallerAt(x', y', k - 1);
      }
      if k: nat :| SmallerAt(x', y', k) && x[0] == y[0] {
        assert x[..k + 1] == [x[0]] + x'[..k] && y[..k + 1] == [y[0]] + y'[..k];
        assert SmallerAt(x, y, k + 1);
      }
    }
  }

  /** The shorter input is less; of two of one length, the one with the smaller byte at the first
      difference. */
  lemma CompareIsLessIff(x: seq<bv8>, y: seq<bv8>)
    ensures Compare(x, y) == Less <==> |x| < |y| || (|x| == |y| && exists k: nat :: SmallerAt(x, y, k))
    ensures Compare(x, y) == Greater <==> |y| < |x| || (|x| == |y| && exists k: nat :: SmallerAt(y, x, k))
  {
    if |x| == |y| {
      LexByFirstDifference(x, y);
      LexByFirstDifference(y, x);
      LexIsAntisymmetric(x, y);
    }
  }

  /** A public key is its type byte followed by 32 bytes of key data. */
  function Serialize(keyData: seq<bv8>): seq<bv8> { [0x05] + keyData }

  /** `are_we_alice` compares serialised keys as slices. */
  predicate AreWeAlice(ours: seq<bv8>, theirs: seq<bv8>) { Lex(Serialize(ours), Serialize(theirs)) == Less }

  /** `PublicKey`'s order agrees with `are_we_alice`, and of two different keys exactly one
      side is Alice. */
  lemma OrderAgreesWithAlice(ours: seq<bv8>, theirs: seq<bv8>)
    requires |ours| == |theirs|
    ensures AreWeAlice(ours, theirs) <==> Compare(ours, theirs) == Less
    ensures AreWeAlice(ours, theirs) <==> exists k: nat :: SmallerAt(ours, theirs, k)
    ensures ours != theirs ==> (AreWeAlice(ours, theirs) <==> !AreWeAlice(theirs, ours))
  {
    LexByFirstDifference(ours, theirs);
    assert Serialize(ours)[1..] == ours && Serialize(theirs)[1..] == theirs;
    LexIsAntisymmetric(ours, theirs);
  }
}
