/** Which tree bin holds a chunk of a given size. */
module TreeIndex {
  import opened Bytes
  import opened Words
  import opened BinMaps

  const NTREEBINS := 32
  const TREEBIN_SHIFT := 8

  /** Floor of the base-2 logarithm; 31 minus the count of leading zeros of a 32-bit word. */
  function Log2(x: nat): nat
    requires x > 0
  {
    if x == 1 then 0 else Log2(x / 2) + 1
  }

  /** compute_tree_index for compilers with a count-leading-zeros instruction. */
  function IndexByClz(s: word): nat {
    var x := Shr(s, TREEBIN_SHIFT);
    if x == 0 then 0
    else if x > 0xFFFF then NTREEBINS - 1
    else
      var k := Log2(x);
      2 * k + Masked(Shr(s, k + (TREEBIN_SHIFT - 1)), 0)
  }

  /** compute_tree_index without branches on the size. */
  function ComputeTreeIndex(s: word): int {
    var x := Shr(s, TREEBIN_SHIFT);
    if x == 0 then 0
    else if x > 0xFFFF then NTREEBINS - 1
    else
      var y := x;
      var n := Masked(Shr(Sub(y, 0x100), 16), 3);
      var y := Shl(y, n);
      var k := Masked(Shr(Sub(y, 0x1000), 16), 2);
      var n := n + k;
      var y := Shl(y, k);
      var k := Masked(Shr(Sub(y, 0x4000), 16), 1);
      var n := n + k;
      var y := Shl(y, k);
      var k := 14 - n + Shr(y, 15);
      2 * k + if k + (TREEBIN_SHIFT - 1) >= 0 then Masked(Shr(s, k + (TREEBIN_SHIFT - 1)), 0) else 0
  }

  /** Size of the smallest chunk in tree bin i. */
  function MinSize(i: nat): nat {
    Or(Pow2(i / 2 + TREEBIN_SHIFT), if i % 2 == 1 then Pow2(i / 2 + TREEBIN_SHIFT - 1) else 0)
  }

  lemma {:induction false} OrNeighbours(a: nat)
    ensures Or(Pow2(a + 1), Pow2(a)) == Pow2(a + 1) + Pow2(a)
  {
    if a > 0 {
      OrNeighbours(a - 1);
    }
  }

  lemma MinSizeSum(i: nat)
    ensures MinSize(i) == Pow2(i / 2 + 8) + if i % 2 == 1 then Pow2(i / 2 + 7) else 0
  {
    OrNeighbours(i / 2 + 7);
  }

  lemma {:induction false} Log2Bounds(x: nat)
    requires x > 0
    ensures Pow2(Log2(x)) <= x < Pow2(Log2(x) + 1)
  {
    if x > 1 {
      Log2Bounds(x / 2);
    }
  }

  lemma Log2Unique(x: nat, k: nat)
    requires Pow2(k) <= x < Pow2(k + 1)
    ensures x > 0 && Log2(x) == k
  {
    Log2Bounds(x);
    if Log2(x) < k { Pow2Monotone(Log2(x), k); }
    if k < Log2(x) { Pow2Monotone(k, Log2(x)); }
  }

  lemma {:induction false} Log2Shift(x: nat, n: nat)
    requires x > 0
    ensures x * Pow2(n) > 0 && Log2(x * Pow2(n)) == Log2(x) + n
  {
    Pow2Step(n);
    hide Pow2;
    if n > 0 {
      Log2Shift(x, n - 1);
      var m := x * Pow2(n - 1);
      TwiceProduct(Pow2(n - 1), x);
      Log2Double(m);
    }
  }

  lemma Log2Double(m: nat)
    requires m > 0
    ensures Log2(2 * m) == Log2(m) + 1
  {
    Halve(m, 0);
  }

  lemma SixteenBits()
    ensures Pow2(7) == 0x80 && Pow2(8) == 0x100 && Pow2(12) == 0x1000 && Pow2(14) == 0x4000
    ensures Pow2(15) == 0x8000 && Pow2(16) == 0x1_0000
    ensures Pow2(0) == 1 && Pow2(1) == 2 && Pow2(2) == 4 && Pow2(3) == 8 && Pow2(4) == 16
  {
    assert Pow2(4) == 16 && Pow2(6) == 64;
    assert Pow2(10) == 1024;
  }

  /** The masked borrow of y - c says whether y < c. */
  lemma Borrow(y: nat, c: nat, b: nat)
    requires y < 0x1_0000 && c <= 0x1_0000 && b < 16
    ensures Masked(Shr(Sub(y, c), 16), b) == if y < c then Pow2(b) else 0
  {
    BorrowWord(y, c);
    if y < c {
      SixteenBits();
      hide Pow2, Sub, Shr, Bit;
      BitRun(16, 0, b);
    } else {
      hide Pow2, Sub, Shr, Bit;
      BitZero(b);
    }
  }

  lemma BorrowWord(y: nat, c: nat)
    requires y < 0x1_0000 && c <= 0x1_0000
    ensures Shr(Sub(y, c), 16) == if y < c then 0xFFFF else 0
  {
    SixteenBits();
    hide Pow2;
    WrappedSub(y, c);
    hide Sub;
    if y < c { HighHalf(TWO_32 + y - c); } else { LowHalf(y - c); }
  }

  lemma WrappedSub(y: nat, c: nat)
    requires y < TWO_32 && c < TWO_32
    ensures Sub(y, c) == if y < c then TWO_32 + y - c else y - c
  {
  }

  lemma HighHalf(x: nat)
    requires 0xFFFF_0000 <= x < TWO_32
    ensures x / 0x1_0000 == 0xFFFF
  {
  }

  lemma LowHalf(x: nat)
    requires x < 0x1_0000
    ensures x / 0x1_0000 == 0
  {
  }

  /** One normalising step: afterwards y has at least as many bits as c, and its logarithm has grown by the shift. */
  lemma Normalise(y: nat, c: nat, b: nat)
    requires 0 < y < 0x1_0000 && b < 4 && c * Pow2(Pow2(b)) == 0x1_0000
    ensures var k := Masked(Shr(Sub(y, c), 16), b);
            var y' := Shl(y, k);
            y <= y' < 0x1_0000 && (k > 0 ==> y < c) && (k == 0 ==> c <= y) && (k == 0 || k == Pow2(b))
            && y' == y * Pow2(k) && Log2(y') == Log2(y) + k
  {
    hide Masked, Sub, Shr, Log2;
    var p := Pow2(Pow2(b));
    assert c <= 0x1_0000 by { MulMonotone(c, 1, p); }
    Borrow(y, c, b);
    var k := Masked(Shr(Sub(y, c), 16), b);
    Log2Shift(y, k);
    Scaled(y, c, p);
    assert Pow2(0) == 1;
  }

  lemma Scaled(y: nat, c: nat, p: nat)
    requires p >= 1 && c * p == 0x1_0000
    ensures y <= y * p && (y < c ==> y * p < 0x1_0000)
  {
    MulMonotone(y, 1, p);
    MulMonotone(p, y + 1, c);
  }

  /** The two forms of compute_tree_index agree on every size. */
  lemma IndexFormsAgree(s: word)
    ensures ComputeTreeIndex(s) == IndexByClz(s)
  {
    var x := Shr(s, TREEBIN_SHIFT);
    if 0 < x <= 0xFFFF {
      KIsLog2(x);
    }
  }

  lemma KIsLog2(x: nat)
    requires 0 < x < 0x1_0000
    ensures var n := Masked(Shr(Sub(x, 0x100), 16), 3);
            var y := Shl(x, n);
            var k := Masked(Shr(Sub(y, 0x1000), 16), 2);
            var n := n + k;
            var y := Shl(y, k);
            var k := Masked(Shr(Sub(y, 0x4000), 16), 1);
            var n := n + k;
            var y := Shl(y, k);
            14 - n + Shr(y, 15) == Log2(x)
  {
    hide Masked, Shl, Shr, Sub, Log2;
    SixteenBits();
    Normalise(x, 0x100, 3);
    var n1 := Masked(Shr(Sub(x, 0x100), 16), 3);
    var y1 := Shl(x, n1);
    Normalise(y1, 0x1000, 2);
    var n2 := Masked(Shr(Sub(y1, 0x1000), 16), 2);
    var y2 := Shl(y1, n2);
    Normalise(y2, 0x4000, 1);
    var n3 := Masked(Shr(Sub(y2, 0x4000), 16), 1);
    var y3 := Shl(y2, n3);
    assert y1 >= 0x100 by { if n1 > 0 { assert y1 == x * 256; } }
    assert y2 >= 0x1000 by { if n2 > 0 { assert y2 == y1 * 16; } }
    assert y3 >= 0x4000 by { if n3 > 0 { assert y3 == y2 * 4; } }
    TopBit(y3);
  }

  lemma TopBit(y: nat)
    requires 0x4000 <= y < 0x1_0000
    ensures Log2(y) == 14 + Shr(y, 15)
  {
    SixteenBits();
    Log2Unique(y, 14 + Shr(y, 15));
  }

  lemma Quotient(s: nat, p: nat)
    requires p >= 1 && 2 * p <= s < 4 * p
    ensures s / p == if s < 3 * p then 2 else 3
  {
    DivUnique(s, p, if s < 3 * p then 2 else 3, s - (if s < 3 * p then 2 * p else 3 * p));
  }

  /** The index names the power of two below the size and the half of its range the size lies in. */
  lemma IndexHalves(s: word)
    requires 256 <= s < 0x100_0000
    ensures var k := Log2(s / 256);
            k < 16 && 2 * Pow2(k + 7) <= s < 4 * Pow2(k + 7)
            && IndexByClz(s) == 2 * k + if s < 3 * Pow2(k + 7) then 0 else 1
  {
    hide Log2;
    SixteenBits();
    var x := s / 256;
    var k := Log2(x);
    Log2Bounds(x);
    if k >= 16 { Pow2Monotone(15, k); }
    Pow2Add(k, 8);
    assert Pow2(k + 8) == 256 * Pow2(k);
    Quotient(s, Pow2(k + 7));
  }

  /** A tree bin holds the sizes from its minimum up to the next bin's. */
  lemma IndexBracketsSize(s: word)
    requires s >= 256
    ensures 0 <= ComputeTreeIndex(s) < NTREEBINS
    ensures MinSize(ComputeTreeIndex(s)) <= s
    ensures ComputeTreeIndex(s) < NTREEBINS - 1 ==> s < MinSize(ComputeTreeIndex(s) + 1)
  {
    hide ComputeTreeIndex, IndexByClz, Log2, Or, MinSize, Pow2;
    IndexFormsAgree(s);
    var i := ComputeTreeIndex(s);
    if s < 0x100_0000 {
      IndexHalves(s);
      HalfBracket(s, Log2(s / 256), i);
    } else {
      LastIndex(s);
      LastBinMin();
    }
  }

  lemma LastIndex(s: word)
    requires s >= 0x100_0000
    ensures IndexByClz(s) == 31
  {
    assert Pow2(8) == 256 by { assert Pow2(4) == 16; }
    hide Pow2, Log2, Masked;
  }

  /** Bin 2k + h begins at 2^(k+8), plus half of that if h is 1. */
  lemma HalfBracket(s: nat, k: nat, i: nat)
    requires k < 16 && 2 * Pow2(k + 7) <= s < 4 * Pow2(k + 7) && i == 2 * k + if s < 3 * Pow2(k + 7) then 0 else 1
    ensures MinSize(i) <= s < MinSize(i + 1)
  {
    hide MinSize;
    MinSizeSum(i);
    MinSizeSum(i + 1);
    assert Pow2(k + 8) == 2 * Pow2(k + 7) && Pow2(k + 9) == 2 * Pow2(k + 8);
  }

  lemma LastBinMin()
    ensures MinSize(31) == 0xC0_0000
  {
    MinSizeSum(31);
    SixteenBits();
    assert Pow2(18) == 0x4_0000 && Pow2(20) == 0x10_0000 && Pow2(22) == 0x40_0000;
  }
}
