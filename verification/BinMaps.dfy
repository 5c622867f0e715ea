/** The 32-bit bin maps and the branch-free searches over them. */
module BinMaps {
  import opened Bytes
  import opened Words

  /** The bit that stands for bin i. */
  function Idx2Bit(i: nat): word
    requires i < 32
  {
    SingleBit(i);
    Pow2(i)
  }

  predicate Marked(m: word, i: nat) { Bit(m, i) }

  function Mark(m: word, i: nat): word
    requires i < 32
  {
    OrWord(m, Idx2Bit(i));
    Or(m, Idx2Bit(i))
  }

  function Clear(m: word, i: nat): word
    requires i < 32
  {
    AndWord(m, Not(Idx2Bit(i)));
    And(m, Not(Idx2Bit(i)))
  }

  function LeastBit(x: word): word {
    AndWord(x, Neg(x));
    And(x, Neg(x))
  }

  /** Every bit to the left of the least bit of x. */
  function LeftBits(x: word): word {
    var y := Shl(x, 1);
    OrWord(y, Neg(y));
    Or(y, Neg(y))
  }

  /** The bits of m to the left of bin i. */
  function NextBits(m: word, i: nat): word
    requires i < 32
  {
    AndWord(LeftBits(Idx2Bit(i)), m);
    And(LeftBits(Idx2Bit(i)), m)
  }

  /** One bit of a word, as the value it contributes. */
  function Masked(x: word, place: nat): nat {
    if Bit(x, place) then Pow2(place) else 0
  }

  /** The portable index of the only bit set in x: five shift-and-mask steps. */
  function Bit2Idx(x: word): nat {
    var y := Sub(x, 1);
    var k := Masked(Shr(y, 12), 4);
    var n := k;
    var y := Shr(y, k);
    var k := Masked(Shr(y, 5), 3);
    var n := n + k;
    var y := Shr(y, k);
    var k := Masked(Shr(y, 2), 2);
    var n := n + k;
    var y := Shr(y, k);
    var k := Masked(Shr(y, 1), 1);
    var n := n + k;
    var y := Shr(y, k);
    var k := Masked(Shr(y, 1), 0);
    var n := n + k;
    var y := Shr(y, k);
    n + y
  }

  lemma SingleBit(i: nat)
    requires i < 32
    ensures Pow2(i) < TWO_32
  {
    Pow2At32();
    Pow2Monotone(i, 32);
  }

  lemma {:induction false} AndAtMost(x: nat, y: nat)
    ensures And(x, y) <= x
  {
    if x != 0 && y != 0 {
      AndAtMost(x / 2, y / 2);
    }
  }

  lemma AndWord(x: word, y: word)
    ensures And(x, y) < TWO_32
  {
    AndAtMost(x, y);
  }

  lemma {:induction false} OrBelow(n: nat, x: nat, y: nat)
    requires x < Pow2(n) && y < Pow2(n)
    ensures Or(x, y) < Pow2(n)
  {
    if x != 0 && y != 0 {
      OrBelow(n - 1, x / 2, y / 2);
    }
  }

  lemma OrWord(x: word, y: word)
    ensures Or(x, y) < TWO_32
  {
    Pow2At32();
    OrBelow(32, x, y);
  }

  /** Marking or clearing a bin changes that bin's mark and no other. */
  lemma MarkClear(m: word, i: nat, j: nat)
    requires i < 32 && j < 32
    ensures Marked(Mark(m, i), j) <==> i == j || Marked(m, j)
    ensures Marked(Clear(m, i), j) <==> i != j && Marked(m, j)
  {
    hide And, Or, Bit;
    Pow2At32();
    SingleBit(i);
    BitOr(m, Pow2(i), j);
    BitAnd(m, Not(Pow2(i)), j);
    BitComplement(32, Pow2(i), j);
    BitPow2(i, j);
  }

  lemma LeftBitsOfIdx(i: nat, j: nat)
    requires i < 32
    ensures Bit(LeftBits(Idx2Bit(i)), j) <==> i < j < 32
  {
    hide And, Or, Bit, Shl, Pow2;
    Pow2At32();
    SingleBit(i);
    IdxShifted(i);
    var y := Shl(Pow2(i), 1);
    BitOr(y, Neg(y), j);
    if i < 31 {
      SingleBit(i + 1);
      BitPow2(i + 1, j);
      BitRun(32, i + 1, j);
    } else {
      BitZero(j);
    }
  }

  lemma IdxShifted(i: nat)
    requires i < 32
    ensures Pow2(i) < TWO_32 && Shl(Pow2(i), 1) == if i < 31 then Pow2(i + 1) else 0
  {
    Pow2At32();
    SingleBit(i);
    assert Pow2(1) == 2;
    assert Pow2(i) * 2 == Pow2(i + 1);
    if i < 31 { SingleBit(i + 1); }
  }

  /** The part of m above bin i, mark by mark. */
  lemma NextMarks(m: word, i: nat, j: nat)
    requires i < 32
    ensures Bit(NextBits(m, i), j) <==> i < j < 32 && Marked(m, j)
  {
    hide And, Bit, LeftBits;
    BitAnd(LeftBits(Idx2Bit(i)), m, j);
    LeftBitsOfIdx(i, j);
  }

  lemma LeastBitIsLow(x: word)
    requires x != 0
    ensures Low(x) < 32 && LeastBit(x) == Idx2Bit(Low(x))
  {
    hide And, Low;
    Pow2At32();
    LowIsLowest(x, 32);
    AndNegated(32, x);
  }

  lemma {:induction false} BitShr(x: word, a: nat, b: nat)
    ensures Bit(Shr(x, a), b) <==> Bit(x, a + b)
    decreases a
  {
    if a > 0 {
      BitShr(x / 2, a - 1, b);
      HalfThenShift(x, a);
    }
  }

  lemma HalfThenShift(x: word, a: nat)
    requires a > 0
    ensures Shr(x, a) == Shr(x / 2, a - 1)
  {
    DivTwice(x, Pow2(a - 1));
  }

  lemma Euclid(x: nat, d: nat)
    requires d >= 1
    ensures x == d * (x / d) + x % d && 0 <= x % d < d && x / d >= 0
  {
  }

  lemma DoubleProduct(p: nat, q: nat)
    ensures (2 * p) * q == 2 * (p * q) && p * q >= 0
  {
  }

  lemma HalfSum(x: nat, m: nat, r: nat)
    requires x == 2 * m + r
    ensures x / 2 == m + r / 2
  {
  }

  lemma DivTwice(x: nat, p: nat)
    requires p >= 1
    ensures x / (2 * p) == (x / 2) / p
  {
    var q, r := x / (2 * p), x % (2 * p);
    Euclid(x, 2 * p);
    DoubleProduct(p, q);
    HalfSum(x, p * q, r);
    DivUnique(x / 2, p, q, r / 2);
  }

  lemma DivUnique(x: nat, p: nat, q: nat, r: nat)
    requires 0 <= r < p && x == p * q + r
    ensures x / p == q
  {
    MulMonotone(p, q + 1, x / p);
    MulMonotone(p, x / p + 1, q);
  }

  lemma MulMonotone(p: nat, a: int, b: int)
    ensures a <= b ==> p * a <= p * b
  {
    if a <= b {
      assert p * b - p * a == p * (b - a);
    }
  }

  /** The run of ones below bit i. */
  function Ones(i: nat): word
    requires i < 32
  {
    SingleBit(i);
    Pow2(i) - 1
  }

  lemma {:induction false} OnesShr(i: nat, k: nat)
    requires k <= i < 32
    ensures Shr(Ones(i), k) == Ones(i - k)
    decreases k
  {
    if k > 0 {
      HalfThenShift(Ones(i), k);
      assert Ones(i) / 2 == Ones(i - 1);
      OnesShr(i - 1, k - 1);
    }
  }

  /** One step of compute_bit2idx, looking at bit 2^b by shifting right by a and masking with bit b. */
  lemma Bit2IdxStep(i: nat, a: nat, b: nat)
    requires i < 32 && a + b == Pow2(b)
    ensures var k := Masked(Shr(Ones(i), a), b);
            k == (if Pow2(b) < i then Pow2(b) else 0) && Shr(Ones(i), k) == Ones(i - k)
  {
    hide Bit;
    BitShr(Ones(i), a, b);
    BitRun(i, 0, a + b);
    OnesShr(i, Masked(Shr(Ones(i), a), b));
  }

  lemma SmallPowers()
    ensures Pow2(0) == 1 && Pow2(1) == 2 && Pow2(2) == 4 && Pow2(3) == 8 && Pow2(4) == 16
  {
  }

  lemma OnesBelow(i: nat)
    requires i < 32
    ensures Sub(Idx2Bit(i), 1) == Ones(i) && Idx2Bit(i) >= 1 && (i == 0 ==> Ones(i) == 0)
    ensures i == 1 ==> Ones(i) == 1
  {
    SingleBit(i);
    SmallPowers();
    hide Pow2;
  }

  lemma Bit2IdxOfBit(i: nat)
    requires i < 32
    ensures Bit2Idx(Idx2Bit(i)) == i
  {
    hide Masked, Shr, Sub, Idx2Bit, Ones, Pow2;
    SmallPowers();
    OnesBelow(i);
    var i0 := i;
    Bit2IdxStep(i0, 12, 4);
    var i1 := i0 - Masked(Shr(Ones(i0), 12), 4);
    Bit2IdxStep(i1, 5, 3);
    var i2 := i1 - Masked(Shr(Ones(i1), 5), 3);
    Bit2IdxStep(i2, 2, 2);
    var i3 := i2 - Masked(Shr(Ones(i2), 2), 2);
    Bit2IdxStep(i3, 1, 1);
    var i4 := i3 - Masked(Shr(Ones(i3), 1), 1);
    Bit2IdxStep(i4, 1, 0);
    ShrZero(Ones(i4));
    OnesBelow(0);
    OnesBelow(1);
  }

  lemma ShrZero(x: word)
    ensures Shr(x, 0) == x
  {
  }

  /** least_bit and compute_bit2idx name the lowest marked bin. */
  lemma LeastIsLowest(m: word)
    requires m != 0
    ensures var r := Bit2Idx(LeastBit(m));
            r < 32 && Marked(m, r) && forall j :: 0 <= j < r ==> !Marked(m, j)
  {
    hide Bit, Low, Bit2Idx;
    Pow2At32();
    LowIsLowest(m, 32);
    LeastBitIsLow(m);
    Bit2IdxOfBit(Low(m));
  }

  /** With left_bits in front: the lowest marked bin strictly above i, if there is one. */
  lemma NextIsLowest(m: word, i: nat)
    requires i < 32
    ensures NextBits(m, i) != 0 <==> exists j :: i < j < 32 && Marked(m, j)
    ensures NextBits(m, i) != 0 ==>
              var r := Bit2Idx(LeastBit(NextBits(m, i)));
              i < r < 32 && Marked(m, r) && forall j :: i < j < r ==> !Marked(m, j)
  {
    hide Bit, Bit2Idx, LeastBit, NextBits;
    var x := NextBits(m, i);
    forall j: nat
      ensures Bit(x, j) <==> i < j < 32 && Marked(m, j)
    {
      NextMarks(m, i, j);
    }
    LowestAbove(x, m, i);
  }

  /** Any word whose bits are the marks above i leads to the lowest of them. */
  lemma LowestAbove(x: word, m: word, i: nat)
    requires i < 32 && forall j: nat :: Bit(x, j) <==> i < j < 32 && Marked(m, j)
    ensures x != 0 <==> exists j :: i < j < 32 && Marked(m, j)
    ensures x != 0 ==> var r := Bit2Idx(LeastBit(x));
              i < r < 32 && Marked(m, r) && forall j :: i < j < r ==> !Marked(m, j)
  {
    hide Bit, Bit2Idx, LeastBit;
    if x != 0 {
      LeastIsLowest(x);
      var r := Bit2Idx(LeastBit(x));
      assert Bit(x, r);
      forall j | i < j < r
        ensures !Marked(m, j)
      {
        assert !Marked(x, j);
      }
    } else {
      forall j | i < j < 32
        ensures !Marked(m, j)
      {
        BitZero(j);
      }
    }
  }

  /** The marks above i as dlmalloc computes them from the small map shifted right by i. */
  function ShiftedNext(smallbits: word, i: nat): word
    requires i < 32
  {
    AndWord(Shl(smallbits, i), LeftBits(Idx2Bit(i)));
    And(Shl(smallbits, i), LeftBits(Idx2Bit(i)))
  }

  lemma {:induction false} BitTimes(x: nat, i: nat, j: nat)
    ensures Bit(x * Pow2(i), j) <==> i <= j && Bit(x, j - i)
  {
    if i > 0 {
      assert x * Pow2(i) == 2 * (x * Pow2(i - 1));
      if j > 0 { BitTimes(x, i - 1, j - 1); }
    }
  }

  lemma ShrThenShl(m: word, i: nat)
    ensures Shl(Shr(m, i), i) == m / Pow2(i) * Pow2(i)
  {
    var q := m / Pow2(i);
    assert m == q * Pow2(i) + m % Pow2(i);
  }

  lemma ShiftedNextIsLowest(m: word, i: nat)
    requires i < 32
    ensures var x := ShiftedNext(Shr(m, i), i);
            && (x != 0 <==> exists j :: i < j < 32 && Marked(m, j))
            && (x != 0 ==> var r := Bit2Idx(LeastBit(x));
            i < r < 32 && Marked(m, r) && forall j :: i < j < r ==> !Marked(m, j))
  {
    hide Bit, Bit2Idx, LeastBit, LeftBits, Shl, Shr, And;
    var x := ShiftedNext(Shr(m, i), i);
    forall j: nat
      ensures Bit(x, j) <==> i < j < 32 && Marked(m, j)
    {
      BitAnd(Shl(Shr(m, i), i), LeftBits(Idx2Bit(i)), j);
      LeftBitsOfIdx(i, j);
      ShrThenShl(m, i);
      Quotient(m, i);
      BitTimes(Shr(m, i), i, j);
      if j >= i { BitShr(m, i, j - i); }
    }
    LowestAbove(x, m, i);
  }

  lemma Quotient(m: word, i: nat)
    ensures Shr(m, i) == m / Pow2(i)
  {
  }

  /** A map is zero exactly when it marks nothing. */
  lemma EmptyMap(m: word)
    ensures m == 0 <==> forall j :: 0 <= j < 32 ==> !Marked(m, j)
  {
    hide Bit, LeastBit, Bit2Idx;
    if m == 0 {
      forall j | 0 <= j < 32
        ensures !Marked(m, j)
      {
        BitZero(j);
      }
    } else {
      LeastIsLowest(m);
    }
  }

  /** The low bits of the map shifted right by i are the marks of bins i and i + 1. */
  lemma ShiftedMarks(m: word, i: nat)
    requires i < 32
    ensures Bit(Shr(m, i), 0) <==> Marked(m, i)
    ensures Bit(Shr(m, i), 1) <==> i < 31 && Marked(m, i + 1)
    ensures Shr(m, i) != 0 <==> exists j :: i <= j < 32 && Marked(m, j)
  {
    hide Bit, Shr;
    BitShr(m, i, 0);
    BitShr(m, i, 1);
    Pow2At32();
    if i == 31 { BitAboveSize(32, m, 32); }
    EmptyMap(Shr(m, i));
    forall j: nat
      ensures Marked(Shr(m, i), j) <==> Marked(m, i + j)
    {
      BitShr(m, i, j);
    }
    forall j: nat | j >= 32
      ensures !Marked(m, j)
    {
      BitAboveSize(32, m, j);
    }
    if j :| i <= j < 32 && Marked(m, j) {
      assert Marked(Shr(m, i), j - i);
    }
  }
}
