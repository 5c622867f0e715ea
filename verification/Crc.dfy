/** The record check of xmodem_get_record: a polynomial remainder, taken in the low half of a 32-bit word. */
module Crc {

  /** x^16 + x^12 + x^5 + 1, without its highest term. */
  const POLY: bv16 := 0x1021

  // ---- the remainder register, one bit at a time ----

  predicate Top(c: bv16) { c & 0x8000 != 0 }

  function Twice(c: bv16): bv16 { c << 1 }

  function PolyIf(b: bool): bv16 { if b then POLY else 0 }

  /** Addition of polynomials over GF(2). */
  function Plus(a: bv16, b: bv16): bv16 { a ^ b }

  /** One bit of the message comes in; the register keeps message * x^16 modulo the polynomial. */
  function Step(c: bv16, b: bool): bv16 { Plus(Twice(c), PolyIf(Top(c) != b)) }

  function Feed(c: bv16, bits: seq<bool>): bv16
    decreases |bits|
  {
    if bits == [] then c else Feed(Step(c, bits[0]), bits[1..])
  }

  function Zeros(n: nat): seq<bool> { seq(n, _ => false) }

  function Differences(x: seq<bool>, y: seq<bool>): seq<bool>
    requires |x| == |y|
  {
    seq(|x|, i requires 0 <= i < |x| => x[i] != y[i])
  }

  lemma PlusLaws(a: bv16, b: bv16)
    ensures Plus(a, b) == Plus(b, a) && Plus(a, a) == 0 && Plus(a, 0) == a && (Plus(a, b) == 0 <==> a == b)
  {
  }

  lemma TwiceLinear(a: bv16, b: bv16)
    ensures Twice(Plus(a, b)) == Plus(Twice(a), Twice(b))
  {
  }

  lemma TopLinear(a: bv16, b: bv16)
    ensures Top(Plus(a, b)) == (Top(a) != Top(b))
  {
  }

  lemma PolyLinear(x: bool, y: bool)
    ensures PolyIf(x != y) == Plus(PolyIf(x), PolyIf(y))
  {
  }

  lemma Regroup(a: bv16, b: bv16, c: bv16)
    ensures Plus(Plus(a, b), c) == Plus(a, Plus(b, c)) && Plus(a, b) == Plus(b, a)
  {
  }

  lemma Exchange(a: bv16, b: bv16, c: bv16, d: bv16)
    ensures Plus(Plus(a, b), Plus(c, d)) == Plus(Plus(a, c), Plus(b, d))
  {
    hide *;
    Regroup(a, b, Plus(c, d));
    Regroup(b, c, d);
    Regroup(c, b, d);
    Regroup(a, c, Plus(b, d));
  }

  lemma StepIs(c: bv16, b: bool)
    ensures Step(c, b) == Plus(Twice(c), PolyIf(Top(c) != b))
  {
  }

  lemma StepLinear(a: bv16, b: bv16, x: bool, y: bool)
    ensures Step(Plus(a, b), x != y) == Plus(Step(a, x), Step(b, y))
  {
    hide *;
    TwiceLinear(a, b);
    TopLinear(a, b);
    PolyLinear(Top(a) != x, Top(b) != y);
    assert ((Top(a) != x) != (Top(b) != y)) == (Top(Plus(a, b)) != (x != y));
    StepIs(a, x);
    StepIs(b, y);
    StepIs(Plus(a, b), x != y);
    Exchange(Twice(a), Twice(b), PolyIf(Top(a) != x), PolyIf(Top(b) != y));
  }

  lemma FeedStep(c: bv16, bits: seq<bool>)
    ensures Feed(c, bits) == if bits == [] then c else Feed(Step(c, bits[0]), bits[1..])
  {
  }

  /** The remainder is linear. */
  lemma {:induction false} FeedLinear(a: bv16, b: bv16, x: seq<bool>, y: seq<bool>)
    requires |x| == |y|
    ensures Feed(Plus(a, b), Differences(x, y)) == Plus(Feed(a, x), Feed(b, y))
    decreases |x|
  {
    hide Step, Feed, Plus;
    FeedStep(a, x);
    FeedStep(b, y);
    FeedStep(Plus(a, b), Differences(x, y));
    if x != [] {
      StepLinear(a, b, x[0], y[0]);
      FeedLinear(Step(a, x[0]), Step(b, y[0]), x[1..], y[1..]);
      assert Differences(x, y)[1..] == Differences(x[1..], y[1..]);
    }
  }

  lemma {:induction false} FeedAppend(c: bv16, x: seq<bool>, y: seq<bool>)
    ensures Feed(c, x + y) == Feed(Feed(c, x), y)
    decreases |x|
  {
    hide Step, Feed;
    FeedStep(c, x);
    if x == [] {
      assert x + y == y;
    } else {
      FeedStep(c, x + y);
      assert (x + y)[1..] == x[1..] + y;
      FeedAppend(Step(c, x[0]), x[1..], y);
    }
  }

  lemma StepInvertible(c: bv16)
    ensures Step(c, false) == 0 <==> c == 0
  {
    if Top(c) { assert (c << 1) ^ 0x1021 != 0; } else { assert c << 1 == 0 <==> c == 0 || c == 0x8000; }
  }

  /** Zero bits never turn a non-zero remainder into zero, nor zero into another. */
  lemma {:induction false} ZerosInvertible(c: bv16, n: nat)
    ensures Feed(c, Zeros(n)) == 0 <==> c == 0
    decreases n
  {
    hide Step, Feed;
    FeedStep(c, Zeros(n));
    if n > 0 {
      StepInvertible(c);
      ZerosInvertible(Step(c, false), n - 1);
      assert Zeros(n)[1..] == Zeros(n - 1);
    }
  }

  // ---- several bits at once ----

  /** The n highest bits of r. */
  function TopBits(r: bv16, n: nat): (bits: seq<bool>)
    ensures |bits| == n
    decreases n
  {
    if n == 0 then [] else [Top(r)] + TopBits(Twice(r), n - 1)
  }

  function Shifted(r: bv16, n: nat): bv16
    decreases n
  {
    if n == 0 then r else Shifted(Twice(r), n - 1)
  }

  lemma StepShift(d: bv16, r: bv16)
    ensures Step(Plus(d, r), false) == Plus(Step(d, Top(r)), Twice(r))
  {
    hide *;
    StepLinear(d, r, Top(r), Top(r));
    assert (Top(r) != Top(r)) == false;
    StepAway(r);
  }

  lemma StepAway(r: bv16)
    ensures Step(r, Top(r)) == Twice(r)
  {
    hide Twice, Top, Plus;
    PlusLaws(Twice(r), 0);
  }

  lemma TopBitsStep(r: bv16, n: nat)
    requires n > 0
    ensures TopBits(r, n)[0] == Top(r) && TopBits(r, n)[1..] == TopBits(Twice(r), n - 1)
            && Shifted(r, n) == Shifted(Twice(r), n - 1)
    ensures Zeros(n) != [] && Zeros(n)[0] == false && Zeros(n)[1..] == Zeros(n - 1)
  {
    hide Twice, Top;
  }

  lemma NoBits(r: bv16)
    ensures TopBits(r, 0) == [] && Shifted(r, 0) == r && Zeros(0) == []
  {
  }

  /** Adding bits at the top of the register and then shifting is the same as feeding them one by one. */
  lemma {:induction false} FeedShift(d: bv16, r: bv16, n: nat)
    ensures Feed(Plus(d, r), Zeros(n)) == Plus(Feed(d, TopBits(r, n)), Shifted(r, n))
    decreases n
  {
    hide *;
    FeedStep(Plus(d, r), Zeros(n));
    FeedStep(d, TopBits(r, n));
    if n > 0 {
      TopBitsStep(r, n);
      StepShift(d, r);
      FeedShift(Step(d, Top(r)), Twice(r), n - 1);
    } else {
      NoBits(r);
    }
  }

  // ---- bursts ----

  /** The k low bits. */
  function LowMask(k: nat): bv16
    requires k <= 16
  {
    match k
    case 0 => 0 case 1 => 1 case 2 => 3 case 3 => 7 case 4 => 0xF case 5 => 0x1F case 6 => 0x3F case 7 => 0x7F
    case 8 => 0xFF case 9 => 0x1FF case 10 => 0x3FF case 11 => 0x7FF case 12 => 0xFFF case 13 => 0x1FFF
    case 14 => 0x3FFF case 15 => 0x7FFF case _ => 0xFFFF
  }

  function Both(x: bv16, y: bv16): bv16 { x & y }

  function Widened(m: bv16): bv16 { (m << 1) | 1 }

  predicate LowClear(c: bv16, k: nat)
    requires k <= 16
  {
    Both(c, LowMask(k)) == 0
  }

  lemma LowBits(k: nat)
    requires k < 16
    ensures LowMask(k + 1) == Widened(LowMask(k)) && !Top(LowMask(k)) && Both(LowMask(k + 1), 1) == 1
  {
    match k {
      case 0 => case 1 => case 2 => case 3 => case 4 => case 5 => case 6 => case 7 =>
      case 8 => case 9 => case 10 => case 11 => case 12 => case 13 => case 14 => case _ =>
    }
  }

  lemma MaskBack(c: bv16, m: bv16, p: bv16)
    requires m & 0x8000 == 0 && (p == 0 || p == 0x1021) && ((c << 1) ^ p) & ((m << 1) | 1) == 0
    ensures c & m == 0
  {
  }

  lemma MaskStep(c: bv16, b: bool, m: bv16)
    requires !Top(m) && Both(Step(c, b), Widened(m)) == 0
    ensures Both(c, m) == 0
  {
    if Top(c) != b { MaskBack(c, m, POLY); } else { MaskBack(c, m, 0); }
  }

  lemma StepBack(c: bv16, b: bool, k: nat)
    requires k < 16 && LowClear(Step(c, b), k + 1)
    ensures LowClear(c, k)
  {
    hide Step, LowMask, Both, Widened, Top;
    LowBits(k);
    MaskStep(c, b, LowMask(k));
  }

  /** n bits can only clear what lies in the n highest bits of the register. */
  lemma {:induction false} ClearedByFew(c: bv16, bits: seq<bool>)
    requires |bits| <= 16 && Feed(c, bits) == 0
    ensures LowClear(c, 16 - |bits|)
    decreases |bits|
  {
    hide Step, Feed, LowClear;
    FeedStep(c, bits);
    if bits == [] {
      ZeroClear();
    } else {
      ClearedByFew(Step(c, bits[0]), bits[1..]);
      StepBack(c, bits[0], 16 - |bits|);
    }
  }

  lemma ZeroClear()
    ensures LowClear(0, 16)
  {
  }

  lemma PolyNotClear(k: nat)
    requires 1 <= k <= 16
    ensures !LowClear(POLY, k)
  {
    hide LowMask, Both, Widened, Top;
    LowBits(k - 1);
    OddMask(LowMask(k));
  }

  lemma OddMask(m: bv16)
    requires Both(m, 1) == 1
    ensures Both(POLY, m) != 0
  {
  }

  lemma FirstOne()
    ensures Step(0, false) == 0 && Step(0, true) == POLY
  {
  }

  /** Sixteen bits that are not all zero leave a remainder. */
  lemma {:induction false} BurstRemains(w: seq<bool>)
    requires |w| <= 16 && true in w
    ensures Feed(0, w) != 0
    decreases |w|
  {
    hide Step, Feed, LowClear;
    FeedStep(0, w);
    FirstOne();
    if w[0] {
      if Feed(0, w) == 0 {
        ClearedByFew(POLY, w[1..]);
        PolyNotClear(16 - |w[1..]|);
      }
    } else {
      BurstRemains(w[1..]);
    }
  }

  /** x and y differ, and only in the sixteen bits from i on. */
  ghost predicate Burst(x: seq<bool>, y: seq<bool>, i: nat) {
    |x| == |y| && i + 16 <= |x| && x != y && x[..i] == y[..i] && x[i + 16..] == y[i + 16..]
  }

  /** A burst turns a message without remainder into one with a remainder. */
  lemma BurstChanges(x: seq<bool>, y: seq<bool>, i: nat)
    requires Burst(x, y, i) && Feed(0, x) == 0
    ensures Feed(0, y) != 0
  {
    hide Feed, Plus;
    var e := Differences(x, y);
    FeedLinear(0, 0, x, y);
    PlusLaws(0, 0);
    PlusLaws(Feed(0, y), 0);
    PlusLaws(0, Feed(0, y));
    var w := e[i..i + 16];
    BurstShape(x, y, i);
    FeedAppend(0, Zeros(i) + w, Zeros(|x| - i - 16));
    FeedAppend(0, Zeros(i), w);
    ZerosInvertible(0, i);
    ZerosInvertible(Feed(0, w), |x| - i - 16);
    BurstRemains(w);
  }

  lemma SameOutside(x: seq<bool>, y: seq<bool>, i: nat, k: nat)
    requires Burst(x, y, i) && k < |x| && !(i <= k < i + 16)
    ensures x[k] == y[k]
  {
    if k < i { assert x[..i][k] == y[..i][k]; } else { assert x[i + 16..][k - i - 16] == y[i + 16..][k - i - 16]; }
  }

  lemma ClearBefore(e: seq<bool>, n: nat)
    requires n <= |e| && forall k :: 0 <= k < n ==> !e[k]
    ensures e[..n] == Zeros(n)
  {
  }

  lemma ClearAfter(e: seq<bool>, n: nat)
    requires n <= |e| && forall k :: n <= k < |e| ==> !e[k]
    ensures e[n..] == Zeros(|e| - n)
  {
  }

  lemma DifferAt(x: seq<bool>, y: seq<bool>) returns (k: nat)
    requires |x| == |y| && x != y
    ensures k < |x| && x[k] != y[k]
  {
    k :| 0 <= k < |x| && x[k] != y[k];
  }

  lemma InSlice(e: seq<bool>, i: nat, n: nat, k: nat)
    requires i <= k < i + n <= |e| && e[k]
    ensures true in e[i..i + n]
  {
    assert e[i..i + n][k - i];
  }

  lemma ThreeParts(e: seq<bool>, i: nat, n: nat)
    requires i + n <= |e|
    ensures e == e[..i] + e[i..i + n] + e[i + n..]
  {
  }

  lemma BurstShape(x: seq<bool>, y: seq<bool>, i: nat)
    requires Burst(x, y, i)
    ensures Differences(x, y) == Zeros(i) + Differences(x, y)[i..i + 16] + Zeros(|x| - i - 16)
            && true in Differences(x, y)[i..i + 16]
  {
    var e := Differences(x, y);
    var k := DifferAt(x, y);
    forall k | 0 <= k < |x| && !(i <= k < i + 16)
      ensures !e[k]
    {
      SameOutside(x, y, i, k);
    }
    hide *;
    ClearBefore(e, i);
    ClearAfter(e, i + 16);
    ThreeParts(e, i, 16);
    InSlice(e, i, 16, k);
  }

  // ---- bytes, and the computation as it is done ----

  function Wide(b: bv8): bv16 { b as bv16 }

  function Up(w: bv16): bv16 { w << 8 }

  function Octet(b: bv8): bv16 { Up(Wide(b)) }

  function BitsOf(bs: seq<bv8>): seq<bool> { if bs == [] then [] else TopBits(Octet(bs[0]), 8) + BitsOf(bs[1..]) }

  /** The 16-bit remainder of a message. */
  function Checksum(bs: seq<bv8>): bv16 { Feed(0, BitsOf(bs)) }

  function Word(hi: bv8, lo: bv8): bv16 { Join(Up(Wide(hi)), Wide(lo)) }

  function Join(h: bv16, l: bv16): bv16 { h | l }

  function Low(c: bv32): bv16 { (c & 0xFFFF) as bv16 }

  function Step32(c: bv32): bv32 { if c & 0x8000 != 0 then (c << 1) ^ 0x1021 else c << 1 }

  lemma LowTwice(c: bv32)
    ensures Low(c << 1) == Twice(Low(c)) && Low((c << 1) ^ 0x1021) == Plus(Twice(Low(c)), POLY)
            && (c & 0x8000 != 0) == Top(Low(c))
  {
  }

  /** The 32-bit accumulator keeps the remainder in its low half, whatever is above. */
  lemma LowStep(c: bv32)
    ensures Low(Step32(c)) == Step(Low(c), false)
  {
    LowTwice(c);
    hide Low, Twice, Plus, Top;
    PlusLaws(Twice(Low(c)), 0);
  }

  lemma LowZero()
    ensures Low(0) == 0
  {
  }

  lemma LowOctet(c: bv32, b: bv8)
    ensures Low(c ^ ((b as bv32) << 8)) == Plus(Low(c), Octet(b))
  {
  }

  function HighByte(w: bv16): bv16 { w >> 8 }

  function LowByte(w: bv16): bv16 { w & 0xFF }

  /** The two comparisons with the bytes of the record. */
  predicate CheckMatches(c: bv32, hi: bv8, lo: bv8) { hi as bv32 == (c >> 8) & 0xFF && lo as bv32 == c & 0xFF }

  lemma HighMatches(c: bv32, hi: bv8)
    ensures hi as bv32 == ((c & 0xFFFF) >> 8) & 0xFF <==> Wide(hi) == HighByte(Low(c))
  {
  }

  lemma LowByteMatches(c: bv32, lo: bv8)
    ensures lo as bv32 == (c & 0xFFFF) & 0xFF <==> Wide(lo) == LowByte(Low(c))
  {
  }

  lemma Joined(w: bv16, hi: bv8, lo: bv8)
    requires Wide(hi) == HighByte(w) && Wide(lo) == LowByte(w)
    ensures w == Word(hi, lo)
  {
    hide Wide, Join, Up, HighByte, LowByte;
    JoinedHalves(w, Wide(hi), Wide(lo));
  }

  lemma JoinedHalves(w: bv16, h: bv16, l: bv16)
    requires h == HighByte(w) && l == LowByte(w)
    ensures w == Join(Up(h), l)
  {
  }

  lemma Parted(hi: bv8, lo: bv8)
    ensures Wide(hi) == HighByte(Word(hi, lo)) && Wide(lo) == LowByte(Word(hi, lo))
  {
  }

  lemma CheckIs(c: bv32, hi: bv8, lo: bv8)
    ensures CheckMatches(c & 0xFFFF, hi, lo) <==> Wide(hi) == HighByte(Low(c)) && Wide(lo) == LowByte(Low(c))
  {
    HighMatches(c, hi);
    LowByteMatches(c, lo);
    hide Wide, HighByte, LowByte, Low;
  }

  /** Both bytes of the check match exactly if the low half of the accumulator is the word they make. */
  lemma LowMatches(c: bv32, hi: bv8, lo: bv8)
    ensures CheckMatches(c & 0xFFFF, hi, lo) <==> Low(c) == Word(hi, lo)
  {
    hide *;
    CheckIs(c, hi, lo);
    Parted(hi, lo);
    if Wide(hi) == HighByte(Low(c)) && Wide(lo) == LowByte(Low(c)) {
      Joined(Low(c), hi, lo);
    }
  }

  // ---- accepting is having no remainder ----

  /** Eight shifts. */
  function Eight(r: bv16): bv16 { Twice(Twice(Twice(Twice(Twice(Twice(Twice(Twice(r)))))))) }

  lemma ShiftedEight(r: bv16)
    ensures Shifted(r, 8) == Eight(r)
  {
    hide *;
    var r1 := Twice(r);
    var r2 := Twice(r1);
    var r3 := Twice(r2);
    var r4 := Twice(r3);
    var r5 := Twice(r4);
    var r6 := Twice(r5);
    var r7 := Twice(r6);
    ShiftedStep(r, 8);
    ShiftedStep(r1, 7);
    ShiftedStep(r2, 6);
    ShiftedStep(r3, 5);
    ShiftedStep(r4, 4);
    ShiftedStep(r5, 3);
    ShiftedStep(r6, 2);
    ShiftedStep(r7, 1);
    NoBits(Twice(r7));
    EightIs(r);
  }

  lemma ShiftedStep(r: bv16, n: nat)
    requires n > 0
    ensures Shifted(r, n) == Shifted(Twice(r), n - 1)
  {
    hide Twice;
  }

  /** The n highest bits of w are zero. */
  predicate HighClear(w: bv16, n: nat)
    decreases n
  {
    n == 0 || (!Top(w) && HighClear(Twice(w), n - 1))
  }

  lemma {:induction false} HighZeros(w: bv16, n: nat)
    requires HighClear(w, n)
    ensures TopBits(w, n) == Zeros(n)
    decreases n
  {
    hide Top, Twice;
    if n > 0 {
      HighZeros(Twice(w), n - 1);
      assert Zeros(n) == [false] + Zeros(n - 1);
    }
  }

  lemma HighStep(w: bv16, n: nat)
    requires n > 0
    ensures HighClear(w, n) <==> !Top(w) && HighClear(Twice(w), n - 1)
    ensures HighClear(w, 0)
  {
    hide Top, Twice;
  }

  lemma ByteClear(b: bv8)
    ensures HighClear(Wide(b), 8)
  {
    hide *;
    WideIsLow(b);
    var w := Wide(b);
    TopsOfByte(w);
    var w1 := Twice(w);
    var w2 := Twice(w1);
    var w3 := Twice(w2);
    var w4 := Twice(w3);
    var w5 := Twice(w4);
    var w6 := Twice(w5);
    var w7 := Twice(w6);
    HighStep(w, 8);
    HighStep(w1, 7);
    HighStep(w2, 6);
    HighStep(w3, 5);
    HighStep(w4, 4);
    HighStep(w5, 3);
    HighStep(w6, 2);
    HighStep(w7, 1);
    HighStep(Twice(w7), 1);
  }

  lemma EightIs(r: bv16)
    ensures Eight(r) == Twice(Twice(Twice(Twice(Twice(Twice(Twice(Twice(r))))))))
  {
    hide Twice;
  }

  lemma EightOfByte(b: bv8)
    ensures Eight(Wide(b)) == Octet(b) && Eight(Octet(b)) == 0
  {
  }

  lemma TopsOfByte(w: bv16)
    requires w & 0xFF00 == 0
    ensures !Top(w) && !Top(Twice(w)) && !Top(Twice(Twice(w))) && !Top(Twice(Twice(Twice(w))))
    ensures !Top(Twice(Twice(Twice(Twice(w))))) && !Top(Twice(Twice(Twice(Twice(Twice(w))))))
    ensures !Top(Twice(Twice(Twice(Twice(Twice(Twice(w)))))))
            && !Top(Twice(Twice(Twice(Twice(Twice(Twice(Twice(w))))))))
  {
  }

  lemma WideIsLow(b: bv8)
    ensures Wide(b) & 0xFF00 == 0
  {
  }

  /** XORing a byte to the high half and shifting eight times is feeding its bits. */
  lemma OctetStep(c: bv16, b: bv8)
    ensures Feed(Plus(c, Octet(b)), Zeros(8)) == Feed(c, TopBits(Octet(b), 8))
  {
    hide *;
    FeedShift(c, Octet(b), 8);
    ShiftedEight(Octet(b));
    EightOfByte(b);
    PlusLaws(Feed(c, TopBits(Octet(b), 8)), 0);
  }

  /** Eight zero bits shift a low byte up. */
  lemma WideStep(b: bv8)
    ensures Feed(Wide(b), Zeros(8)) == Octet(b)
  {
    hide *;
    FeedShift(0, Wide(b), 8);
    ShiftedEight(Wide(b));
    EightOfByte(b);
    ByteClear(b);
    HighZeros(Wide(b), 8);
    ZerosInvertible(0, 8);
    PlusLaws(0, Wide(b));
    PlusLaws(Wide(b), 0);
    PlusLaws(0, Octet(b));
    PlusLaws(Octet(b), 0);
  }

  lemma ZerosInjective(a: bv16, b: bv16, n: nat)
    ensures Feed(a, Zeros(n)) == Feed(b, Zeros(n)) <==> a == b
  {
    hide Feed, Plus;
    FeedLinear(a, b, Zeros(n), Zeros(n));
    assert Differences(Zeros(n), Zeros(n)) == Zeros(n);
    ZerosInvertible(Plus(a, b), n);
    PlusLaws(a, b);
    PlusLaws(Feed(a, Zeros(n)), Feed(b, Zeros(n)));
  }

  lemma WordSum(c: bv16, hi: bv8, lo: bv8)
    ensures Plus(c, Octet(hi)) == Wide(lo) <==> c == Word(hi, lo)
  {
    WideIsLow(lo);
    hide Wide, Plus, Up, Join;
    WordSumBits(c, Wide(hi), Wide(lo));
  }

  lemma WordSumBits(c: bv16, h: bv16, l: bv16)
    requires l & 0xFF00 == 0
    ensures Plus(c, Up(h)) == l <==> c == Join(Up(h), l)
  {
    hide *;
    JoinIsPlus(h, l);
    PlusMove(c, Up(h), l);
  }

  lemma JoinIsPlus(h: bv16, l: bv16)
    requires l & 0xFF00 == 0
    ensures Join(Up(h), l) == Plus(Up(h), l)
  {
  }

  lemma PlusMove(c: bv16, u: bv16, l: bv16)
    ensures Plus(c, u) == l <==> c == Plus(u, l)
  {
    hide *;
    Cancel(c, u);
    Cancel(l, u);
    PlusLaws(u, l);
  }

  lemma Cancel(c: bv16, u: bv16)
    ensures Plus(Plus(c, u), u) == c
  {
  }

  /** The check of a record: its two last bytes are the remainder of what precedes them exactly if the whole has
      none. */
  lemma CheckedIff(c: bv16, hi: bv8, lo: bv8)
    ensures c == Word(hi, lo) <==> Feed(c, TopBits(Octet(hi), 8) + TopBits(Octet(lo), 8)) == 0
  {
    hide *;
    FeedAppend(c, TopBits(Octet(hi), 8), TopBits(Octet(lo), 8));
    OctetStep(c, hi);
    var d := Feed(Plus(c, Octet(hi)), Zeros(8));
    OctetStep(d, lo);
    ZerosInvertible(Plus(d, Octet(lo)), 8);
    PlusLaws(d, Octet(lo));
    WideStep(lo);
    ZerosInjective(Plus(c, Octet(hi)), Wide(lo), 8);
    WordSum(c, hi, lo);
  }

  lemma BitsStep(bs: seq<bv8>)
    ensures BitsOf(bs) == if bs == [] then [] else TopBits(Octet(bs[0]), 8) + BitsOf(bs[1..])
  {
    hide TopBits, Octet;
  }

  lemma {:induction false} BitsAppend(x: seq<bv8>, y: seq<bv8>)
    ensures BitsOf(x + y) == BitsOf(x) + BitsOf(y)
  {
    hide *;
    BitsStep(x);
    if x == [] {
      assert x + y == y;
    } else {
      BitsAppend(x[1..], y);
      BitsStep(x + y);
      assert (x + y)[1..] == x[1..] + y;
      var first := TopBits(Octet(x[0]), 8);
      assert first + (BitsOf(x[1..]) + BitsOf(y)) == (first + BitsOf(x[1..])) + BitsOf(y);
    }
  }

  lemma BitsOfTwo(hi: bv8, lo: bv8)
    ensures BitsOf([hi, lo]) == TopBits(Octet(hi), 8) + TopBits(Octet(lo), 8)
  {
    hide TopBits, Octet;
    assert [hi, lo][1..] == [lo] && [lo][1..] == [];
    assert BitsOf([lo]) == TopBits(Octet(lo), 8) + [];
  }

  /** A payload with its check is accepted exactly if together they have no remainder. */
  lemma AcceptedIff(payload: seq<bv8>, hi: bv8, lo: bv8)
    ensures Checksum(payload) == Word(hi, lo) <==> Feed(0, BitsOf(payload + [hi, lo])) == 0
  {
    hide Feed, BitsOf, TopBits, Octet, Word;
    BitsAppend(payload, [hi, lo]);
    BitsOfTwo(hi, lo);
    FeedAppend(0, BitsOf(payload), BitsOf([hi, lo]));
    CheckedIff(Checksum(payload), hi, lo);
  }

  /** A record that differs from an accepted one in a burst of at most sixteen bits of payload and check is refused. */
  lemma BurstDetected(payload: seq<bv8>, hi: bv8, lo: bv8, payload': seq<bv8>, hi': bv8, lo': bv8, i: nat)
    requires Checksum(payload) == Word(hi, lo) && Burst(BitsOf(payload + [hi, lo]), BitsOf(payload' + [hi', lo']), i)
    ensures Checksum(payload') != Word(hi', lo')
  {
    hide *;
    AcceptedIff(payload, hi, lo);
    AcceptedIff(payload', hi', lo');
    BurstChanges(BitsOf(payload + [hi, lo]), BitsOf(payload' + [hi', lo']), i);
  }

  /** One shift of the 32-bit accumulator among several. */
  lemma ShiftOnce(c: bv32, n: nat)
    requires n > 0
    ensures Feed(Low(c), Zeros(n)) == Feed(Low(Step32(c)), Zeros(n - 1))
  {
    hide *;
    LowStep(c);
    FeedStep(Low(c), Zeros(n));
    TopBitsStep(0, n);
  }

  lemma ShiftNone(c: bv16)
    ensures Feed(c, Zeros(0)) == c
  {
  }

  /** One more byte of the message. */
  lemma ChecksumNext(bs: seq<bv8>, b: bv8)
    ensures Checksum(bs + [b]) == Feed(Plus(Checksum(bs), Octet(b)), Zeros(8)) && Checksum([]) == 0
  {
    OctetStep(Checksum(bs), b);
    BitsAppend(bs, [b]);
    assert BitsOf([b]) == TopBits(Octet(b), 8) by {
      BitsStep([b]);
      BitsStep([b][1..]);
      hide *;
      assert [b][1..] == [];
      assert TopBits(Octet(b), 8) + [] == TopBits(Octet(b), 8);
    }
    hide Feed, BitsOf, TopBits, Plus, Octet;
    FeedAppend(0, BitsOf(bs), TopBits(Octet(b), 8));
    NoMessage();
  }

  lemma NoMessage()
    ensures Feed(0, BitsOf([])) == 0
  {
  }

  /** Sixteen is the limit: the generator itself is a burst of seventeen bits without remainder. */
  lemma SeventeenBitsMissed()
    ensures Feed(0, [true] + TopBits(POLY, 16)) == 0
  {
    hide Feed, Plus, Step, TopBits, Shifted, Eight;
    FeedStep(0, [true] + TopBits(POLY, 16));
    assert ([true] + TopBits(POLY, 16))[1..] == TopBits(POLY, 16);
    FirstOne();
    FeedShift(POLY, POLY, 16);
    PlusLaws(POLY, POLY);
    ZerosInvertible(0, 16);
    PolyGone();
    PlusLaws(Feed(POLY, TopBits(POLY, 16)), 0);
  }

  lemma PolyGone()
    ensures Shifted(POLY, 16) == 0
  {
    ShiftedMore(POLY, 8, 8);
    ShiftedEight(POLY);
    ShiftedEight(Eight(POLY));
    hide Shifted;
  }

  lemma {:induction false} ShiftedMore(r: bv16, n: nat, m: nat)
    ensures Shifted(r, n + m) == Shifted(Shifted(r, n), m)
    decreases n
  {
    hide Twice;
    if n > 0 { ShiftedMore(Twice(r), n - 1, m); }
  }
}
