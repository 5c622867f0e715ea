/** The shifted sizes that steer dlmalloc's trie walks, and the size range of each tree bin. */
module TrieKeys {
  import opened Bytes
  import opened Words
  import opened BinMaps
  import opened TreeIndex

  /** leftshift_for_tree_index: moves the first deciding bit of a size in bin i to the sign bit. */
  function LeftShift(i: nat): nat
    requires i < NTREEBINS
  {
    if i == NTREEBINS - 1 then 0 else 31 - (i / 2 + TREEBIN_SHIFT - 2)
  }

  /** The sizes of bin i lie in [BinLow(i), BinLow(i) + 2^BinBits(i)). */
  function BinLow(i: nat): nat {
    if i == NTREEBINS - 1 then 0 else MinSize(i)
  }

  function BinBits(i: nat): nat {
    if i == NTREEBINS - 1 then 32 else i / 2 + 7
  }

  /** The bits of s below 2^w, at the top of the word. */
  function Key(s: nat, lo: nat, w: nat): nat
    requires lo <= s && w <= 32
  {
    (s - lo) * Pow2(32 - w)
  }

  /** The sign bit picks the child. */
  predicate GoesRight(k: word) { Bit(Shr(k, 31), 0) }

  ghost predicate InBin(s: nat, i: nat) {
    256 <= s < TWO_32 && ComputeTreeIndex(s) == i
  }

  lemma BinRange(s: nat, i: nat)
    requires InBin(s, i)
    ensures i < NTREEBINS && BinLow(i) <= s < BinLow(i) + Pow2(BinBits(i))
  {
    hide ComputeTreeIndex, MinSize;
    IndexBracketsSize(s);
    Pow2At32();
    if i < NTREEBINS - 1 {
      MinSizeSum(i);
      MinSizeSum(i + 1);
    }
  }

  lemma MulBelow(a: nat, b: nat, m: nat)
    requires a < b && m >= 1
    ensures a * m < b * m && a * m + m <= b * m
  {
    Distribute(a, 1, m);
    MulMonotone(m, a + 1, b);
  }

  lemma KeyBound(s: nat, lo: nat, w: nat)
    requires lo <= s < lo + Pow2(w) && w <= 32
    ensures Key(s, lo, w) < TWO_32
  {
    Pow2At32();
    Pow2Add(w, 32 - w);
    hide Pow2;
    MulBelow(s - lo, Pow2(w), Pow2(32 - w));
  }

  lemma HalfStep(d: nat, h: nat, m: nat)
    requires h * m == 0x8000_0000 && m >= 1
    ensures if d >= h then d * m >= 0x8000_0000 && (d - h) * (2 * m) == 2 * (d * m) - TWO_32
            else d * m < 0x8000_0000 && d * (2 * m) == 2 * (d * m)
  {
    if d >= h {
      MulMonotone(m, h, d);
      assert (d - h) * (2 * m) == 2 * ((d - h) * m);
      assert (d - h) * m == d * m - h * m;
    } else {
      MulBelow(d, h, m);
    }
  }

  lemma TopBits(k: word)
    ensures GoesRight(k) <==> k >= 0x8000_0000
    ensures Shl(k, 1) == if k >= 0x8000_0000 then 2 * k - TWO_32 else 2 * k
  {
    Pow2At32();
    assert 2 * Pow2(31) == TWO_32;
    assert Pow2(1) == 2;
    assert Shr(k, 31) == if k >= 0x8000_0000 then 1 else 0;
  }

  /** One step down: the sign bit tells the half, and the doubled key belongs to that half. */
  lemma KeyStep(s: nat, lo: nat, w: nat)
    requires lo <= s < lo + Pow2(w) && 0 < w <= 32
    ensures Key(s, lo, w) < TWO_32
    ensures GoesRight(Key(s, lo, w)) <==> s >= lo + Pow2(w - 1)
    ensures Shl(Key(s, lo, w), 1) == Key(s, if s >= lo + Pow2(w - 1) then lo + Pow2(w - 1) else lo, w - 1)
  {
    hide Shl, Shr, GoesRight;
    KeyBound(s, lo, w);
    Pow2At32();
    Pow2Add(w - 1, 32 - w);
    assert 2 * Pow2(31) == TWO_32;
    assert Pow2(33 - w) == 2 * Pow2(32 - w);
    HalfStep(s - lo, Pow2(w - 1), Pow2(32 - w));
    TopBits(Key(s, lo, w));
  }

  /** The initial shift yields the key of the bin's range. */
  lemma KeyStart(s: nat, i: nat)
    requires InBin(s, i)
    ensures i < NTREEBINS && BinLow(i) <= s && Shl(s, LeftShift(i)) == Key(s, BinLow(i), BinBits(i))
  {
    hide ComputeTreeIndex, MinSize;
    BinRange(s, i);
    Pow2At32();
    var w := BinBits(i);
    KeyBound(s, BinLow(i), w);
    if i < NTREEBINS - 1 {
      assert LeftShift(i) == 32 - w;
      MinSizeSum(i);
      var q := if i % 2 == 1 then 3 else 2;
      assert MinSize(i) == q * Pow2(w);
      Pow2Add(w, 32 - w);
      SplitProduct(s, q, Pow2(w), Pow2(32 - w));
    } else {
      assert Pow2(0) == 1;
    }
  }

  lemma SplitProduct(s: nat, q: nat, p: nat, m: nat)
    requires p * m == TWO_32 && q * p <= s && (s - q * p) * m < TWO_32
    ensures s * m % TWO_32 == (s - q * p) * m
  {
    var a := q * p;
    Distribute(s - a, a, m);
    Assoc(q, p, m);
    ModMultiple((s - a) * m, q);
  }
}
