/** Masks of low bits. */
module Masks {
  import opened Bytes
  import opened Words
  import opened BinMaps

  /** x & (2^k - 1). */
  lemma {:induction false} AndMask(x: nat, k: nat)
    ensures And(x, Pow2(k) - 1) == x % Pow2(k)
  {
    if k == 0 {
    } else if x == 0 {
    } else {
      AndMask(x / 2, k - 1);
      var p := Pow2(k - 1);
      assert Pow2(k) - 1 == 2 * (p - 1) + 1;
      HalfMod(x, p);
    }
  }

  lemma HalfMod(x: nat, p: nat)
    requires p >= 1
    ensures x % (2 * p) == 2 * (x / 2 % p) + x % 2
  {
    var h := x / 2;
    var q, r := h / p, h % p;
    assert h == q * p + r;
    assert x == 2 * h + x % 2;
    assert x == q * (2 * p) + (2 * r + x % 2);
    DivUnique(x, 2 * p, q, 2 * r + x % 2);
  }

  /** The bits under a mask and those outside it make up the word. */
  lemma {:induction false} AndSplit(x: nat, m: nat, n: nat)
    requires x < Pow2(n) && m < Pow2(n)
    ensures And(x, m) + And(x, Pow2(n) - 1 - m) == x
  {
    hide And;
    AndHalf(x, m);
    AndHalf(x, Pow2(n) - 1 - m);
    if n == 0 {
      AndNone(m);
    } else {
      AndSplit(x / 2, m / 2, n - 1);
      assert (Pow2(n) - 1 - m) / 2 == Pow2(n - 1) - 1 - m / 2 && (Pow2(n) - 1 - m) % 2 == 1 - m % 2;
    }
  }

  lemma AndNone(y: nat)
    ensures And(0, y) == 0
  {
  }

  lemma AndHalf(x: nat, y: nat)
    ensures And(x, y) == 2 * And(x / 2, y / 2) + (x % 2) * (y % 2)
  {
  }

  /** x & ~(2^k - 1). */
  lemma AlignedDown(x: word, k: nat)
    requires k <= 32
    ensures Pow2(k) - 1 < TWO_32 && And(x, Not(Pow2(k) - 1)) == x - x % Pow2(k)
  {
    hide And, Pow2;
    Pow2At32();
    if k < 32 { Pow2Monotone(k, 32); }
    AndMask(x, k);
    AndSplit(x, Pow2(k) - 1, 32);
  }
}
