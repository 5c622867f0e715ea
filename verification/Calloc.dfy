/** The multiplication in dlcalloc. */
module Calloc {
  import opened Bytes
  import opened Words
  import opened BinMaps

  function Product(n: word, size: word): word { (n * size) % TWO_32 }

  /** The request dlcalloc passes to dlmalloc. */
  function CallocRequest(n: word, size: word): word {
    if n == 0 then 0
    else
      var req := Product(n, size);
      if And(Or(n, size), Not(0xFFFF)) != 0 && req / n != size then MAX_SIZE_T else req
  }

  lemma {:induction false} OrAtLeast(x: nat, y: nat)
    ensures Or(x, y) >= x && Or(x, y) >= y
  {
    if x != 0 && y != 0 { OrAtLeast(x / 2, y / 2); }
  }

  /** A word without bits from k up is below 2^k. */
  lemma {:induction false} NoHighBits(n: nat, k: nat, x: nat)
    requires k <= n && x < Pow2(n)
    ensures Pow2(k) <= Pow2(n)
    ensures And(x, Pow2(n) - Pow2(k)) == 0 ==> x < Pow2(k)
  {
    if k == 0 {
      AndOnes(n, x);
    } else {
      NoHighBits(n - 1, k - 1, x / 2);
      assert (Pow2(n) - Pow2(k)) / 2 == Pow2(n - 1) - Pow2(k - 1);
    }
  }

  lemma {:induction false} AndOnes(n: nat, x: nat)
    requires x < Pow2(n)
    ensures And(x, Pow2(n) - 1) == x
  {
    if n > 0 {
      assert (Pow2(n) - 1) / 2 == Pow2(n - 1) - 1;
      AndOnes(n - 1, x / 2);
    }
  }

  lemma SmallFactors(n: word, size: word)
    ensures And(Or(n, size), Not(0xFFFF)) == 0 ==> n * size < TWO_32
  {
    Pow2At32();
    assert Pow2(16) == 0x1_0000 by { assert Pow2(8) == 256; }
    OrWord(n, size);
    OrAtLeast(n, size);
    NoHighBits(32, 16, Or(n, size));
    hide And, Or, Pow2;
    if n < 0x1_0000 && size < 0x1_0000 {
      MulMonotone(n, size, 0xFFFF);
      MulMonotone(0xFFFF, n, 0xFFFF);
    }
  }

  lemma ProductQuotient(n: word, size: word)
    requires n > 0
    ensures n * size < TWO_32 ==> Product(n, size) == n * size && Product(n, size) / n == size
    ensures n * size >= TWO_32 ==> Product(n, size) / n < size
  {
    var p := n * size;
    if p < TWO_32 {
      DivUnique(p, n, size, 0);
    } else {
      var r := Product(n, size);
      var q := r / n;
      assert r < p;
      assert n * q <= r;
      MulMonotone(n, size, q);
    }
  }

  /** dlcalloc never asks for less than n * size bytes: a product that does not fit becomes a request that fails. */
  lemma NeverShort(n: word, size: word)
    ensures CallocRequest(n, size) == if n * size < TWO_32 then n * size else MAX_SIZE_T
  {
    hide Product, And, Or;
    SmallFactors(n, size);
    if n > 0 { ProductQuotient(n, size); }
  }
}
