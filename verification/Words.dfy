/** 32-bit unsigned words as integers below 2^32, with C's bitwise operators. */
module Words {
  import opened Bytes

  type word = x: int | 0 <= x < TWO_32

  const MAX_SIZE_T: word := 0xFFFF_FFFF

  /** A stretch of memory, from first up to last. */
  datatype Region = Region(first: int, last: int)

  function Pow2(n: nat): (p: nat)
    ensures p >= 1
  {
    if n == 0 then 1 else 2 * Pow2(n - 1)
  }

  /** Bit i of x. */
  predicate Bit(x: nat, i: nat) {
    if i == 0 then x % 2 == 1 else Bit(x / 2, i - 1)
  }

  function And(x: nat, y: nat): nat {
    if x == 0 || y == 0 then 0 else 2 * And(x / 2, y / 2) + (x % 2) * (y % 2)
  }

  function Or(x: nat, y: nat): nat {
    if x == 0 then y else if y == 0 then x
    else 2 * Or(x / 2, y / 2) + if x % 2 == 1 || y % 2 == 1 then 1 else 0
  }

  function Not(x: word): word { TWO_32 - 1 - x }

  /** Unsigned subtraction and negation wrap around. */
  function Sub(x: word, y: word): word { (x - y) % TWO_32 }

  function Neg(x: word): word { (TWO_32 - x) % TWO_32 }

  function Shl(x: word, n: nat): word { x * Pow2(n) % TWO_32 }

  function Shr(x: word, n: nat): word {
    DivSmaller(x, Pow2(n));
    x / Pow2(n)
  }

  lemma DivSmaller(x: nat, p: nat)
    requires p >= 1
    ensures 0 <= x / p <= x
  {
  }

  lemma Assoc(a: int, b: int, c: int)
    ensures (a * b) * c == a * (b * c)
  {
  }

  lemma TwiceProduct(a: int, b: int)
    ensures (2 * a) * b == 2 * (a * b)
  {
  }

  lemma Distribute(a: int, b: int, m: int)
    ensures (a + b) * m == a * m + b * m
  {
  }

  lemma ModMultiple(x: nat, q: nat)
    requires x < TWO_32
    ensures (x + q * TWO_32) % TWO_32 == x
  {
  }

  lemma Halve(g: nat, b: nat)
    requires b < 2
    ensures (2 * g + b) / 2 == g && (2 * g + b) % 2 == b
  {
  }

  lemma Eighth(q: nat, f: nat)
    requires f < 8
    ensures (8 * q + f) / 8 == q && (8 * q + f) % 8 == f
  {
  }

  /** Rounded up to a multiple of 8, a number stays below every multiple of 8 above it. */
  lemma BelowMultiple(x: nat, a: nat, d: nat)
    requires a % 8 == 0 && d % 8 == 0 && x <= d && a < x + 8
    ensures a <= d
  {
    assert a == 8 * (a / 8) && d == 8 * (d / 8);
  }

  // ---- single bits ----

  lemma {:induction false} BitAnd(x: nat, y: nat, i: nat)
    ensures Bit(And(x, y), i) <==> Bit(x, i) && Bit(y, i)
  {
    if x == 0 {
      BitZero(i);
    } else if y == 0 {
      BitZero(i);
    } else if i > 0 {
      BitAnd(x / 2, y / 2, i - 1);
    }
  }

  lemma {:induction false} BitOr(x: nat, y: nat, i: nat)
    ensures Bit(Or(x, y), i) <==> Bit(x, i) || Bit(y, i)
  {
    if x == 0 || y == 0 {
      BitZero(i);
    } else if i > 0 {
      BitOr(x / 2, y / 2, i - 1);
    }
  }

  lemma {:induction false} BitZero(i: nat)
    ensures !Bit(0, i)
  {
    if i > 0 { BitZero(i - 1); }
  }

  lemma {:induction false} BitComplement(n: nat, x: nat, i: nat)
    requires x < Pow2(n)
    ensures Bit(Pow2(n) - 1 - x, i) <==> i < n && !Bit(x, i)
  {
    if n == 0 {
      BitZero(i);
    } else if i > 0 {
      assert (Pow2(n) - 1 - x) / 2 == Pow2(n - 1) - 1 - x / 2;
      BitComplement(n - 1, x / 2, i - 1);
    }
  }

  lemma {:induction false} BitPow2(k: nat, i: nat)
    ensures Bit(Pow2(k), i) <==> i == k
  {
    if k == 0 {
      if i > 0 { BitZero(i - 1); }
    } else if i > 0 {
      BitPow2(k - 1, i - 1);
    }
  }

  /** 2^n - 2^k has exactly the bits from k up to n set. */
  lemma {:induction false} BitRun(n: nat, k: nat, i: nat)
    requires k <= n
    ensures Pow2(k) <= Pow2(n)
    ensures Bit(Pow2(n) - Pow2(k), i) <==> k <= i < n
  {
    if k == 0 {
      BitComplement(n, 0, i);
      BitZero(i);
    } else {
      BitRun(n - 1, k - 1, if i == 0 then 0 else i - 1);
      assert (Pow2(n) - Pow2(k)) / 2 == Pow2(n - 1) - Pow2(k - 1);
    }
  }

  lemma {:induction false} BitAboveSize(n: nat, x: nat, i: nat)
    requires x < Pow2(n) && n <= i
    ensures !Bit(x, i)
  {
    if n == 0 {
      BitZero(i);
    } else {
      BitAboveSize(n - 1, x / 2, i - 1);
    }
  }

  lemma Pow2At32()
    ensures Pow2(32) == TWO_32
  {
    assert Pow2(8) == 256 by { assert Pow2(4) == 16; }
    assert Pow2(16) == 65536 by { assert Pow2(12) == 4096; }
    assert Pow2(24) == 16777216 by { assert Pow2(20) == 1048576; }
    assert Pow2(28) == 268435456;
  }

  lemma {:induction false} Pow2Monotone(i: nat, j: nat)
    requires i < j
    ensures 2 * Pow2(i) <= Pow2(j)
  {
    if i < j - 1 { Pow2Monotone(i, j - 1); }
  }

  lemma {:induction false} Pow2Add(i: nat, j: nat)
    ensures Pow2(i) * Pow2(j) == Pow2(i + j)
  {
    Pow2Step(i);
    Pow2Step(i + j);
    hide Pow2;
    if i > 0 {
      Pow2Add(i - 1, j);
      TwiceProduct(Pow2(i - 1), Pow2(j));
    }
  }

  lemma Pow2Step(i: nat)
    ensures Pow2(i) == if i == 0 then 1 else 2 * Pow2(i - 1)
  {
  }

  // ---- the lowest set bit ----

  /** Position of the lowest bit set in x. */
  function Low(x: nat): nat
    requires x > 0
  {
    if x % 2 == 1 then 0 else Low(x / 2) + 1
  }

  lemma {:induction false} LowIsLowest(x: nat, n: nat)
    requires 0 < x < Pow2(n)
    ensures Low(x) < n && Bit(x, Low(x))
    ensures forall j :: 0 <= j < Low(x) ==> !Bit(x, j)
  {
    if x % 2 == 0 {
      LowIsLowest(x / 2, n - 1);
      forall j | 0 <= j < Low(x)
        ensures !Bit(x, j)
      {
        assert j > 0 ==> !Bit(x / 2, j - 1);
      }
    }
  }

  lemma {:induction false} AndComplement(n: nat, x: nat)
    requires x < Pow2(n)
    ensures And(x, Pow2(n) - 1 - x) == 0
  {
    if n > 0 {
      assert (Pow2(n) - 1 - x) / 2 == Pow2(n - 1) - 1 - x / 2;
      AndComplement(n - 1, x / 2);
    }
  }

  /** x & -x is the lowest bit of x. */
  lemma {:induction false} AndNegated(n: nat, x: nat)
    requires 0 < x < Pow2(n)
    ensures And(x, Pow2(n) - x) == Pow2(Low(x))
  {
    var y := Pow2(n) - x;
    if x % 2 == 0 {
      assert y / 2 == Pow2(n - 1) - x / 2;
      AndNegated(n - 1, x / 2);
    } else {
      assert y / 2 == Pow2(n - 1) - 1 - x / 2;
      AndComplement(n - 1, x / 2);
    }
  }
}
