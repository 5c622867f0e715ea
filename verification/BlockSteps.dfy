/** What freeing, taking and splitting do to one block list and to the blocks callers hold in it. */
module BlockSteps {
  import opened Bytes
  import opened Words
  import opened BlockLists

  /** The block at a belongs to a caller. */
  ghost predicate Taken(mem: Memory, list: seq<int>, a: int) {
    a in list && (|list| > 0 ==> a != list[0] && a != list[|list| - 1]) && !IsFree(mem, a)
  }

  ghost predicate FreeBlock(mem: Memory, list: seq<int>, a: int) { a in list && IsFree(mem, a) }

  /** The block at a is still there, with the same size and the same payload. */
  ghost predicate Undisturbed(mem: Memory, m: Memory, l: seq<int>, a: int) {
    Taken(m, l, a) && Next(m, a) == Next(mem, a)
        && forall x :: a + 8 <= x < Next(mem, a) ==> WordAt(m, x) == WordAt(mem, x)
  }

  /** Every caller's block other than ptr is undisturbed, and nothing but ptr's status changed. */
  ghost predicate OthersKept(mem: Memory, list: seq<int>, m: Memory, l: seq<int>, ptr: int) {
    && (forall a :: Taken(mem, list, a) && a != ptr ==> Undisturbed(mem, m, l, a))
    && (forall a :: Taken(m, l, a) && a != ptr ==> Taken(mem, list, a))
  }

  /** Nothing outside the region was written. */
  ghost predicate Inside(mem: Memory, m: Memory, r: Region) {
    forall x :: x < r.first || r.last <= x ==> WordAt(m, x) == WordAt(mem, x)
  }

  /** Inner blocks, found by address. */
  lemma IndexOf(mem: Memory, list: seq<int>, r: Region, a: int) returns (i: nat)
    requires Linked(mem, list, r) && a in list
    ensures i < |list| && list[i] == a && a % 8 == 0 && r.first <= a && a + 8 <= r.last
    ensures (a != list[0] <==> i > 0) && (a != list[|list| - 1] <==> i < |list| - 1)
  {
    i :| 0 <= i < |list| && list[i] == a;
    LinkedAt(mem, list, r, i);
    InOrder(mem, list, r, 0, i);
    InOrder(mem, list, r, i, |list| - 1);
  }

  /** A word of a payload is no header word. */
  lemma PayloadWord(mem: Memory, list: seq<int>, r: Region, a: int, x: int, j: nat)
    requires Linked(mem, list, r) && a in list && a != list[|list| - 1] && a + 8 <= x < Next(mem, a) && j < |list|
    ensures x != list[j] && x != list[j] + 4 && r.first <= x < r.last
  {
    var i := IndexOf(mem, list, r, a);
    hide Linked, Next;
    LinkedAt(mem, list, r, i);
    LinkedAt(mem, list, r, i + 1);
    InOrder(mem, list, r, i, j);
    InOrder(mem, list, r, j, i);
    if i < j { InOrder(mem, list, r, i + 1, j); }
  }

  // ---- s_compact_free ----

  /** The blocks from lo to hi are free, and the ones around them are not. */
  ghost predicate FreeRun(mem: Memory, list: seq<int>, lo: nat, hi: nat) {
    && 1 <= lo < hi < |list| && (forall j :: lo <= j < hi ==> IsFree(mem, list[j]))
    && !IsFree(mem, list[lo - 1]) && !IsFree(mem, list[hi])
  }

  /** The two writes that join the blocks from lo to hi. */
  function Join(mem: Memory, a: int, b: word): Memory
    requires 0 <= a < TWO_32
  {
    SetPrev(SetNext(mem, a, b), b, a)
  }

  lemma JoinFields(mem: Memory, list: seq<int>, r: Region, lo: nat, hi: nat, k: nat)
    requires Linked(mem, list, r) && 1 <= lo < hi < |list| && k < |list|
    ensures 0 <= list[lo] < TWO_32 && 0 <= list[hi] < TWO_32
    ensures var m := Join(mem, list[lo], list[hi]);
            && Next(m, list[lo]) == list[hi] && Prev(m, list[hi]) == list[lo]
            && (k != lo ==> Next(m, list[k]) == Next(mem, list[k]))
                 && (k != hi ==> Prev(m, list[k]) == Prev(mem, list[k]))
            && (IsFree(m, list[k]) <==> IsFree(mem, list[k]))
  {
    hide Next, Prev, IsFree, SetNext, SetPrev, Linked;
    LinkedAt(mem, list, r, lo);
    LinkedAt(mem, list, r, hi);
    LinkedAt(mem, list, r, k);
    InOrder(mem, list, r, lo, k);
    InOrder(mem, list, r, k, lo);
    InOrder(mem, list, r, hi, k);
    InOrder(mem, list, r, k, hi);
    var m1 := SetNext(mem, list[lo], list[hi]);
    SetNextFields(mem, list[lo], list[hi], list[k]);
    SetNextFields(mem, list[lo], list[hi], list[lo]);
    SetPrevFields(m1, list[hi], list[lo], list[k]);
    SetPrevFields(m1, list[hi], list[lo], list[lo]);
  }

  lemma JoinWords(mem: Memory, a: int, b: word, x: int)
    requires 0 <= a < TWO_32
    ensures x != a && x != b + 4 ==> WordAt(Join(mem, a, b), x) == WordAt(mem, x)
  {
    hide WithPointer;
  }

  lemma JoinLinked(mem: Memory, list: seq<int>, r: Region, lo: nat, hi: nat)
    requires Linked(mem, list, r) && 1 <= lo < hi < |list|
    ensures 0 <= list[lo] < TWO_32 && 0 <= list[hi] < TWO_32
    ensures Linked(Join(mem, list[lo], list[hi]), Joined(list, lo, hi), r)
  {
    hide Next, Prev, IsFree, Join, Linked;
    JoinFields(mem, list, r, lo, hi, lo);
    var m := Join(mem, list[lo], list[hi]);
    forall k | 0 <= k < |list|
      ensures (k != lo ==> Next(m, list[k]) == Next(mem, list[k]))
              && (k != hi ==> Prev(m, list[k]) == Prev(mem, list[k])) && (IsFree(m, list[k]) <==> IsFree(mem, list[k]))
    {
      JoinFields(mem, list, r, lo, hi, k);
    }
    JoinedLinked(mem, m, list, r, lo, hi);
  }

  lemma JoinSettled(mem: Memory, m: Memory, list: seq<int>, i: nat, lo: nat, hi: nat)
    requires SettledBut(mem, list, i) && FreeRun(mem, list, lo, hi) && lo <= i < hi
    requires forall k :: 0 <= k < |list| ==> (IsFree(m, list[k]) <==> IsFree(mem, list[k]))
    ensures Settled(m, Joined(list, lo, hi))
  {
    hide IsFree;
    var l := Joined(list, lo, hi);
    forall k | 0 <= k < |l| - 1
      ensures !IsFree(m, l[k]) || !IsFree(m, l[k + 1])
    {
      if k < lo { assert l[k] == list[k] && l[k + 1] == list[k + 1]; }
      else if k == lo { assert l[k + 1] == list[hi]; }
      else { assert l[k] == list[k + hi - lo - 1] && l[k + 1] == list[k + hi - lo]; }
    }
  }

  /** A block is in the joined list unless it was swallowed. */
  lemma JoinedIn(list: seq<int>, lo: nat, hi: nat, k: nat)
    requires lo < hi < |list| && k < |list|
    ensures k <= lo || hi <= k ==> list[k] in Joined(list, lo, hi)
    ensures forall a :: a in Joined(list, lo, hi) ==> a in list
    ensures Joined(list, lo, hi)[0] == list[0] && Joined(list, lo, hi)[|Joined(list, lo, hi)| - 1] == list[|list| - 1]
  {
    var l := Joined(list, lo, hi);
    if k <= lo { assert l[k] == list[k]; } else if hi <= k { assert l[k - hi + lo + 1] == list[k]; }
  }

  lemma JoinKeeps(mem: Memory, list: seq<int>, r: Region, lo: nat, hi: nat, ptr: int)
    requires Linked(mem, list, r) && FreeRun(mem, list, lo, hi)
    ensures 0 <= list[lo] < TWO_32 && 0 <= list[hi] < TWO_32
    ensures var m := Join(mem, list[lo], list[hi]);
            OthersKept(mem, list, m, Joined(list, lo, hi), ptr) && Inside(mem, m, r)
  {
    hide Next, Prev, IsFree, Join, Linked, Joined;
    JoinFields(mem, list, r, lo, hi, lo);
    LinkedAt(mem, list, r, lo);
    LinkedAt(mem, list, r, hi);
    var m := Join(mem, list[lo], list[hi]);
    var l := Joined(list, lo, hi);
    JoinedIn(list, lo, hi, 0);
    forall a | Taken(mem, list, a)
      ensures Undisturbed(mem, m, l, a)
    {
      JoinKept(mem, list, r, lo, hi, a);
    }
    forall a | Taken(m, l, a)
      ensures Taken(mem, list, a)
    {
      var k := IndexOf(mem, list, r, a);
      JoinFields(mem, list, r, lo, hi, k);
    }
    forall x | x < r.first || r.last <= x
      ensures WordAt(m, x) == WordAt(mem, x)
    {
      JoinWords(mem, list[lo], list[hi], x);
    }
  }

  lemma JoinKept(mem: Memory, list: seq<int>, r: Region, lo: nat, hi: nat, a: int)
    requires Linked(mem, list, r) && FreeRun(mem, list, lo, hi) && Taken(mem, list, a)
    ensures 0 <= list[lo] < TWO_32 && 0 <= list[hi] < TWO_32
    ensures Undisturbed(mem, Join(mem, list[lo], list[hi]), Joined(list, lo, hi), a)
  {
    hide Next, Prev, IsFree, Join, Linked, Joined;
    var k := IndexOf(mem, list, r, a);
    JoinFields(mem, list, r, lo, hi, k);
    JoinedIn(list, lo, hi, k);
    var m := Join(mem, list[lo], list[hi]);
    forall x | a + 8 <= x < Next(mem, a)
      ensures WordAt(m, x) == WordAt(mem, x)
    {
      PayloadWord(mem, list, r, a, x, lo);
      PayloadWord(mem, list, r, a, x, hi);
      JoinWords(mem, list[lo], list[hi], x);
    }
  }

  // ---- marking ----

  lemma MarkLinked(mem: Memory, list: seq<int>, r: Region, i: nat)
    requires Linked(mem, list, r) && 1 <= i < |list| - 1
    ensures Linked(MarkFree(mem, list[i]), list, r) && Linked(MarkTaken(mem, list[i]), list, r)
    ensures forall k :: 0 <= k < |list| && k != i ==>
      (IsFree(MarkFree(mem, list[i]), list[k]) <==> IsFree(mem, list[k]))
          && (IsFree(MarkTaken(mem, list[i]), list[k]) <==> IsFree(mem, list[k]))
    ensures IsFree(MarkFree(mem, list[i]), list[i]) && !IsFree(MarkTaken(mem, list[i]), list[i])
  {
    hide Next, Prev, IsFree, MarkFree, MarkTaken, Linked;
    LinkedAt(mem, list, r, i);
    forall k | 0 <= k < |list|
      ensures var t, f := MarkTaken(mem, list[i]), MarkFree(mem, list[i]);
              && Next(t, list[k]) == Next(mem, list[k]) && Prev(t, list[k]) == Prev(mem, list[k])
              && Next(f, list[k]) == Next(mem, list[k]) && Prev(f, list[k]) == Prev(mem, list[k])
              && (k != i ==>
                   (IsFree(t, list[k]) <==> IsFree(mem, list[k])) && (IsFree(f, list[k]) <==> IsFree(mem, list[k])))
    {
      LinkedAt(mem, list, r, k);
      InOrder(mem, list, r, i, k);
      InOrder(mem, list, r, k, i);
      MarkFields(mem, list[i], list[k]);
    }
    MarkFields(mem, list[i], list[i]);
    LinkedAt(mem, list, r, 0);
    LinkedAt(mem, list, r, |list| - 1);
    LinkedFrame(mem, MarkFree(mem, list[i]), list, r);
    LinkedFrame(mem, MarkTaken(mem, list[i]), list, r);
  }

  /** Writes to block i's own header words that leave the other headers alone. */
  lemma HeaderKeeps(mem: Memory, m: Memory, list: seq<int>, r: Region, i: nat)
    requires Linked(mem, list, r) && Linked(m, list, r) && 1 <= i < |list| - 1
    requires forall x :: x != list[i] ==> WordAt(m, x) == WordAt(mem, x)
    requires forall k :: 0 <= k < |list| && k != i ==> (IsFree(m, list[k]) <==> IsFree(mem, list[k]))
    ensures OthersKept(mem, list, m, list, list[i]) && Inside(mem, m, r)
  {
    hide Linked, IsFree, Next;
    LinkedAt(mem, list, r, i);
    forall a | a in list && a != list[i]
      ensures Taken(mem, list, a) ==> Undisturbed(mem, m, list, a)
      ensures Taken(m, list, a) ==> Taken(mem, list, a)
    {
      var k := IndexOf(mem, list, r, a);
      LinkedAt(mem, list, r, k);
      LinkedAt(m, list, r, k);
      forall x | a + 8 <= x < Next(mem, a)
        ensures WordAt(m, x) == WordAt(mem, x)
      {
        if a != list[|list| - 1] { PayloadWord(mem, list, r, a, x, i); }
      }
    }
  }

  lemma MarkKeeps(mem: Memory, list: seq<int>, r: Region, i: nat)
    requires Linked(mem, list, r) && 1 <= i < |list| - 1
    ensures OthersKept(mem, list, MarkFree(mem, list[i]), list, list[i]) && Inside(mem, MarkFree(mem, list[i]), r)
    ensures OthersKept(mem, list, MarkTaken(mem, list[i]), list, list[i]) && Inside(mem, MarkTaken(mem, list[i]), r)
  {
    hide Linked, IsFree;
    MarkLinked(mem, list, r, i);
    HeaderKeeps(mem, MarkFree(mem, list[i]), list, r, i);
    HeaderKeeps(mem, MarkTaken(mem, list[i]), list, r, i);
  }

  /** Two steps in a row that disturb nobody but the same block. */
  lemma KeptTwice(mem: Memory, list: seq<int>, m: Memory, l: seq<int>, n: Memory, k: seq<int>, ptr: int, r: Region)
    requires OthersKept(mem, list, m, l, ptr) && OthersKept(m, l, n, k, ptr) && Inside(mem, m, r) && Inside(m, n, r)
    ensures OthersKept(mem, list, n, k, ptr) && Inside(mem, n, r)
  {
    hide Taken, Next;
    forall a | Taken(mem, list, a) && a != ptr
      ensures Undisturbed(mem, n, k, a)
    {
      assert Undisturbed(mem, m, l, a);
      assert Taken(m, l, a);
      assert Undisturbed(m, n, k, a);
    }
  }

  // ---- cutting the end off a block ----

  /** The writes of a split: the new block at t, then its neighbours' links to it. */
  function Cut(mem: Memory, a: word, t: word, n: word): Memory {
    SetNext(SetPrev(SetNext(SetPrev(mem, t, a), t, n), n, t), a, t)
  }

  ghost predicate CutSpot(mem: Memory, list: seq<int>, r: Region, i: nat, t: int) {
    Linked(mem, list, r) && 1 <= i < |list| - 1 && t % 8 == 0 && list[i] + 8 <= t && t + 8 <= list[i + 1]
  }

  lemma CutWords(mem: Memory, list: seq<int>, r: Region, i: nat, t: int)
    requires CutSpot(mem, list, r, i, t)
    ensures 0 <= list[i] < TWO_32 && 0 <= t < TWO_32 && 0 <= list[i + 1] < TWO_32 && list[i] % 8 == 0
            && list[i + 1] % 8 == 0 && r.first <= list[i] && t < r.last - 8 && list[i + 1] <= r.last - 8
  {
    hide Next, Prev, IsFree;
    LinkedAt(mem, list, r, i);
    LinkedAt(mem, list, r, i + 1);
  }

  /** The four writes set the four links; every other header field of a block at x stays as it was. */
  lemma CutFields(mem: Memory, a: word, t: word, n: word, x: int)
    requires a % 8 == 0 && t % 8 == 0 && n % 8 == 0 && a < t < n && x % 8 == 0
    ensures var m := Cut(mem, a, t, n);
            && Next(m, a) == t && Prev(m, t) == a && Next(m, t) == n && Prev(m, n) == t
            && (x != a && x != t ==> Next(m, x) == Next(mem, x)) && (x != n && x != t ==> Prev(m, x) == Prev(mem, x))
            && (IsFree(m, x) <==> IsFree(mem, x))
  {
    hide Next, Prev, IsFree, SetNext, SetPrev;
    var m1 := SetPrev(mem, t, a);
    var m2 := SetNext(m1, t, n);
    var m3 := SetPrev(m2, n, t);
    forall y | y == x || y == a || y == t || y == n
      ensures var m := Cut(mem, a, t, n);
              && (y != a && y != t ==> Next(m, y) == Next(mem, y)) && (y != n && y != t ==> Prev(m, y) == Prev(mem, y))
              && (IsFree(m, y) <==> IsFree(mem, y))
              && (y == a ==> Next(m, y) == t) && (y == t ==> Next(m, y) == n && Prev(m, y) == a)
                   && (y == n ==> Prev(m, y) == t)
    {
      SetPrevFields(mem, t, a, y);
      SetNextFields(m1, t, n, y);
      SetPrevFields(m2, n, t, y);
      SetNextFields(m3, a, t, y);
    }
  }

  lemma CutWord(mem: Memory, a: word, t: word, n: word, x: int)
    ensures x != a && x != t && x != t + 4 && x != n + 4 ==> WordAt(Cut(mem, a, t, n), x) == WordAt(mem, x)
  {
    hide WithPointer;
  }

  lemma CutLinked(mem: Memory, list: seq<int>, r: Region, i: nat, t: int)
    requires CutSpot(mem, list, r, i, t)
    ensures 0 <= list[i] < TWO_32 && 0 <= t < TWO_32 && 0 <= list[i + 1] < TWO_32
    ensures var m := Cut(mem, list[i], t, list[i + 1]);
            && Linked(m, Split(list, i, t), r) && Next(m, list[i]) == t
            && forall k :: 0 <= k < |list| ==>
                 (IsFree(m, list[k]) <==> IsFree(mem, list[k])) && (k != i ==> Next(m, list[k]) == Next(mem, list[k]))
  {
    CutWords(mem, list, r, i, t);
    hide Next, Prev, IsFree, Cut, Linked;
    var m := Cut(mem, list[i], t, list[i + 1]);
    LinkedAt(mem, list, r, i);
    CutFields(mem, list[i], t, list[i + 1], t);
    forall k | 0 <= k < |list|
      ensures (k != i ==> Next(m, list[k]) == Next(mem, list[k]))
              && (k != i + 1 ==> Prev(m, list[k]) == Prev(mem, list[k]))
              && (IsFree(m, list[k]) <==> IsFree(mem, list[k]))
    {
      LinkedAt(mem, list, r, k);
      InOrder(mem, list, r, i, k);
      InOrder(mem, list, r, k, i);
      InOrder(mem, list, r, i + 1, k);
      InOrder(mem, list, r, k, i + 1);
      CutFields(mem, list[i], t, list[i + 1], list[k]);
    }
    SplitLinked(mem, m, list, r, i, t);
  }

  lemma SplitIn(list: seq<int>, i: nat, t: int)
    requires i < |list| - 1
    ensures var l := Split(list, i, t);
            && (forall a :: a in l <==> a in list || a == t) && |l| == |list| + 1 && l[0] == list[0]
                 && l[|l| - 1] == list[|list| - 1]
            && l[i] == list[i] && l[i + 1] == t && l[i + 2] == list[i + 1]
  {
    var l := Split(list, i, t);
    forall a | a in list
      ensures a in l
    {
      var k :| 0 <= k < |list| && list[k] == a;
      assert l[if k <= i then k else k + 1] == a;
    }
  }

  /** Cutting block i leaves every other caller's block alone; the new block's status is whatever was in its place. */
  ghost predicate CutKept(mem: Memory, list: seq<int>, m: Memory, l: seq<int>, a: int, t: int) {
    && (forall b :: Taken(mem, list, b) && b != a ==> Undisturbed(mem, m, l, b))
    && (forall b :: Taken(m, l, b) && b != t ==> Taken(mem, list, b))
    && (Taken(mem, list, a) ==> Taken(m, l, a))
    && (forall x :: a + 8 <= x < t ==> WordAt(m, x) == WordAt(mem, x))
  }

  lemma CutKeeps(mem: Memory, list: seq<int>, r: Region, i: nat, t: int)
    requires CutSpot(mem, list, r, i, t)
    ensures 0 <= list[i] < TWO_32 && 0 <= t < TWO_32 && 0 <= list[i + 1] < TWO_32
    ensures var m := Cut(mem, list[i], t, list[i + 1]);
            Inside(mem, m, r) && CutKept(mem, list, m, Split(list, i, t), list[i], t)
  {
    hide Next, Prev, IsFree, Cut, Linked, Split, Taken, Undisturbed, CutSpot;
    CutWords(mem, list, r, i, t);
    CutLinked(mem, list, r, i, t);
    SpotIndex(mem, list, r, i, t);
    SplitIn(list, i, t);
    var m := Cut(mem, list[i], t, list[i + 1]);
    var l := Split(list, i, t);
    forall x
      ensures x != list[i] && x != t && x != t + 4 && x != list[i + 1] + 4 ==> WordAt(m, x) == WordAt(mem, x)
    {
      CutWord(mem, list[i], t, list[i + 1], x);
    }
    forall b | b in list && b != list[i]
      ensures Taken(mem, list, b) ==> Undisturbed(mem, m, l, b)
    {
      CutOther(mem, m, list, l, r, i, t, b);
    }
    forall b
      ensures Taken(m, l, b) && b != t ==> Taken(mem, list, b)
      ensures Taken(mem, list, b) ==> b in list
      ensures b == list[i] && Taken(mem, list, b) ==> Taken(m, l, b)
    {
      CutStatus(mem, m, list, l, r, t, b);
    }
  }

  lemma SpotIndex(mem: Memory, list: seq<int>, r: Region, i: nat, t: int)
    requires CutSpot(mem, list, r, i, t)
    ensures Linked(mem, list, r) && 1 <= i < |list| - 1 && list[i] + 8 <= t && t + 8 <= list[i + 1]
  {
    hide Linked;
  }

  lemma CutStatus(mem: Memory, m: Memory, list: seq<int>, l: seq<int>, r: Region, t: int, b: int)
    requires Linked(mem, list, r) && (forall c :: c in l <==> c in list || c == t)
    requires |l| > 0 && |list| > 0 && l[0] == list[0] && l[|l| - 1] == list[|list| - 1]
    requires forall k :: 0 <= k < |list| ==> (IsFree(m, list[k]) <==> IsFree(mem, list[k]))
    ensures Taken(m, l, b) && b != t ==> Taken(mem, list, b)
    ensures Taken(mem, list, b) ==> b in list && Taken(m, l, b)
  {
    hide Linked, IsFree;
    if b in list { var k := IndexOf(mem, list, r, b); }
  }

  lemma CutOther(mem: Memory, m: Memory, list: seq<int>, l: seq<int>, r: Region, i: nat, t: int, a: int)
    requires CutSpot(mem, list, r, i, t) && a in list && a != list[i]
    requires forall b :: b in l <==> b in list || b == t
    requires |l| > 0 && l[0] == list[0] && l[|l| - 1] == list[|list| - 1]
    requires forall k :: 0 <= k < |list| ==>
               (IsFree(m, list[k]) <==> IsFree(mem, list[k])) && (k != i ==> Next(m, list[k]) == Next(mem, list[k]))
    requires forall x :: x != list[i] && x != t && x != t + 4 && x != list[i + 1] + 4 ==> WordAt(m, x) == WordAt(mem, x)
    ensures Taken(mem, list, a) ==> Undisturbed(mem, m, l, a)
  {
    hide Next, Prev, IsFree, Linked;
    var k := IndexOf(mem, list, r, a);
    if Taken(mem, list, a) {
      forall x | a + 8 <= x < Next(mem, a)
        ensures WordAt(m, x) == WordAt(mem, x)
      {
        PayloadWord(mem, list, r, a, x, i);
        PayloadWord(mem, list, r, a, x, i + 1);
        LinkedAt(mem, list, r, i);
        LinkedAt(mem, list, r, k);
        InOrder(mem, list, r, i + 1, k);
        InOrder(mem, list, r, k, i);
        if k < i { InOrder(mem, list, r, k + 1, i); }
      }
    }
  }
}
