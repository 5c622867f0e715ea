/** The block lists of the simple allocator, at the level of memory words. */
module BlockLists {
  import opened Bytes
  import opened Words

  const DYN_SIZE_MULT := 8
  const DYN_HEADER_SIZE := 8
  const DYN_MIN_SPLIT_SIZE := 16
  const TAKEN_BIT := 0x8000_0000

  type Memory = map<int, word>

  function WordAt(mem: Memory, a: int): word { if a in mem then mem[a] else 0 }

  // ---- the header words: next with the taken bit, then prev ----

  function Next(mem: Memory, a: int): int { WordAt(mem, a) % TAKEN_BIT * DYN_SIZE_MULT % TWO_32 }

  function Prev(mem: Memory, a: int): int { WordAt(mem, a + 4) % TAKEN_BIT * DYN_SIZE_MULT % TWO_32 }

  predicate IsFree(mem: Memory, a: int) { WordAt(mem, a) < TAKEN_BIT }

  /** Replaces the low 31 bits of a word by a pointer divided by 8. */
  function WithPointer(w: word, p: word): word { (if w < TAKEN_BIT then 0 else TAKEN_BIT) + p / DYN_SIZE_MULT }

  function SetNext(mem: Memory, a: int, p: word): Memory { mem[a := WithPointer(WordAt(mem, a), p)] }

  function SetPrev(mem: Memory, a: int, p: word): Memory { mem[a + 4 := WithPointer(WordAt(mem, a + 4), p)] }

  function MarkTaken(mem: Memory, a: int): Memory { mem[a := WordAt(mem, a) % TAKEN_BIT + TAKEN_BIT] }

  function MarkFree(mem: Memory, a: int): Memory { mem[a := WordAt(mem, a) % TAKEN_BIT] }

  lemma PointerBack(w: word, p: word)
    requires p % 8 == 0
    ensures WithPointer(w, p) % TAKEN_BIT * DYN_SIZE_MULT % TWO_32 == p
    ensures WithPointer(w, p) < TAKEN_BIT <==> w < TAKEN_BIT
  {
    assert p / 8 < 0x2000_0000 && p == 8 * (p / 8);
  }

  lemma Marked(w: word)
    ensures (w % TAKEN_BIT + TAKEN_BIT) % TAKEN_BIT == w % TAKEN_BIT && w % TAKEN_BIT % TAKEN_BIT == w % TAKEN_BIT
  {
  }

  /** What each write changes: one field of one header. */
  lemma SetNextFields(mem: Memory, a: int, p: word, x: int)
    requires p % 8 == 0 && a % 8 == 0
    ensures var m := SetNext(mem, a, p);
            && Next(m, a) == p && (x != a && x % 8 == 0 ==> Next(m, x) == Next(mem, x))
            && (x % 8 == 0 ==> Prev(m, x) == Prev(mem, x) && (IsFree(m, x) <==> IsFree(mem, x)))
  {
    PointerBack(WordAt(mem, a), p);
    Words8(a, x);
    hide WithPointer;
  }

  lemma SetPrevFields(mem: Memory, a: int, p: word, x: int)
    requires p % 8 == 0 && a % 8 == 0
    ensures var m := SetPrev(mem, a, p);
            && Prev(m, a) == p && (x != a && x % 8 == 0 ==> Prev(m, x) == Prev(mem, x))
            && (x % 8 == 0 ==> Next(m, x) == Next(mem, x) && (IsFree(m, x) <==> IsFree(mem, x)))
  {
    PointerBack(WordAt(mem, a + 4), p);
    Words8(a, x);
    hide WithPointer;
  }

  lemma MarkFields(mem: Memory, a: int, x: int)
    requires a % 8 == 0
    ensures var t, f := MarkTaken(mem, a), MarkFree(mem, a);
            && !IsFree(t, a) && IsFree(f, a)
            && (x % 8 == 0 ==>
                  && Next(t, x) == Next(mem, x) && Prev(t, x) == Prev(mem, x)
                  && Next(f, x) == Next(mem, x) && Prev(f, x) == Prev(mem, x))
            && (x != a ==> (IsFree(t, x) <==> IsFree(mem, x)) && (IsFree(f, x) <==> IsFree(mem, x)))
  {
    Marked(WordAt(mem, a));
    Words8(a, x);
  }

  /** The two words of a header never coincide with those of another one. */
  lemma Words8(a: int, x: int)
    requires a % 8 == 0
    ensures x % 8 == 0 ==> a + 4 != x && x + 4 != a
  {
  }

  // ---- lists ----

  ghost predicate RegionOk(r: Region) {
    0 < r.first && r.first % 8 == 0 && r.last % 8 == 0 && r.first + 24 <= r.last <= TWO_32
  }

  /** The blocks of a region, from guard to guard, in increasing order without a gap, with inverse links. */
  ghost predicate Linked(mem: Memory, list: seq<int>, r: Region) {
    && RegionOk(r) && |list| >= 3 && list[0] == r.first && list[1] == r.first + 8 && list[|list| - 1] == r.last - 8
    && (forall i :: 0 <= i < |list| ==> list[i] % 8 == 0)
    && (forall i, j :: 0 <= i < j < |list| ==> list[i] + 8 <= list[j])
    && (forall i :: 0 <= i < |list| - 1 ==> Next(mem, list[i]) == list[i + 1])
    && (forall i :: 1 <= i < |list| ==> Prev(mem, list[i]) == list[i - 1])
    && Next(mem, list[|list| - 1]) == 0
    && !IsFree(mem, list[0]) && !IsFree(mem, list[|list| - 1])
  }

  /** No two neighbours are free. */
  ghost predicate Settled(mem: Memory, list: seq<int>) {
    forall i :: 0 <= i < |list| - 1 ==> !IsFree(mem, list[i]) || !IsFree(mem, list[i + 1])
  }

  /** As Settled, apart from the pairs that block k belongs to. */
  ghost predicate SettledBut(mem: Memory, list: seq<int>, k: nat) {
    forall i :: 0 <= i < |list| - 1 && i != k && i + 1 != k ==> !IsFree(mem, list[i]) || !IsFree(mem, list[i + 1])
  }

  lemma LinkedAt(mem: Memory, list: seq<int>, r: Region, i: nat)
    requires Linked(mem, list, r) && i < |list|
    ensures list[i] % 8 == 0 && 0 < r.first <= list[i] && list[i] + 8 <= r.last <= TWO_32 && RegionOk(r)
    ensures i < |list| - 1 ==> Next(mem, list[i]) == list[i + 1] && list[i] + 8 <= list[i + 1]
    ensures i > 0 ==> Prev(mem, list[i]) == list[i - 1] && list[i - 1] + 8 <= list[i]
    ensures i == |list| - 1 ==> Next(mem, list[i]) == 0 && !IsFree(mem, list[i])
    ensures i == 0 ==> !IsFree(mem, list[i])
  {
    hide Next, Prev, IsFree;
  }

  lemma InOrder(mem: Memory, list: seq<int>, r: Region, i: nat, j: nat)
    requires Linked(mem, list, r) && i < |list| && j < |list|
    ensures i < j ==> list[i] + 8 <= list[j]
  {
    hide Next, Prev, IsFree;
  }

  /** A list keeps its links under writes that leave all its header fields alone. */
  lemma LinkedFrame(mem: Memory, m: Memory, list: seq<int>, r: Region)
    requires Linked(mem, list, r)
    requires forall i :: 0 <= i < |list| ==>
               Next(m, list[i]) == Next(mem, list[i]) && Prev(m, list[i]) == Prev(mem, list[i])
    requires !IsFree(m, list[0]) && !IsFree(m, list[|list| - 1])
    ensures Linked(m, list, r)
  {
    hide Next, Prev, IsFree;
  }

  // ---- joining ----

  /** Blocks i up to but not including j become one. */
  ghost function Joined(list: seq<int>, i: nat, j: nat): seq<int>
    requires i < j < |list|
  {
    list[..i + 1] + list[j..]
  }

  /** The conditions of a linked list, one by one. */
  lemma MakeLinked(m: Memory, l: seq<int>, r: Region)
    requires RegionOk(r) && |l| >= 3 && l[0] == r.first && l[1] == r.first + 8 && l[|l| - 1] == r.last - 8
    requires forall k :: 0 <= k < |l| ==> l[k] % 8 == 0
    requires forall j, k :: 0 <= j < k < |l| ==> l[j] + 8 <= l[k]
    requires forall k :: 0 <= k < |l| - 1 ==> Next(m, l[k]) == l[k + 1]
    requires forall k :: 1 <= k < |l| ==> Prev(m, l[k]) == l[k - 1]
    requires Next(m, l[|l| - 1]) == 0 && !IsFree(m, l[0]) && !IsFree(m, l[|l| - 1])
    ensures Linked(m, l, r)
  {
    hide Next, Prev, IsFree;
  }

  lemma LinkedOrder(mem: Memory, list: seq<int>, r: Region, i: nat, j: nat)
    requires Linked(mem, list, r) && i < j < |list|
    ensures list[i] + 8 <= list[j]
  {
    hide Next, Prev, IsFree;
  }

  lemma LinkedEnds(mem: Memory, list: seq<int>, r: Region)
    requires Linked(mem, list, r)
    ensures |list| >= 3 && list[0] == r.first && list[1] == r.first + 8 && list[|list| - 1] == r.last - 8
    ensures RegionOk(r)
  {
    hide Next, Prev, IsFree;
  }

  /** Where block k of the joined list was. */
  function FromJoined(i: nat, j: nat, k: nat): nat
    requires i < j
  {
    if k <= i then k else k + j - i - 1
  }

  lemma JoinedAt(list: seq<int>, i: nat, j: nat, k: nat)
    requires i < j < |list| && k < |list| - (j - i - 1)
    ensures |Joined(list, i, j)| == |list| - (j - i - 1) && Joined(list, i, j)[k] == list[FromJoined(i, j, k)]
  {
  }

  lemma JoinedLinked(mem: Memory, m: Memory, list: seq<int>, r: Region, i: nat, j: nat)
    requires Linked(mem, list, r) && 1 <= i < j < |list|
    requires Next(m, list[i]) == list[j] && Prev(m, list[j]) == list[i]
    requires forall k :: 0 <= k < |list| ==>
      (k != i ==> Next(m, list[k]) == Next(mem, list[k])) && (k != j ==> Prev(m, list[k]) == Prev(mem, list[k]))
          && (IsFree(m, list[k]) <==> IsFree(mem, list[k]))
    ensures Linked(m, Joined(list, i, j), r)
  {
    hide Next, Prev, IsFree, Linked, Joined, RegionOk;
    LinkedEnds(mem, list, r);
    var l := Joined(list, i, j);
    JoinedAt(list, i, j, 0);
    JoinedAt(list, i, j, 1);
    JoinedAt(list, i, j, |l| - 1);
    forall k | 0 <= k < |l|
      ensures l[k] % 8 == 0 && (k + 1 < |l| ==> Next(m, l[k]) == l[k + 1]) && (k > 0 ==> Prev(m, l[k]) == l[k - 1])
    {
      JoinedAt(list, i, j, k);
      LinkedAt(mem, list, r, FromJoined(i, j, k));
      if k + 1 < |l| { JoinedAt(list, i, j, k + 1); }
      if k > 0 { JoinedAt(list, i, j, k - 1); }
    }
    forall a, b | 0 <= a < b < |l|
      ensures l[a] + 8 <= l[b]
    {
      JoinedAt(list, i, j, a);
      JoinedAt(list, i, j, b);
      LinkedOrder(mem, list, r, FromJoined(i, j, a), FromJoined(i, j, b));
    }
    LinkedAt(mem, list, r, 0);
    LinkedAt(mem, list, r, |list| - 1);
    MakeLinked(m, l, r);
  }

  // ---- splitting ----

  /** A new block begins at t inside block i. */
  ghost function Split(list: seq<int>, i: nat, t: int): seq<int>
    requires i < |list|
  {
    list[..i + 1] + [t] + list[i + 1..]
  }

  lemma SplitAt(list: seq<int>, i: nat, t: int, k: nat)
    requires i < |list| && k <= |list|
    ensures |Split(list, i, t)| == |list| + 1
    ensures Split(list, i, t)[k] == if k <= i then list[k] else if k == i + 1 then t else list[k - 1]
  {
  }

  lemma SplitLinked(mem: Memory, m: Memory, list: seq<int>, r: Region, i: nat, t: int)
    requires Linked(mem, list, r) && 1 <= i < |list| - 1 && t % 8 == 0 && list[i] + 8 <= t && t + 8 <= list[i + 1]
    requires Next(m, list[i]) == t && Prev(m, t) == list[i] && Next(m, t) == list[i + 1] && Prev(m, list[i + 1]) == t
    requires forall k :: 0 <= k < |list| ==>
      (k != i ==> Next(m, list[k]) == Next(mem, list[k])) && (k != i + 1 ==> Prev(m, list[k]) == Prev(mem, list[k]))
          && (IsFree(m, list[k]) <==> IsFree(mem, list[k]))
    ensures Linked(m, Split(list, i, t), r)
  {
    hide Next, Prev, IsFree, Linked, Split, RegionOk;
    LinkedEnds(mem, list, r);
    var l := Split(list, i, t);
    SplitAt(list, i, t, 0);
    SplitAt(list, i, t, 1);
    SplitAt(list, i, t, |list|);
    forall k | 0 <= k < |l|
      ensures l[k] % 8 == 0 && (k + 1 < |l| ==> Next(m, l[k]) == l[k + 1]) && (k > 0 ==> Prev(m, l[k]) == l[k - 1])
    {
      SplitAt(list, i, t, k);
      if k + 1 < |l| { SplitAt(list, i, t, k + 1); }
      if k > 0 { SplitAt(list, i, t, k - 1); }
      if k != i + 1 { LinkedAt(mem, list, r, if k <= i then k else k - 1); }
    }
    forall a, b | 0 <= a < b < |l|
      ensures l[a] + 8 <= l[b]
    {
      SplitAt(list, i, t, a);
      SplitAt(list, i, t, b);
      SplitOrder(mem, list, r, i, t, a, b);
    }
    LinkedAt(mem, list, r, 0);
    LinkedAt(mem, list, r, |list| - 1);
    MakeLinked(m, l, r);
  }

  lemma SplitOrder(mem: Memory, list: seq<int>, r: Region, i: nat, t: int, a: nat, b: nat)
    requires Linked(mem, list, r) && i < |list| - 1 && list[i] + 8 <= t && t + 8 <= list[i + 1] && a < b <= |list|
    ensures var x := if a <= i then list[a] else if a == i + 1 then t else list[a - 1];
            var y := if b <= i then list[b] else if b == i + 1 then t else list[b - 1];
            x + 8 <= y
  {
    hide Linked;
    if b <= i {
      LinkedOrder(mem, list, r, a, b);
    } else if b == i + 1 {
      if a < i { LinkedOrder(mem, list, r, a, i); }
    } else if a <= i {
      LinkedOrder(mem, list, r, a, b - 1);
    } else if a == i + 1 {
      if b - 1 > i + 1 { LinkedOrder(mem, list, r, i + 1, b - 1); }
    } else {
      LinkedOrder(mem, list, r, a - 1, b - 1);
    }
  }
}
