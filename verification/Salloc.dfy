/** The simple allocator: smalloc, sfree and srealloc over the block lists of all RAM regions. */
module Salloc {
  import opened Bytes
  import opened Words
  import opened BlockLists
  import opened BlockSteps

  /** s_act_size: rounds up to a multiple of 8. */
  function ActSize(size: nat): nat {
    if size % DYN_SIZE_MULT != 0 then (size / DYN_SIZE_MULT + 1) * DYN_SIZE_MULT else size }

  lemma ActSizeRounds(size: nat)
    ensures ActSize(size) % 8 == 0 && size <= ActSize(size) < size + 8
  {
    var q := size / 8;
    assert size == 8 * q + size % 8;
  }

  ghost predicate RegionsOk(rs: seq<Region>) {
    && (forall k :: 0 <= k < |rs| ==> RegionOk(rs[k]))
    && forall j, k :: 0 <= j < |rs| && 0 <= k < |rs| && j != k ==>
         rs[j].last <= rs[k].first || rs[k].last <= rs[j].first
  }

  ghost predicate AllOk(mem: Memory, lists: seq<seq<int>>, rs: seq<Region>) {
    |lists| == |rs| && forall k :: 0 <= k < |rs| ==> Linked(mem, lists[k], rs[k]) && Settled(mem, lists[k])
  }

  /** The block at a belongs to a caller, in whichever region. */
  ghost predicate Owned(mem: Memory, lists: seq<seq<int>>, a: int) {
    exists k :: 0 <= k < |lists| && Taken(mem, lists[k], a)
  }

  /** The block at a has its size and its payload still. */
  ghost predicate Intact(mem: Memory, m: Memory, lists: seq<seq<int>>, a: int) {
    Owned(m, lists, a) && Next(m, a) == Next(mem, a)
        && forall x :: a + 8 <= x < Next(mem, a) ==> WordAt(m, x) == WordAt(mem, x)
  }

  /** No caller's block but the one at ptr was touched, appeared or went. */
  ghost predicate AllKept(mem: Memory, lists: seq<seq<int>>, m: Memory, lists': seq<seq<int>>, ptr: int) {
    && (forall a :: Owned(mem, lists, a) && a != ptr ==> Intact(mem, m, lists', a))
    && (forall a :: Owned(m, lists', a) && a != ptr ==> Owned(mem, lists, a))
  }

  /** A list of another region is as it was. */
  lemma OtherList(mem: Memory, m: Memory, r: Region, list: seq<int>, q: Region)
    requires Inside(mem, m, r) && Linked(mem, list, q) && Settled(mem, list) && (q.last <= r.first || r.last <= q.first)
    ensures Linked(m, list, q) && Settled(m, list)
    ensures forall a :: Taken(mem, list, a) ==> Undisturbed(mem, m, list, a)
    ensures forall a :: Taken(m, list, a) ==> Taken(mem, list, a)
  {
    forall i | 0 <= i < |list|
      ensures Next(m, list[i]) == Next(mem, list[i]) && Prev(m, list[i]) == Prev(mem, list[i])
              && (IsFree(m, list[i]) <==> IsFree(mem, list[i]))
    {
      LinkedAt(mem, list, q, i);
    }
    hide Linked, Next, Prev, IsFree;
    LinkedAt(mem, list, q, 0);
    LinkedAt(mem, list, q, |list| - 1);
    LinkedFrame(mem, m, list, q);
    forall a | Taken(mem, list, a)
      ensures Undisturbed(mem, m, list, a)
    {
      var i := IndexOf(mem, list, q, a);
      LinkedAt(mem, list, q, i);
      LinkedAt(mem, list, q, i + 1);
    }
  }

  /** What one region's step means for all of them. */
  lemma Localize(mem: Memory, lists: seq<seq<int>>, rs: seq<Region>, m: Memory, l: seq<int>, k: nat, ptr: int)
    requires RegionsOk(rs) && AllOk(mem, lists, rs) && k < |rs| && Inside(mem, m, rs[k])
    requires Linked(m, l, rs[k]) && Settled(m, l) && OthersKept(mem, lists[k], m, l, ptr)
    ensures AllOk(m, lists[k := l], rs) && AllKept(mem, lists, m, lists[k := l], ptr)
  {
    hide Linked, Settled, Taken, Inside, Next;
    var lists' := lists[k := l];
    forall j | 0 <= j < |rs| && j != k
      ensures Linked(m, lists[j], rs[j]) && Settled(m, lists[j])
      ensures forall a :: Taken(mem, lists[j], a) ==> Undisturbed(mem, m, lists[j], a)
      ensures forall a :: Taken(m, lists[j], a) ==> Taken(mem, lists[j], a)
    {
      OtherList(mem, m, rs[k], lists[j], rs[j]);
    }
    forall a | Owned(mem, lists, a) && a != ptr
      ensures Intact(mem, m, lists', a)
    {
      var j :| 0 <= j < |lists| && Taken(mem, lists[j], a);
      assert Undisturbed(mem, m, lists'[j], a);
    }
    forall a | Owned(m, lists', a) && a != ptr
      ensures Owned(mem, lists, a)
    {
      var j :| 0 <= j < |lists'| && Taken(m, lists'[j], a);
      assert Taken(mem, lists[j], a);
    }
  }

  /** A block is in one region only. */
  lemma OneRegion(mem: Memory, lists: seq<seq<int>>, rs: seq<Region>, k: nat, a: int)
    requires RegionsOk(rs) && AllOk(mem, lists, rs) && k < |rs| && a in lists[k] && !Taken(mem, lists[k], a)
    ensures !Owned(mem, lists, a)
  {
    hide Linked, Settled, IsFree;
    var i := IndexOf(mem, lists[k], rs[k], a);
    if j :| 0 <= j < |lists| && Taken(mem, lists[j], a) {
      var i' := IndexOf(mem, lists[j], rs[j], a);
    }
  }

  class SimpleAllocator {
    const regions: seq<Region>
    var mem: Memory
    var initialized: bool
    ghost var lists: seq<seq<int>>

    ghost predicate Valid()
      reads this
    {
      RegionsOk(regions) && (initialized ==> AllOk(mem, lists, regions))
    }

    // ---- s_compact_free ----

    method CompactFree(ptr: word, ghost k: nat, ghost i: nat)
      requires k < |regions| && |lists| == |regions| && Linked(mem, lists[k], regions[k])
      requires 1 <= i < |lists[k]| - 1 && lists[k][i] == ptr && SettledBut(mem, lists[k], i)
      modifies this`mem, this`lists
      ensures |lists| == |regions| && lists == old(lists)[k := lists[k]] && Linked(mem, lists[k], regions[k])
              && Settled(mem, lists[k])
      ensures OthersKept(old(mem), old(lists[k]), mem, lists[k], ptr) && Inside(old(mem), mem, regions[k])
              && !Taken(mem, lists[k], ptr)
    {
      hide Linked, Next, Prev, IsFree, MarkFree, SetNext, SetPrev, OthersKept, Inside, Taken, Settled, Joined;
      ghost var list, r := lists[k], regions[k];
      MarkLinked(mem, list, r, i);
      MarkKeeps(mem, list, r, i);
      MarkSettled(mem, MarkFree(mem, ptr), list, i);
      mem := MarkFree(mem, ptr);
      ghost var m := mem;
      var temp1, temp2 := ptr, ptr;
      ghost var p1: nat, p2: nat := i, i;
      LinkedAt(mem, list, r, 0);
      LinkedAt(mem, list, r, |list| - 1);
      while IsFree(mem, temp1)
        invariant mem == m && lists == old(lists) && 0 <= p1 <= i && temp1 == list[p1]
                  && forall j :: p1 < j <= i ==> IsFree(mem, list[j])
        decreases p1
      {
        LinkedAt(mem, list, r, p1);
        temp1 := Prev(mem, temp1);
        p1 := p1 - 1;
      }
      LinkedAt(mem, list, r, p1);
      temp1 := Next(mem, temp1);
      while IsFree(mem, temp2)
        invariant mem == m && lists == old(lists) && i <= p2 < |list| && temp2 == list[p2]
                  && forall j :: i <= j < p2 ==> IsFree(mem, list[j])
        decreases |list| - p2
      {
        LinkedAt(mem, list, r, p2);
        temp2 := Next(mem, temp2);
        p2 := p2 + 1;
      }
      ghost var lo: nat, hi: nat := p1 + 1, p2;
      LinkedAt(mem, list, r, lo);
      LinkedAt(mem, list, r, hi);
      if temp1 != ptr || Prev(mem, temp2) != ptr {
        mem := SetNext(mem, temp1, temp2);
        mem := SetPrev(mem, temp2, temp1);
        Compacted(m, list, r, i, lo, hi, true);
      } else {
        Compacted(m, list, r, i, lo, hi, false) by { NothingToJoin(m, list, r, i, lo, hi); }
      }
      lists := lists[k := Joined(list, lo, hi)];
      KeptTwice(old(mem), list, m, list, mem, Joined(list, lo, hi), ptr, r);
    }

    // ---- cutting the end off a block, as in s_get_free_block and s_shrink_block ----

    method CutOff(pblock: word, size: nat, ghost k: nat, ghost i: nat)
      requires k < |regions| && |lists| == |regions| && Linked(mem, lists[k], regions[k]) && Settled(mem, lists[k])
      requires 1 <= i < |lists[k]| - 1 && lists[k][i] == pblock && !IsFree(mem, pblock)
      requires size % 8 == 0 && 8 <= size && pblock + size + 8 <= lists[k][i + 1]
      modifies this`mem, this`lists
      ensures |lists| == |regions| && lists == old(lists)[k := lists[k]] && Linked(mem, lists[k], regions[k])
              && Settled(mem, lists[k])
      ensures OthersKept(old(mem), old(lists[k]), mem, lists[k], pblock) && Inside(old(mem), mem, regions[k])
      ensures Taken(mem, lists[k], pblock) && Next(mem, pblock) == pblock + size
      ensures forall x :: pblock + 8 <= x < pblock + size ==> WordAt(mem, x) == WordAt(old(mem), x)
    {
      hide Linked, Next, Prev, IsFree, SetNext, SetPrev, OthersKept, Inside, Taken, Settled, Split, Undisturbed;
      ghost var list, r := lists[k], regions[k];
      LinkedAt(mem, list, r, i);
      LinkedAt(mem, list, r, i + 1);
      var temp: int := pblock + size;
      CutOk(mem, list, r, i, temp);
      var next := Next(mem, pblock);
      mem := SetPrev(mem, temp, pblock);
      mem := SetNext(mem, temp, next);
      mem := SetPrev(mem, next, temp);
      mem := SetNext(mem, pblock, temp);
      lists := lists[k := Split(list, i, temp)];
      ghost var m, l := mem, lists[k];
      SplitIn(list, i, temp);
      CompactFree(temp, k, i + 1);
      CutThenFreed(old(mem), list, r, m, l, mem, lists[k], pblock, temp);
    }

    // ---- s_get_free_block ----

    method BlockSize(ptr: int) returns (size: int)
      ensures size == if Next(mem, ptr) != 0 then Next(mem, ptr) - ptr else 0
    {
      var next := Next(mem, ptr);
      size := if next != 0 then next - ptr else 0;
    }

    /** The best fit in one region: 0 if nothing fits. */
    method FindFit(size: nat, pstart: word, ghost k: nat) returns (pblock: int, minsize: int)
      requires k < |regions| && |lists| == |regions| && Linked(mem, lists[k], regions[k]) && pstart == regions[k].first
      ensures pblock == 0 ==> forall a :: FreeBlock(mem, lists[k], a) ==> Next(mem, a) - a < size
      ensures pblock != 0 ==> FreeBlock(mem, lists[k], pblock) && size <= minsize == Next(mem, pblock) - pblock
                              && forall a :: FreeBlock(mem, lists[k], a) && size <= Next(mem, a) - a ==>
                                   minsize <= Next(mem, a) - a
    {
      hide Linked, Next, IsFree;
      ghost var list, r := lists[k], regions[k];
      ghost var i: nat := 1;
      FirstIs(mem, list, r);
      LinkedAt(mem, list, r, 0);
      var temp := Next(mem, pstart);
      pblock, minsize := 0, MAX_SIZE_T;
      while temp != 0
        invariant 1 <= i <= |list| && temp == (if i < |list| then list[i] else 0)
        invariant pblock == 0 ==> minsize == MAX_SIZE_T && forall j :: 0 <= j < i && IsFree(mem, list[j]) ==>
                    Next(mem, list[j]) - list[j] < size
        invariant pblock != 0 ==>
                    && FreeBlock(mem, list, pblock) && size <= minsize == Next(mem, pblock) - pblock
                    && forall j :: 0 <= j < i && IsFree(mem, list[j]) && size <= Next(mem, list[j]) - list[j] ==>
                         minsize <= Next(mem, list[j]) - list[j]
        decreases |list| - i
      {
        LinkedAt(mem, list, r, i);
        if IsFree(mem, temp) {
          LinkedAt(mem, list, r, i + 1);
          var bsize := BlockSize(temp);
          if size <= bsize && bsize < minsize {
            minsize := bsize;
            pblock := temp;
          }
        }
        temp := Next(mem, temp);
        i := i + 1;
      }
      EndsAt(mem, list, r, i);
    }

    method GetFreeBlock(size: nat, pstart: word, ghost k: nat) returns (ptr: int)
      requires k < |regions| && |lists| == |regions| && Linked(mem, lists[k], regions[k]) && Settled(mem, lists[k])
               && pstart == regions[k].first
      modifies this`mem, this`lists
      ensures ptr == 0 ==>
                && mem == old(mem) && lists == old(lists)
                && (size == 0 || NoFit(mem, lists[k], ActSize(size + DYN_HEADER_SIZE)))
      ensures ptr != 0 ==>
        && size > 0 && BestFit(old(mem), old(lists[k]), ActSize(size + DYN_HEADER_SIZE), ptr - 8)
        && |lists| == |regions| && lists == old(lists)[k := lists[k]] && Linked(mem, lists[k], regions[k])
             && Settled(mem, lists[k])
        && OthersKept(old(mem), old(lists[k]), mem, lists[k], ptr - 8) && Inside(old(mem), mem, regions[k])
        && Taken(mem, lists[k], ptr - 8) && Sized(mem, ptr - 8, ActSize(size + DYN_HEADER_SIZE))
    {
      hide Linked, Next, IsFree, MarkTaken, OthersKept, Inside, Settled, ActSize;
      ptr := 0;
      if size == 0 {
        return;
      }
      ghost var list, r := lists[k], regions[k];
      var need := ActSize(size + DYN_HEADER_SIZE);
      ActSizeRounds(size + DYN_HEADER_SIZE);
      var pblock, minsize := FindFit(need, pstart, k);
      if pblock == 0 {
        return;
      }
      ghost var i := IndexOf(mem, list, r, pblock);
      LinkedAt(mem, list, r, i);
      FreeIsInner(mem, list, r, i);
      LinkedAt(mem, list, r, i + 1);
      MarkLinked(mem, list, r, i);
      MarkKeeps(mem, list, r, i);
      TakenSettled(mem, MarkTaken(mem, pblock), list, i);
      MarkFields(mem, pblock, pblock);
      ghost var m := MarkTaken(mem, pblock);
      mem := MarkTaken(mem, pblock);
      if minsize > need && minsize - need >= DYN_MIN_SPLIT_SIZE {
        CutOff(pblock, need, k, i);
        KeptTwice(old(mem), list, m, list, mem, lists[k], pblock, r);
      }
      ptr := pblock + DYN_HEADER_SIZE;
    }

    // ---- s_init ----

    method CreateBlock(where: word, next: word, prev: word)
      requires where % 8 == 0 && next % 8 == 0 && prev % 8 == 0
      modifies this`mem
      ensures Next(mem, where) == next && Prev(mem, where) == prev && IsFree(mem, where)
      ensures forall x :: x != where && x != where + 4 ==> WordAt(mem, x) == WordAt(old(mem), x)
    {
      PointerBack(0, next);
      PointerBack(0, prev);
      mem := mem[where := next / DYN_SIZE_MULT];
      mem := mem[where + 4 := prev / DYN_SIZE_MULT];
    }

    method InitRegion(r: Region) returns (ghost list: seq<int>)
      requires RegionOk(r)
      modifies this`mem
      ensures Linked(mem, list, r) && Settled(mem, list) && Inside(old(mem), mem, r)
      ensures WholeFree(mem, list, r) && forall a :: !Taken(mem, list, a)
    {
      hide Next, Prev, IsFree, MarkTaken, MarkFree;
      var memspace := r.last - r.first;
      var g1 := r.first;
      var crt := g1 + DYN_SIZE_MULT;
      var g2 := g1 + memspace - DYN_SIZE_MULT;
      CreateBlock(g1, crt, 0);
      ghost var m1 := mem;
      CreateBlock(crt, g2, g1);
      ghost var m2 := mem;
      CreateBlock(g2, 0, crt);
      ghost var m3 := mem;
      mem := MarkTaken(mem, g1);
      mem := MarkTaken(mem, g2);
      mem := MarkFree(mem, crt);
      list := [g1, crt, g2];
      Initialized(m1, m2, m3, mem, g1, crt, g2);
      InitInside(m3, g1, crt, g2);
    }

    method Init()
      requires RegionsOk(regions)
      modifies this`mem, this`lists, this`initialized
      ensures Valid() && initialized && forall a :: !Owned(mem, lists, a)
      ensures forall k :: 0 <= k < |lists| ==> WholeFree(mem, lists[k], regions[k])
    {
      hide Linked, Settled, Inside, WholeFree;
      lists := [];
      var i := 0;
      while i < |regions|
        invariant 0 <= i <= |regions| && |lists| == i
        invariant forall k :: 0 <= k < i ==> Linked(mem, lists[k], regions[k]) && Settled(mem, lists[k]) && forall a ::
                    !Taken(mem, lists[k], a)
        invariant forall k :: 0 <= k < i ==> WholeFree(mem, lists[k], regions[k])
      {
        ghost var m := mem;
        ghost var list := InitRegion(regions[i]);
        forall k | 0 <= k < i
          ensures Linked(mem, lists[k], regions[k]) && Settled(mem, lists[k]) && forall a :: !Taken(mem, lists[k], a)
          ensures WholeFree(mem, lists[k], regions[k])
        {
          StillWhole(m, mem, regions[i], lists[k], regions[k]);
          OtherList(m, mem, regions[i], lists[k], regions[k]);
        }
        lists := lists + [list];
        i := i + 1;
      }
      initialized := true;
    }

    // ---- the allocator's interface ----

    method Smalloc(size: nat) returns (ptr: int)
      requires Valid() && size + 16 < TWO_32
      modifies this`mem, this`lists, this`initialized
      ensures Valid() && initialized
      ensures ptr == 0 ==> size == 0 || forall k :: 0 <= k < |lists| ==>
                NoFit(mem, lists[k], ActSize(size + DYN_HEADER_SIZE))
      ensures ptr == 0 && old(initialized) ==> mem == old(mem) && lists == old(lists)
      ensures ptr != 0 ==>
                && size > 0 && ptr % 8 == 0 && Owned(mem, lists, ptr - 8)
                && Sized(mem, ptr - 8, ActSize(size + DYN_HEADER_SIZE))
      ensures ptr != 0 && old(initialized) ==>
        AllKept(old(mem), old(lists), mem, lists, ptr - 8)
            && FirstFit(old(mem), old(lists), ActSize(size + DYN_HEADER_SIZE), ptr - 8)
            && !Owned(old(mem), old(lists), ptr - 8)
      ensures ptr != 0 && !old(initialized) ==> forall a :: Owned(mem, lists, a) ==> a == ptr - 8
      ensures ptr == 0 && !old(initialized) ==> forall a :: !Owned(mem, lists, a)
      ensures !old(initialized) ==>
                (ptr == 0 <==> size == 0 || forall r :: r in regions ==>
                     r.last - r.first - 16 < ActSize(size + DYN_HEADER_SIZE))
    {
      hide Linked, Settled, NoFit, BestFit, Sized, ActSize, OthersKept, Inside, AllKept, Owned, Taken, WholeFree,
           FirstFit;
      if !initialized {
        Init();
      }
      ghost var m, ls := mem, lists;
      if !old(initialized) { WholeFits(m, ls, regions, ActSize(size + DYN_HEADER_SIZE)); }
      ptr := 0;
      var i := 0;
      while i < |regions|
        invariant 0 <= i <= |regions| && mem == m && lists == ls && ptr == 0 && Valid() && initialized
        invariant size > 0 ==> forall k :: 0 <= k < i ==> NoFit(m, ls[k], ActSize(size + DYN_HEADER_SIZE))
      {
        ptr := GetFreeBlock(size, regions[i].first, i);
        if ptr != 0 {
          Localize(m, ls, regions, mem, lists[i], i, ptr - 8);
          WasFree(m, ls, regions, i, ActSize(size + DYN_HEADER_SIZE), ptr - 8);
          NowOwned(mem, lists, i, ptr - 8);
          KeptFromNone(m, ls, mem, lists, ptr - 8);
          return;
        }
        i := i + 1;
      }
    }

    method Sfree(ptr: int)
      requires Valid() && (ptr != 0 && initialized ==> Owned(mem, lists, ptr - 8))
      modifies this`mem, this`lists
      ensures Valid()
      ensures ptr == 0 || !initialized ==> mem == old(mem) && lists == old(lists)
      ensures ptr != 0 && initialized ==>
                AllKept(old(mem), old(lists), mem, lists, ptr - 8) && !Owned(mem, lists, ptr - 8)
    {
      hide Linked, Settled, OthersKept, Inside, AllKept, Owned, Taken, IsFree, Next;
      if ptr == 0 || !initialized {
        return;
      }
      ghost var k, i := Locate(mem, lists, regions, ptr - 8);
      ghost var m, ls := mem, lists;
      var p := ptr - DYN_HEADER_SIZE;
      CompactFree(p, k, i);
      Localize(m, ls, regions, mem, lists[k], k, p);
      GoneFrom(m, ls, mem, lists, regions, k, p);
    }

    method ShrinkBlock(ptr: int, size0: nat)
      requires Valid() && initialized && Owned(mem, lists, ptr - 8) && size0 <= Next(mem, ptr - 8) - ptr
      modifies this`mem, this`lists
      ensures Valid() && AllKept(old(mem), old(lists), mem, lists, ptr - 8) && Owned(mem, lists, ptr - 8)
      ensures ActSize(size0 + DYN_HEADER_SIZE) <= Next(mem, ptr - 8) - (ptr - 8) < ActSize(size0 + DYN_HEADER_SIZE)
                + DYN_MIN_SPLIT_SIZE
      ensures forall x :: ptr <= x < ptr + size0 ==> WordAt(mem, x) == WordAt(old(mem), x)
    {
      hide Linked, Settled, OthersKept, Inside, AllKept, Owned, Taken, IsFree, Next, ActSize;
      ghost var k, i := Locate(mem, lists, regions, ptr - 8);
      ghost var m, ls := mem, lists;
      var pblock := ptr - DYN_HEADER_SIZE;
      var size := ActSize(size0 + DYN_HEADER_SIZE);
      ActSizeRounds(size0 + DYN_HEADER_SIZE);
      Multiples8(size0, mem, lists[k], regions[k], i);
      var bsize := BlockSize(pblock);
      if size >= bsize || bsize - size < DYN_MIN_SPLIT_SIZE {
        SameAll(m, ls, pblock);
        return;
      }
      CutOff(pblock, size, k, i);
      Localize(m, ls, regions, mem, lists[k], k, pblock);
      NowOwned(mem, lists, k, pblock);
    }

    /** memmove between blocks that do not overlap, word by word. */
    method MoveWords(dst: int, src: int, n: nat)
      requires n % 4 == 0 && (dst + n <= src || src + n <= dst)
      modifies this`mem
      ensures forall i :: 0 <= i < n && i % 4 == 0 ==> WordAt(mem, dst + i) == WordAt(old(mem), src + i)
      ensures forall x :: x < dst || dst + n <= x ==> WordAt(mem, x) == WordAt(old(mem), x)
    {
      var i := 0;
      while i < n
        invariant 0 <= i <= n && i % 4 == 0
        invariant forall j :: 0 <= j < i && j % 4 == 0 ==> WordAt(mem, dst + j) == WordAt(old(mem), src + j)
        invariant forall x :: x < dst || dst + i <= x ==> WordAt(mem, x) == WordAt(old(mem), x)
      {
        mem := mem[dst + i := WordAt(mem, src + i)];
        i := i + 4;
      }
    }

    method Srealloc(ptr: int, size: nat) returns (newptr: int)
      requires Valid() && size + 16 < TWO_32 && (ptr != 0 ==> initialized && Owned(mem, lists, ptr - 8))
      modifies this`mem, this`lists, this`initialized
      ensures Valid() && initialized
      ensures ptr != 0 && size == 0 ==>
                newptr == 0 && AllKept(old(mem), old(lists), mem, lists, ptr - 8) && !Owned(mem, lists, ptr - 8)
      ensures ptr != 0 && size != 0 ==> (newptr == ptr <==> size <= Next(old(mem), ptr - 8) - ptr)
      ensures ptr != 0 && size != 0 && newptr == 0 ==> mem == old(mem) && lists == old(lists)
                                                       && forall k :: 0 <= k < |lists| ==>
                                                            NoFit(mem, lists[k], ActSize(size + DYN_HEADER_SIZE))
      ensures ptr == 0 && old(initialized) ==>
                if newptr == 0 then mem == old(mem) && lists == old(lists)
                else
                  && AllKept(old(mem), old(lists), mem, lists, newptr - 8)
                  && !Owned(old(mem), old(lists), newptr - 8)
      ensures ptr == 0 && newptr == 0 ==>
                size == 0 || forall k :: 0 <= k < |lists| ==> NoFit(mem, lists[k], ActSize(size + DYN_HEADER_SIZE))
      ensures ptr == 0 && !old(initialized) ==> forall a :: Owned(mem, lists, a) ==> newptr != 0 && a == newptr - 8
      ensures ptr == 0 && !old(initialized) ==>
                (newptr == 0 <==> size == 0 || forall r :: r in regions ==>
                     r.last - r.first - 16 < ActSize(size + DYN_HEADER_SIZE))
      ensures newptr != ptr && newptr != 0 ==> size > 0 && Sized(mem, newptr - 8, ActSize(size + DYN_HEADER_SIZE))
      ensures newptr != ptr && newptr != 0 && old(initialized) ==>
                FirstFit(old(mem), old(lists), ActSize(size + DYN_HEADER_SIZE), newptr - 8)
      ensures ptr != 0 && newptr == ptr ==>
                if size < old(Next(mem, ptr - 8) - ptr) then Sized(mem, ptr - 8, ActSize(size + DYN_HEADER_SIZE))
                else mem == old(mem) && lists == old(lists)
      ensures newptr != 0 ==> Owned(mem, lists, newptr - 8) && size <= Next(mem, newptr - 8) - newptr
      ensures ptr != 0 && newptr == ptr ==> AllKept(old(mem), old(lists), mem, lists, ptr - 8)
                                            && forall x :: ptr <= x < ptr + size && x < Next(old(mem), ptr - 8) ==>
                                                 WordAt(mem, x) == WordAt(old(mem), x)
      ensures ptr != 0 && newptr != 0 && newptr != ptr ==>
        && Replaced(old(mem), old(lists), mem, lists, ptr - 8, newptr - 8)
        && forall i :: 0 <= i < Next(old(mem), ptr - 8) - ptr && i % 4 == 0 ==>
             WordAt(mem, newptr + i) == WordAt(old(mem), ptr + i)
    {
      hide Linked, Settled, OthersKept, Inside, AllKept, Owned, Taken, IsFree, Next, ActSize, NoFit, FirstFit,
           RegionsOk, Replaced, WholeFree;
      if !initialized {
        Init();
      }
      if ptr == 0 {
        ghost var m, ls := mem, lists;
        if !old(initialized) { WholeFits(m, ls, regions, ActSize(size + DYN_HEADER_SIZE)); }
        newptr := Smalloc(size);
        if newptr != 0 {
          ActSizeRounds(size + DYN_HEADER_SIZE);
          NoneButNew(m, ls, mem, lists, newptr - 8);
        }
        return;
      } else if size == 0 {
        Sfree(ptr);
        return 0;
      }
      ghost var m0, l0 := mem, lists;
      ghost var k, i := Locate(mem, lists, regions, ptr - 8);
      var actual := BlockSize(ptr - DYN_HEADER_SIZE);
      actual := actual - DYN_HEADER_SIZE;
      if actual == size {
        SameAll(mem, lists, ptr - 8);
        newptr := ptr;
      } else if size < actual {
        ActSizeRounds(size + DYN_HEADER_SIZE);
        ShrinkBlock(ptr, size);
        newptr := ptr;
      } else {
        newptr := Smalloc(size);
        if newptr == 0 {
          return;
        }
        ActSizeRounds(size + DYN_HEADER_SIZE);
        newptr := MoveOver(ptr, newptr, actual, m0, l0);
      }
    }

    /** The end of srealloc for a block that moves: copy, then free the old block. */
    method MoveOver(ptr: int, dest: int, actual: nat, ghost m0: Memory, ghost l0: seq<seq<int>>) returns (newptr: int)
      requires Valid() && initialized && AllKept(m0, l0, mem, lists, dest - 8) && Owned(m0, l0, ptr - 8)
               && !Owned(m0, l0, dest - 8)
      requires Owned(mem, lists, dest - 8) && actual == Next(m0, ptr - 8) - ptr && actual <= Next(mem, dest - 8) - dest
      modifies this`mem, this`lists
      ensures Valid() && newptr == dest && Owned(mem, lists, dest - 8)
              && Next(mem, dest - 8) == Next(old(mem), dest - 8)
      ensures Replaced(m0, l0, mem, lists, ptr - 8, dest - 8)
      ensures forall i :: 0 <= i < actual && i % 4 == 0 ==> WordAt(mem, dest + i) == WordAt(m0, ptr + i)
    {
      hide Linked, Settled, OthersKept, Inside, AllKept, Taken, IsFree, Next, AllOk, RegionsOk, Owned;
      ghost var m1, l1 := mem, lists;
      OldIntact(m0, l0, m1, l1, ptr - 8, dest - 8);
      TwoBlocks(m1, l1, regions, ptr - 8, dest - 8);
      MoveWords(dest, ptr, actual);
      ghost var m2 := mem;
      PayloadWrites(m1, m2, l1, regions, dest - 8);
      KeptOne(m1, l1, m2, l1, dest - 8, ptr - 8);
      ghost var k, i := Locate(m2, l1, regions, ptr - 8);
      Sfree(ptr);
      newptr := dest;
      MovedOver(m0, l0, m1, l1, m2, mem, lists, ptr - 8, dest - 8);
      assert Intact(m2, mem, lists, dest - 8) by { KeptOne(m2, l1, mem, lists, ptr - 8, dest - 8); }
    }
  }

  /** Between its guards the region is one free block. */
  ghost predicate WholeFree(mem: Memory, list: seq<int>, r: Region) {
    list == [r.first, r.first + 8, r.last - 8] && IsFree(mem, r.first + 8)
  }

  lemma StillWhole(mem: Memory, m: Memory, r: Region, list: seq<int>, q: Region)
    requires Inside(mem, m, r) && Linked(mem, list, q) && WholeFree(mem, list, q)
             && (q.last <= r.first || r.last <= q.first)
    ensures WholeFree(m, list, q)
  {
  }

  /** In a region that is one free block, that block is the only fit. */
  lemma WholeFits(mem: Memory, lists: seq<seq<int>>, rs: seq<Region>, need: nat)
    requires |lists| == |rs| && forall k :: 0 <= k < |rs| ==> Linked(mem, lists[k], rs[k])
    requires forall k :: 0 <= k < |rs| ==> WholeFree(mem, lists[k], rs[k])
    ensures (forall k :: 0 <= k < |lists| ==> NoFit(mem, lists[k], need)) <==>
              forall r :: r in rs ==> r.last - r.first - 16 < need
    ensures forall a :: FirstFit(mem, lists, need, a) ==> !(forall k :: 0 <= k < |lists| ==> NoFit(mem, lists[k], need))
  {
    hide Linked, IsFree, Next, WholeFree;
    forall k | 0 <= k < |rs|
      ensures NoFit(mem, lists[k], need) <==> rs[k].last - rs[k].first - 16 < need
    {
      WholeFit(mem, lists[k], rs[k], need);
    }
  }

  lemma WholeFit(mem: Memory, list: seq<int>, r: Region, need: nat)
    requires Linked(mem, list, r) && WholeFree(mem, list, r)
    ensures NoFit(mem, list, need) <==> r.last - r.first - 16 < need
  {
    hide IsFree, Next;
    assert Next(mem, list[1]) == list[2] && FreeBlock(mem, list, list[1]);
    forall a | FreeBlock(mem, list, a)
      ensures a == list[1]
    {
    }
  }

  lemma NoneButNew(mem: Memory, lists: seq<seq<int>>, m: Memory, lists': seq<seq<int>>, a: int)
    requires AllKept(mem, lists, m, lists', a)
    ensures (forall c :: !Owned(mem, lists, c)) ==> forall c :: Owned(m, lists', c) ==> c == a
  {
    hide Owned;
  }

  /** The block at a was given up for the one at b, which nobody had; all other blocks are intact. */
  ghost predicate Replaced(mem: Memory, lists: seq<seq<int>>, m: Memory, lists': seq<seq<int>>, a: int, b: int) {
    && a != b && Owned(mem, lists, a) && !Owned(mem, lists, b) && Owned(m, lists', b) && !Owned(m, lists', a)
    && (forall c :: Owned(mem, lists, c) && c != a ==> Intact(mem, m, lists', c))
    && (forall c :: Owned(m, lists', c) && c != b ==> Owned(mem, lists, c))
  }

  /** The block is a best fit of its region, and no region before that one has a fit. */
  ghost predicate FirstFit(mem: Memory, lists: seq<seq<int>>, need: nat, a: int) {
    exists k :: 0 <= k < |lists| && BestFit(mem, lists[k], need, a)
        && forall j :: 0 <= j < k ==> NoFit(mem, lists[j], need)
  }

  /** No free block of the list has the size. */
  ghost predicate NoFit(mem: Memory, list: seq<int>, need: nat) {
    forall a :: FreeBlock(mem, list, a) ==> Next(mem, a) - a < need
  }

  /** A smallest free block of those that are large enough. */
  ghost predicate BestFit(mem: Memory, list: seq<int>, need: nat, a: int) {
    && FreeBlock(mem, list, a) && need <= Next(mem, a) - a
    && forall b :: FreeBlock(mem, list, b) && need <= Next(mem, b) - b ==> Next(mem, a) - a <= Next(mem, b) - b
  }

  /** The block has the size asked for, or too little more to split. */
  ghost predicate Sized(mem: Memory, a: int, need: nat) { need <= Next(mem, a) - a < need + DYN_MIN_SPLIT_SIZE }

  lemma MarkSettled(mem: Memory, m: Memory, list: seq<int>, i: nat)
    requires SettledBut(mem, list, i) && forall k :: 0 <= k < |list| && k != i ==>
               (IsFree(m, list[k]) <==> IsFree(mem, list[k]))
    ensures SettledBut(m, list, i)
  {
    hide IsFree;
  }

  /** If the free run is block i alone, there is nothing to join. */
  lemma NothingToJoin(mem: Memory, list: seq<int>, r: Region, i: nat, lo: nat, hi: nat)
    requires Linked(mem, list, r) && FreeRun(mem, list, lo, hi) && lo <= i < hi && list[lo] == list[i]
             && Prev(mem, list[hi]) == list[i]
    ensures lo == i && hi == i + 1
  {
    hide Linked, IsFree, Prev;
    InOrder(mem, list, r, lo, i);
    LinkedAt(mem, list, r, hi);
    InOrder(mem, list, r, i, hi - 1);
  }

  /** The end of s_compact_free, with or without the two writes. */
  lemma Compacted(m: Memory, list: seq<int>, r: Region, i: nat, lo: nat, hi: nat, joins: bool)
    requires Linked(m, list, r) && SettledBut(m, list, i) && FreeRun(m, list, lo, hi) && lo <= i < hi
             && (!joins ==> lo == i && hi == i + 1)
    ensures 0 <= list[lo] < TWO_32 && 0 <= list[hi] < TWO_32
    ensures var n := if joins then Join(m, list[lo], list[hi]) else m;
            var l := Joined(list, lo, hi);
            Linked(n, l, r) && Settled(n, l) && OthersKept(m, list, n, l, list[i]) && Inside(m, n, r)
                && !Taken(n, l, list[i])
  {
    hide Linked, IsFree, Prev, Next, Join, Inside, OthersKept, Settled;
    JoinLinked(m, list, r, lo, hi);
    if joins {
      JoinKeeps(m, list, r, lo, hi, list[i]);
      var n := Join(m, list[lo], list[hi]);
      forall k | 0 <= k < |list|
        ensures IsFree(n, list[k]) <==> IsFree(m, list[k])
      {
        JoinFields(m, list, r, lo, hi, k);
      }
      JoinSettled(m, n, list, i, lo, hi);
    } else {
      assert Joined(list, lo, hi) == list;
      JoinSettled(m, m, list, i, lo, hi);
      SameKept(m, list, r, list[i]);
    }
  }

  lemma SameKept(m: Memory, list: seq<int>, r: Region, ptr: int)
    ensures OthersKept(m, list, m, list, ptr) && Inside(m, m, r)
  {
  }

  /** What holds right after the four writes of a cut. */
  lemma CutOk(mem: Memory, list: seq<int>, r: Region, i: nat, t: int)
    requires CutSpot(mem, list, r, i, t) && Settled(mem, list) && !IsFree(mem, list[i])
    ensures 0 <= list[i] < TWO_32 && 0 <= t < TWO_32 && 0 <= list[i + 1] < TWO_32
    ensures var m := Cut(mem, list[i], t, list[i + 1]);
            var l := Split(list, i, t);
            && Linked(m, l, r) && SettledBut(m, l, i + 1) && Inside(mem, m, r) && CutKept(mem, list, m, l, list[i], t)
            && Next(m, list[i]) == t
            && Taken(mem, list, list[i])
    ensures t !in list
  {
    NotABlock(mem, list, r, i, t);
    CutLinked(mem, list, r, i, t);
    CutKeeps(mem, list, r, i, t);
    SplitIn(list, i, t);
    SpotIndex(mem, list, r, i, t);
    InOrder(mem, list, r, 0, i);
    InOrder(mem, list, r, i, |list| - 1);
    hide Next, Prev, IsFree, Cut, Linked, CutKept, Inside;
    CutSettled(mem, Cut(mem, list[i], t, list[i + 1]), list, i, t);
  }

  lemma NotABlock(mem: Memory, list: seq<int>, r: Region, i: nat, t: int)
    requires CutSpot(mem, list, r, i, t)
    ensures t !in list
  {
    hide Linked;
    forall j | 0 <= j < |list|
      ensures list[j] != t
    {
      InOrder(mem, list, r, j, i);
      InOrder(mem, list, r, i + 1, j);
    }
  }

  lemma CutSettled(mem: Memory, m: Memory, list: seq<int>, i: nat, t: int)
    requires Settled(mem, list) && i < |list| - 1
             && forall k :: 0 <= k < |list| ==> (IsFree(m, list[k]) <==> IsFree(mem, list[k]))
    ensures SettledBut(m, Split(list, i, t), i + 1)
  {
    hide IsFree;
    var l := Split(list, i, t);
    forall k | 0 <= k < |l| - 1 && k != i + 1 && k != i
      ensures !IsFree(m, l[k]) || !IsFree(m, l[k + 1])
    {
      if k < i {
        assert l[k] == list[k] && l[k + 1] == list[k + 1];
      } else {
        assert l[k] == list[k - 1] && l[k + 1] == list[k];
      }
    }
  }

  /** A cut, and then the new block is freed. */
  lemma CutThenFreed(mem: Memory, list: seq<int>, r: Region, m: Memory, l: seq<int>, n: Memory, k: seq<int>, a: int,
          t: int)
    requires CutKept(mem, list, m, l, a, t) && OthersKept(m, l, n, k, t) && !Taken(n, k, t) && Inside(mem, m, r)
             && Inside(m, n, r)
    requires Taken(mem, list, a) && Next(m, a) == t && a != t && t !in list
    ensures OthersKept(mem, list, n, k, a) && Inside(mem, n, r) && Taken(n, k, a) && Next(n, a) == t
    ensures forall x :: a + 8 <= x < t ==> WordAt(n, x) == WordAt(mem, x)
  {
    assert forall b :: Taken(mem, list, b) ==> b in list;
    hide Taken, Next;
    forall b | Taken(mem, list, b) && b != a
      ensures Undisturbed(mem, n, k, b)
    {
      assert Undisturbed(mem, m, l, b);
      assert Undisturbed(m, n, k, b);
    }
    assert Undisturbed(m, n, k, a);
  }

  lemma FirstIs(mem: Memory, list: seq<int>, r: Region)
    requires Linked(mem, list, r)
    ensures |list| >= 3 && list[0] == r.first
  {
  }

  /** The walk ends behind the last guard and nowhere else. */
  lemma EndsAt(mem: Memory, list: seq<int>, r: Region, i: nat)
    requires Linked(mem, list, r) && i <= |list| && (i < |list| ==> list[i] == 0)
    ensures i == |list|
  {
    hide Linked;
    if i < |list| { LinkedAt(mem, list, r, i); }
  }

  lemma FreeIsInner(mem: Memory, list: seq<int>, r: Region, i: nat)
    requires Linked(mem, list, r) && i < |list| && IsFree(mem, list[i])
    ensures 1 <= i < |list| - 1
  {
    hide IsFree;
  }

  lemma TakenSettled(mem: Memory, m: Memory, list: seq<int>, i: nat)
    requires Settled(mem, list) && i < |list| && !IsFree(m, list[i])
    requires forall k :: 0 <= k < |list| && k != i ==> (IsFree(m, list[k]) <==> IsFree(mem, list[k]))
    ensures Settled(m, list)
  {
    hide IsFree;
  }

  lemma SameWords(mem: Memory, m: Memory, a: int)
    requires WordAt(m, a) == WordAt(mem, a) && WordAt(m, a + 4) == WordAt(mem, a + 4)
    ensures Next(m, a) == Next(mem, a) && Prev(m, a) == Prev(mem, a)
  {
  }

  /** The header fields after s_init's writes. */
  lemma Initialized(m1: Memory, m2: Memory, m3: Memory, m: Memory, g1: int, crt: int, g2: int)
    requires g1 % 8 == 0 && crt == g1 + 8 && g2 % 8 == 0 && crt + 8 <= g2
    requires Next(m1, g1) == crt && Prev(m1, g1) == 0 && Next(m2, crt) == g2 && Prev(m2, crt) == g1
    requires Next(m3, g2) == 0 && Prev(m3, g2) == crt
    requires forall x :: x != crt && x != crt + 4 ==> WordAt(m2, x) == WordAt(m1, x)
    requires forall x :: x != g2 && x != g2 + 4 ==> WordAt(m3, x) == WordAt(m2, x)
    requires m == MarkFree(MarkTaken(MarkTaken(m3, g1), g2), crt)
    ensures Next(m, g1) == crt && Prev(m, crt) == g1 && Next(m, crt) == g2 && Prev(m, g2) == crt && Next(m, g2) == 0
    ensures !IsFree(m, g1) && IsFree(m, crt) && !IsFree(m, g2)
  {
    hide Next, Prev, IsFree, MarkTaken, MarkFree, WordAt;
    SameWords(m1, m2, g1);
    SameWords(m2, m3, g1);
    SameWords(m2, m3, crt);
    var n1 := MarkTaken(m3, g1);
    var n2 := MarkTaken(n1, g2);
    forall x | x == g1 || x == crt || x == g2
      ensures Next(m, x) == Next(m3, x) && Prev(m, x) == Prev(m3, x) && (IsFree(m, x) <==> x == crt)
    {
      MarkFields(m3, g1, x);
      MarkFields(n1, g2, x);
      MarkFields(n2, crt, x);
    }
  }

  lemma InitInside(m3: Memory, g1: int, crt: int, g2: int)
    ensures forall x :: x != g1 && x != crt && x != g2 ==>
              WordAt(MarkFree(MarkTaken(MarkTaken(m3, g1), g2), crt), x) == WordAt(m3, x)
  {
  }

  lemma NowOwned(mem: Memory, lists: seq<seq<int>>, k: nat, a: int)
    requires k < |lists| && Taken(mem, lists[k], a)
    ensures Owned(mem, lists, a)
  {
    hide Taken;
  }

  lemma SameAll(mem: Memory, lists: seq<seq<int>>, a: int)
    ensures AllKept(mem, lists, mem, lists, a)
  {
    hide Taken;
  }

  /** Where a caller's block is. */
  lemma Locate(mem: Memory, lists: seq<seq<int>>, rs: seq<Region>, a: int) returns (k: nat, i: nat)
    requires AllOk(mem, lists, rs) && Owned(mem, lists, a)
    ensures k < |rs| && Linked(mem, lists[k], rs[k]) && Settled(mem, lists[k]) && 1 <= i < |lists[k]| - 1
            && lists[k][i] == a
    ensures !IsFree(mem, a) && Taken(mem, lists[k], a) && SettledBut(mem, lists[k], i) && 0 < a < TWO_32 && a % 8 == 0
    ensures Next(mem, a) == lists[k][i + 1] && a + 8 <= Next(mem, a) < TWO_32
  {
    hide Linked, IsFree, Next;
    k :| 0 <= k < |lists| && Taken(mem, lists[k], a);
    i := IndexOf(mem, lists[k], rs[k], a);
    LinkedAt(mem, lists[k], rs[k], i);
    LinkedAt(mem, lists[k], rs[k], i + 1);
  }

  /** A free block is nobody's. */
  lemma WasFree(mem: Memory, lists: seq<seq<int>>, rs: seq<Region>, k: nat, need: nat, a: int)
    requires RegionsOk(rs) && AllOk(mem, lists, rs) && k < |rs| && BestFit(mem, lists[k], need, a)
    ensures !Owned(mem, lists, a) && a % 8 == 0
    ensures (forall j :: 0 <= j < k ==> NoFit(mem, lists[j], need)) ==> FirstFit(mem, lists, need, a)
  {
    hide Linked, Settled, IsFree, Next, NoFit;
    var i := IndexOf(mem, lists[k], rs[k], a);
    assert !Taken(mem, lists[k], a);
    OneRegion(mem, lists, rs, k, a);
    assert BestFit(mem, lists[k], need, a);
  }

  lemma KeptFromNone(mem: Memory, lists: seq<seq<int>>, m: Memory, lists': seq<seq<int>>, ptr: int)
    requires AllKept(mem, lists, m, lists', ptr)
    ensures (forall a :: !Owned(mem, lists, a)) ==> forall a :: Owned(m, lists', a) ==> a == ptr
  {
    hide Owned;
  }

  /** A freed block is nobody's: it was in one region only. */
  lemma GoneFrom(mem: Memory, lists: seq<seq<int>>, m: Memory, lists': seq<seq<int>>, rs: seq<Region>, k: nat, a: int)
    requires RegionsOk(rs) && AllOk(mem, lists, rs) && AllOk(m, lists', rs) && k < |rs| && Taken(mem, lists[k], a)
             && !Taken(m, lists'[k], a)
    requires forall j :: 0 <= j < |rs| && j != k ==> lists'[j] == lists[j]
    ensures !Owned(m, lists', a)
  {
    hide Linked, Settled, IsFree;
    var i := IndexOf(mem, lists[k], rs[k], a);
    if j :| 0 <= j < |lists'| && Taken(m, lists'[j], a) {
      var i' := IndexOf(m, lists'[j], rs[j], a);
    }
  }

  /** The new size is no larger than the old one, both being multiples of 8. */
  lemma Multiples8(size0: nat, mem: Memory, list: seq<int>, r: Region, i: nat)
    requires Linked(mem, list, r) && 1 <= i < |list| - 1 && size0 + 8 <= list[i + 1] - list[i]
    ensures ActSize(size0 + DYN_HEADER_SIZE) <= list[i + 1] - list[i]
  {
    hide Linked, ActSize;
    LinkedAt(mem, list, r, i);
    LinkedAt(mem, list, r, i + 1);
    ActSizeRounds(size0 + DYN_HEADER_SIZE);
    Difference8(list[i + 1], list[i]);
    BelowMultiple(size0 + DYN_HEADER_SIZE, ActSize(size0 + DYN_HEADER_SIZE), list[i + 1] - list[i]);
  }

  lemma Difference8(a: int, b: int)
    requires a % 8 == 0 && b % 8 == 0 && b <= a
    ensures (a - b) % 8 == 0
  {
    assert a == 8 * (a / 8) && b == 8 * (b / 8);
    Eighth(a / 8 - b / 8, 0);
  }

  lemma KeptOne(mem: Memory, lists: seq<seq<int>>, m: Memory, lists': seq<seq<int>>, ptr: int, a: int)
    requires AllKept(mem, lists, m, lists', ptr) && Owned(mem, lists, a) && a != ptr
    ensures Intact(mem, m, lists', a)
  {
    hide Owned, Next;
  }

  lemma OldIntact(mem: Memory, lists: seq<seq<int>>, m: Memory, lists': seq<seq<int>>, a: int, b: int)
    requires AllKept(mem, lists, m, lists', b) && Owned(mem, lists, a) && !Owned(mem, lists, b)
    ensures a != b && Intact(mem, m, lists', a)
  {
    hide Owned, Next;
  }

  /** Two blocks of callers do not overlap, and payloads are whole words. */
  lemma TwoBlocks(mem: Memory, lists: seq<seq<int>>, rs: seq<Region>, a: int, b: int)
    requires RegionsOk(rs) && AllOk(mem, lists, rs) && Owned(mem, lists, a) && Owned(mem, lists, b) && a != b
    ensures Next(mem, a) <= b || Next(mem, b) <= a
    ensures (Next(mem, a) - a) % 8 == 0 && (Next(mem, a) - a - 8) % 4 == 0 && a + 8 <= Next(mem, a)
  {
    hide Linked, IsFree, Settled, Next, RegionsOk;
    var k, i := Locate(mem, lists, rs, a);
    var k', i' := Locate(mem, lists, rs, b);
    LinkedAt(mem, lists[k], rs[k], i + 1);
    LinkedAt(mem, lists[k'], rs[k'], i' + 1);
    LinkedAt(mem, lists[k], rs[k], i);
    LinkedAt(mem, lists[k'], rs[k'], i');
    EightApart(a, Next(mem, a));
    if k == k' {
      InOrder(mem, lists[k], rs[k], i + 1, i');
      InOrder(mem, lists[k], rs[k], i' + 1, i);
    } else {
      RegionsApart(rs, k, k');
    }
  }

  lemma RegionsApart(rs: seq<Region>, j: nat, k: nat)
    requires RegionsOk(rs) && j < |rs| && k < |rs| && j != k
    ensures rs[j].last <= rs[k].first || rs[k].last <= rs[j].first
  {
  }

  lemma EightApart(a: int, b: int)
    requires a % 8 == 0 && b % 8 == 0
    ensures (b - a) % 8 == 0 && (b - a - 8) % 4 == 0
  {
    MultipleOf8(a);
    MultipleOf8(b);
    FourTimes(b / 8 - a / 8);
  }

  lemma MultipleOf8(a: int)
    requires a % 8 == 0
    ensures a == 8 * (a / 8)
  {
  }

  lemma FourTimes(q: int)
    ensures (8 * q) % 8 == 0 && (8 * q - 8) % 4 == 0
  {
    assert 8 * q - 8 == 4 * (2 * q - 2);
  }

  /** Writes into the payload of one block disturb nobody else. */
  lemma PayloadWrites(mem: Memory, m: Memory, lists: seq<seq<int>>, rs: seq<Region>, a: int)
    requires RegionsOk(rs) && AllOk(mem, lists, rs) && Owned(mem, lists, a)
    requires forall x :: x < a + 8 || Next(mem, a) <= x ==> WordAt(m, x) == WordAt(mem, x)
    ensures AllOk(m, lists, rs) && AllKept(mem, lists, m, lists, a) && Owned(m, lists, a) && Next(m, a) == Next(mem, a)
  {
    var k, i := Locate(mem, lists, rs, a);
    var list, r := lists[k], rs[k];
    forall j | 0 <= j < |list|
      ensures Next(m, list[j]) == Next(mem, list[j]) && Prev(m, list[j]) == Prev(mem, list[j])
              && (IsFree(m, list[j]) <==> IsFree(mem, list[j]))
    {
      hide Next, Prev, IsFree, Linked;
      PayloadFree(mem, m, list, r, a, i, j);
    }
    hide Next, Prev, IsFree, Linked;
    LinkedAt(mem, list, r, 0);
    LinkedAt(mem, list, r, |list| - 1);
    LinkedFrame(mem, m, list, r);
    PayloadKeeps(mem, m, list, r, i);
    assert lists[k := list] == lists;
    Localize(mem, lists, rs, m, list, k, a);
    NowOwned(m, lists, k, a);
  }

  /** No header word of the region was among those written. */
  lemma PayloadFree(mem: Memory, m: Memory, list: seq<int>, r: Region, a: int, i: nat, j: nat)
    requires Linked(mem, list, r) && 1 <= i < |list| - 1 && list[i] == a && j < |list|
    requires forall x :: x < a + 8 || Next(mem, a) <= x ==> WordAt(m, x) == WordAt(mem, x)
    ensures Next(m, list[j]) == Next(mem, list[j]) && Prev(m, list[j]) == Prev(mem, list[j])
            && (IsFree(m, list[j]) <==> IsFree(mem, list[j]))
  {
    LinkedAt(mem, list, r, i);
    InOrder(mem, list, r, j, i);
    InOrder(mem, list, r, i + 1, j);
    assert WordAt(m, list[j]) == WordAt(mem, list[j]) && WordAt(m, list[j] + 4) == WordAt(mem, list[j] + 4);
    hide Linked, WordAt;
  }

  lemma PayloadKeeps(mem: Memory, m: Memory, list: seq<int>, r: Region, i: nat)
    requires Linked(mem, list, r) && Linked(m, list, r) && 1 <= i < |list| - 1 && Settled(mem, list)
    requires forall x :: x < list[i] + 8 || Next(mem, list[i]) <= x ==> WordAt(m, x) == WordAt(mem, x)
    requires forall j :: 0 <= j < |list| ==>
               Next(m, list[j]) == Next(mem, list[j]) && (IsFree(m, list[j]) <==> IsFree(mem, list[j]))
    ensures OthersKept(mem, list, m, list, list[i]) && Inside(mem, m, r) && Settled(m, list)
    ensures Taken(mem, list, list[i]) ==> Taken(m, list, list[i])
  {
    hide Linked, IsFree, Next;
    LinkedAt(mem, list, r, i);
    LinkedAt(mem, list, r, i + 1);
    forall b | b in list && b != list[i]
      ensures Taken(mem, list, b) ==> Undisturbed(mem, m, list, b)
      ensures Taken(m, list, b) ==> Taken(mem, list, b)
    {
      var j := IndexOf(mem, list, r, b);
      LinkedAt(mem, list, r, j);
      InOrder(mem, list, r, i + 1, j);
      InOrder(mem, list, r, j, i);
      if j < i { LinkedAt(mem, list, r, j + 1); InOrder(mem, list, r, j + 1, i); }
    }
  }

  lemma MovedOver(m0: Memory, l0: seq<seq<int>>, m1: Memory, l1: seq<seq<int>>, m2: Memory, m3: Memory,
          l3: seq<seq<int>>, a: int, b: int)
    requires a != b && Owned(m0, l0, a) && !Owned(m0, l0, b) && Owned(m2, l1, b)
    requires AllKept(m0, l0, m1, l1, b) && AllKept(m1, l1, m2, l1, b) && AllKept(m2, l1, m3, l3, a) && !Owned(m3, l3, a)
    ensures Replaced(m0, l0, m3, l3, a, b)
  {
    hide Owned, Next;
    forall c | Owned(m0, l0, c) && c != a
      ensures Intact(m0, m3, l3, c)
    {
      assert Intact(m0, m1, l1, c);
      assert Intact(m1, m2, l1, c);
      assert Intact(m2, m3, l3, c);
    }
    assert Intact(m2, m3, l3, b);
  }

  /** Blocks tile their region: each byte from guard to guard lies in exactly one of them. */
  lemma {:induction false} Tiling(mem: Memory, list: seq<int>, r: Region, x: int, from: nat) returns (i: nat)
    requires Linked(mem, list, r) && from < |list| && list[from] <= x < r.last - 8
    ensures i < |list| - 1 && list[i] <= x < list[i + 1]
    ensures forall j :: 0 <= j < |list| - 1 && list[j] <= x < list[j + 1] ==> j == i
    decreases |list| - from
  {
    hide Linked, Next, Prev, IsFree;
    LastGuard(mem, list, r);
    if x < list[from + 1] {
      i := from;
      forall j | 0 <= j < |list| - 1 && list[j] <= x < list[j + 1]
        ensures j == i
      {
        InOrder(mem, list, r, j + 1, i);
        InOrder(mem, list, r, i + 1, j);
      }
    } else {
      i := Tiling(mem, list, r, x, from + 1);
    }
  }

  lemma LastGuard(mem: Memory, list: seq<int>, r: Region)
    requires Linked(mem, list, r)
    ensures |list| >= 3 && list[0] == r.first && list[|list| - 1] == r.last - 8
  {
  }
}
