/** dlmalloc: malloc, free and in-place realloc over the bins and the boundary tags. */
module Malloc {
  import opened Bytes
  import opened Words
  import opened Maps
  import opened BinMaps
  import opened TreeIndex
  import opened TrieKeys
  import opened TreeBins
  import opened TreeFit
  import opened Tries
  import TreeTable
  import opened SmallBins
  import opened Layouts
  import opened Writes
  import opened Segments
  import opened HeapState
  import opened HeapSteps
  import opened HeapFrees
  import opened HeapResizes
  import opened HeapGrowth
  import opened HeapSegments
  import opened Sbrk
  import opened Payloads
  import Calloc

  const MIN_LARGE_SIZE := 256
  const MIN_REQUEST := 11
  const MAX_SMALL_REQUEST := 244
  const MAX_REQUEST := 0xFFFF_FFC0
  const GRANULARITY := 256
  const SYS_ALLOC_PADDING := 48
  const HALF_MAX_SIZE_T := 0x7FFF_FFFF

  function Wrap(x: nat): word { x % TWO_32 }

  function GranularityAlign(s: word): word { Wrap(s + 255) - Wrap(s + 255) % GRANULARITY }

  lemma Wrapped(x: nat)
    ensures x < TWO_32 ==> Wrap(x) == x
    ensures TWO_32 <= x < 2 * TWO_32 ==> Wrap(x) == x - TWO_32
  {
  }

  lemma Times256(k: nat)
    ensures 256 * k % 256 == 0 && 256 * k % 8 == 0
  {
    DivUnique(256 * k, 256, k, 0);
    DivUnique(256 * k, 8, 32 * k, 0);
  }

  lemma RoundedDown(t: nat)
    ensures (t - t % GRANULARITY) % GRANULARITY == 0 && (t - t % GRANULARITY) % 8 == 0
  {
    var k := t / 256;
    assert t - t % 256 == 256 * k;
    Times256(k);
  }

  lemma GranularityAligned(s: word)
    ensures GranularityAlign(s) % GRANULARITY == 0 && GranularityAlign(s) % 8 == 0
    ensures s + 255 < TWO_32 ==> s <= GranularityAlign(s) <= s + 255
    ensures s + 255 >= TWO_32 ==> GranularityAlign(s) == 0
  {
    Wrapped(s + 255);
    RoundedDown(Wrap(s + 255));
    hide Wrap;
  }

  /** The bytes to add to reach a multiple of 8. */
  function AlignOffset(a: int): nat { if a % 8 == 0 then 0 else 8 - a % 8 }

  function PadRequest(bytes: word): word { Wrap(bytes + 11) - Wrap(bytes + 11) % 8 }

  /** The chunk size that serves a request. */
  function Request2Size(bytes: word): word { if bytes < MIN_REQUEST then MIN_CHUNK_SIZE else PadRequest(bytes) }

  /** It is the least legal chunk size with room for the bytes and one header word. */
  lemma RequestFits(bytes: word)
    requires bytes < MAX_REQUEST
    ensures var nb := Request2Size(bytes);
            nb % 8 == 0 && MIN_CHUNK_SIZE <= nb && bytes + 4 <= nb && (nb == MIN_CHUNK_SIZE || nb < bytes + 12)
    ensures bytes <= MAX_SMALL_REQUEST <==> Request2Size(bytes) < MIN_LARGE_SIZE
  {
    Wrapped(bytes + 11);
    var t := bytes + 11;
    assert t == 8 * (t / 8) + t % 8;
  }

  function Mem2Chunk(mem: int): int { mem - 8 }

  function Chunk2Mem(p: int): int { p + 8 }

  predicate IsInUse(w: word) { CInUse(w) || !PInUse(w) }

  function FootAt(foot: map<int, nat>, p: int): nat { if p in foot then foot[p] else 0 }

  predicate IsSmall(s: nat) { s / 8 < NSMALLBINS }

  /** The two kinds of bins hold different chunks, split by size. */
  ghost predicate SplitBySize(small: map<int, nat>, tree: map<int, nat>) {
    && (forall a :: a in small ==> small[a] < MIN_LARGE_SIZE && a !in tree)
    && forall a :: a in tree ==> MIN_LARGE_SIZE <= tree[a] < TWO_32
  }

  /** Before the first memory is obtained there is nothing. */
  ghost predicate Untouched(h: Layout, b: map<int, nat>, dv: int, dvsize: nat, top: int, topsize: nat, segs: seq<Seg>) {
    h.chunks == {} && h.lasts == [] && h.ends == [] && h.pinned == {} && b == map[] && dv == 0 && dvsize == 0
        && top == 0 && topsize == 0 && segs == []
  }

  ghost predicate Held(segs: seq<Seg>, rs: seq<Region>, index: nat, ptr: int) {
    forall k :: 0 <= k < |segs| ==> segs[k].size > 0 && AllGiven(rs, index, ptr, segs[k].base, segs[k].size)
  }

  /** No request of this size can make elua_sbrk's pointer wrap around. */
  ghost predicate Reachable(rs: seq<Region>, nb: nat) {
    Unwrapped(rs, nb + 1024) || Unwrapped(rs, HALF_MAX_SIZE_T)
  }

  /** When elua_sbrk cannot extend the top segment and the block it gives instead is too small, sys_alloc asks
      for the rest and takes for granted that it follows that block. A caller can tell from the regions: the first one
      with room for the block extends top, or has room for the rest as well, or no region behind it has. */
  ghost predicate Joins(rs: seq<Region>, index: nat, ptr: int, end: int, topsize: nat, nb: nat)
    requires topsize <= nb && nb + SYS_ALLOC_PADDING < TWO_32
  {
    var ssize := GranularityAlign(nb - topsize + SYS_ALLOC_PADDING);
    ssize < HALF_MAX_SIZE_T ==>
      forall i :: FirstRoom(rs, index, ptr, ssize, i) && StartIn(rs, index, ptr, i) != end ==>
        Follows(rs, i, StartIn(rs, index, ptr, i) + ssize, ssize, nb)
  }

  /** What a block of ssize bytes lacks fits behind it in its region, which it fills up to ptr, or in none behind. */
  ghost predicate Follows(rs: seq<Region>, index: nat, ptr: int, ssize: nat, nb: nat)
    requires index < |rs| && nb + SYS_ALLOC_PADDING < TWO_32
  {
    ssize < nb + SYS_ALLOC_PADDING ==>
      var esize := GranularityAlign(nb + SYS_ALLOC_PADDING - ssize);
      esize < HALF_MAX_SIZE_T && (ptr + esize <= rs[index].last || NoneBehind(rs, index, esize))
  }

  /** What is added to the first request so that the memory ends on a page boundary. */
  function PageExtra(base: int): nat { if IsPageAligned(base) then 0 else PageGap(base) }

  /** The first memory is obtained: the heap pointer tells where it would begin, and the request is made longer to end
      on a page boundary; only if that makes it too long is the request made as it is. */
  ghost predicate FirstGrant(rs: seq<Region>, index: nat, ptr: int, asize: nat) {
    exists i: nat :: FirstRoom(rs, index, ptr, 0, i) &&
                     var size := asize + PageExtra(StartIn(rs, index, ptr, i));
                     if size < HALF_MAX_SIZE_T then HasRoom(rs, index, ptr, size)
                     else asize < HALF_MAX_SIZE_T && HasRoom(rs, index, ptr, asize)
  }

  /** Memory for a larger top is obtained: the first region with room for ssize bytes extends the top segment, which
      ends at end, or has room for asize bytes. */
  ghost predicate TopGrant(rs: seq<Region>, index: nat, ptr: int, end: int, ssize: nat, asize: nat) {
    && ssize < HALF_MAX_SIZE_T
    && exists i: nat :: FirstRoom(rs, index, ptr, ssize, i)
                        && (StartIn(rs, index, ptr, i) == end || StartIn(rs, index, ptr, i) + asize <= rs[i].last)
  }

  /** sys_alloc obtains the memory for a request of nb bytes. */
  ghost predicate Grant(rs: seq<Region>, index: nat, ptr: int, contiguous: bool, segs: seq<Seg>, topsize: nat, nb: nat)
    requires topsize <= nb && nb + SYS_ALLOC_PADDING < TWO_32
  {
    var asize := GranularityAlign(nb + SYS_ALLOC_PADDING);
    if !contiguous then asize < HALF_MAX_SIZE_T && HasRoom(rs, index, ptr, asize)
    else if segs == [] then FirstGrant(rs, index, ptr, asize)
    else TopGrant(rs, index, ptr, End(segs[0]), GranularityAlign(nb - topsize + SYS_ALLOC_PADDING), asize)
  }

  class MallocState {
    const small: SmallTable
    const tree: TreeTable.TreeTable
    var head: map<int, word>
    var foot: map<int, nat>
    var dv: int
    var dvsize: nat
    var top: int
    var topsize: nat
    var segs: seq<Seg>
    var contiguous: bool
    const sbrk: SbrkState
    /** What callers keep in their chunks. */
    const data: Payload
    ghost var chunks: set<int>
    ghost var lasts: seq<int>
    ghost var ends: seq<int>
    ghost var pinned: set<int>

    ghost function Lay(): Layout
      reads this
    {
      Layout(chunks, head, foot, lasts, ends, pinned)
    }

    ghost function Binned(): map<int, nat>
      reads small, tree
    {
      small.View() + tree.View()
    }

    ghost predicate BinsValid()
      reads small, tree
    {
      small.Valid() && tree.Valid() && SplitBySize(small.View(), tree.View())
    }

    ghost predicate Ready()
      reads this, small, tree
    {
      BinsValid() && HeapOk(Lay(), Binned(), dv, dvsize, top, topsize, segs)
    }

    ghost predicate Valid()
      reads this, small, tree
    {
      BinsValid() && (Untouched(Lay(), Binned(), dv, dvsize, top, topsize, segs)
          || HeapOk(Lay(), Binned(), dv, dvsize, top, topsize, segs))
    }

    /** Every segment is memory that elua_sbrk has handed out. */
    ghost predicate Backed()
      reads this, sbrk
    {
      sbrk.Valid() && Held(segs, sbrk.regions, sbrk.memIndex, sbrk.heapPtr)
    }

    constructor (memory: SbrkState)
      requires memory.Valid()
      ensures Valid() && Backed() && Allocated(Lay()) == {} && top == 0 && contiguous
      ensures fresh(small) && fresh(tree) && fresh(data) && sbrk == memory
    {
      sbrk := memory;
      contiguous := true;
      var s := new SmallTable();
      var t := new TreeTable.TreeTable();
      var d := new Payload();
      small, tree, data := s, t, d;
      head, foot := map[], map[];
      dv, dvsize, top, topsize := 0, 0, 0, 0;
      segs := [];
      chunks, lasts, ends, pinned := {}, [], [], {};
    }

    // ---- insert_chunk and unlink_chunk ----

    method InsertChunk(p: int, s: nat)
      requires BinsValid() && p > 0 && p !in Binned() && s % 8 == 0 && s < TWO_32 && Matches(head, tree.View())
      modifies small, tree
      ensures BinsValid() && Binned() == old(Binned())[p := s]
    {
      hide BinsOk, Views, ListsOk, ListViews;
      if IsSmall(s) {
        EarlierInsert(small.View(), tree.View(), p, s);
        small.InsertSmall(p, s);
      } else {
        LaterInsert(small.View(), tree.View(), p, s);
        tree.InsertLarge(head, p, s);
      }
    }

    method UnlinkChunk(p: int, s: nat)
      requires BinsValid() && p in Binned() && Binned()[p] == s
      modifies small, tree
      ensures BinsValid() && Binned() == old(Binned()) - {p}
    {
      hide BinsOk, Views, ListsOk, ListViews;
      if IsSmall(s) {
        EarlierRemove(small.View(), tree.View(), p);
        small.UnlinkSmall(p, s);
      } else {
        LaterRemove(small.View(), tree.View(), p);
        tree.UnlinkLarge(p);
      }
    }

    // ---- requests of at least 256 bytes ----

    /** Takes a request from the tree chunk v and bins the rest. */
    method CarveLarge(v: int, nb: word, rsize: nat)
      requires Ready() && v in tree.View() && tree.View()[v] == nb + rsize && nb % 8 == 0 && MIN_CHUNK_SIZE <= nb
      modifies this`head, this`foot, this`chunks, small, tree
      ensures Ready() && Handed(old(Lay()), Lay(), v, nb)
    {
      hide BinsOk, Views, ListsOk, ListViews, HeapOk, Handed, Take, TakeFront, Cut, SplitBySize, Matches, Agree,
           IsSmall;
      ghost var h, b := Lay(), Binned();
      TreeChunk(h, b, dv, dvsize, top, topsize, segs, small.View(), tree.View(), v, nb, rsize);
      LaterRemove(small.View(), tree.View(), v);
      SplitRemove(small.View(), tree.View(), v);
      tree.UnlinkLarge(v);
      if rsize < MIN_CHUNK_SIZE {
        TakeStep(h, b, dv, dvsize, top, topsize, segs, v, nb);
        head := Take(head, v, rsize + nb);
      } else {
        var r := v + nb;
        FrontBinned(h, b, dv, dvsize, top, topsize, segs, v, nb, rsize);
        head := TakeFront(head, v, nb, rsize);
        foot := foot[r + rsize := rsize];
        chunks := Cut(chunks, v, r, r + rsize);
        AgreeMatches(head, Binned(), small.View(), tree.View());
        InsertChunk(r, rsize);
      }
    }

    method TmallocLarge(nb: word) returns (p: int)
      requires Ready() && MIN_LARGE_SIZE <= nb && nb % 8 == 0
      modifies this`head, this`foot, this`chunks, small, tree
      ensures Ready() && LargeChoice(old(tree.View()), nb, dvsize, p)
      ensures if p == 0 then Lay() == old(Lay()) && Binned() == old(Binned()) else Handed(old(Lay()), Lay(), p, nb)
    {
      hide BinsOk, Views, ListsOk, ListViews, HeapOk, BestFit, LargeChoice, Handed, SplitBySize, Matches;
      ghost var h, b, v0 := Lay(), Binned(), tree.View();
      HeapMatches(h, b, dv, dvsize, top, topsize, segs, small.View(), tree.View());
      var v, rsize := FindLarge(head, tree.links, tree.treemap, tree.treebins, nb, tree.trees, tree.index);
      VictimWord(h, b, dv, dvsize, top, topsize, segs);
      Choose(small.View(), v0, nb, dvsize, v, rsize);
      p := 0;
      if v != 0 && rsize < Sub(dvsize, nb) {
        p := v;
        CarveLarge(v, nb, rsize);
      }
    }

    // ---- small requests ----

    /** replace_dv. */
    method ReplaceVictim(r: int, s: nat)
      requires BinsValid() && (dv == 0 <==> dvsize == 0)
               && (dv != 0 ==> dv > 0 && dv !in Binned() && dvsize % 8 == 0 && dvsize < MIN_LARGE_SIZE)
      modifies this`dv, this`dvsize, small
      ensures BinsValid() && dv == r && dvsize == s
      ensures Binned() == if old(dv) != 0 then old(Binned())[old(dv) := old(dvsize)] else old(Binned())
    {
      hide BinsOk, Views, ListsOk, ListViews;
      if dvsize != 0 {
        EarlierInsert(small.View(), tree.View(), dv, dvsize);
        small.InsertSmall(dv, dvsize);
      }
      dv, dvsize := r, s;
    }

    /** Takes a request from the front of v, which has been unlinked, and makes the rest the victim. */
    method CarveToVictim(v: int, nb: word, rsize: nat, ghost b: map<int, nat>)
      requires BinsValid() && HeapOk(Lay(), b, dv, dvsize, top, topsize, segs) && v in b && b[v] == nb + rsize
               && Binned() == b - {v}
      requires nb % 8 == 0 && MIN_CHUNK_SIZE <= nb && MIN_CHUNK_SIZE <= rsize && dvsize < MIN_LARGE_SIZE
      modifies this`head, this`foot, this`chunks, this`dv, this`dvsize, small
      ensures Ready() && Handed(old(Lay()), Lay(), v, nb) && dv == v + nb && dvsize == rsize
    {
      hide BinsOk, Views, ListsOk, ListViews, HeapOk, Handed, TakeFront, Cut, SplitBySize;
      ghost var h := Lay();
      BinnedChunk(h, b, dv, dvsize, top, topsize, segs, v, nb, rsize);
      VictimWord(h, b, dv, dvsize, top, topsize, segs);
      VictimBinned(h, b, dv, dvsize, top, topsize, segs, v, nb, rsize);
      head := TakeFront(head, v, nb, rsize);
      foot := foot[v + nb + rsize := rsize];
      chunks := Cut(chunks, v, v + nb, v + nb + rsize);
      ReplaceVictim(v + nb, rsize);
    }

    method TmallocSmall(nb: word) returns (p: int)
      requires Ready() && MIN_CHUNK_SIZE <= nb < MIN_LARGE_SIZE && nb % 8 == 0 && dvsize < nb && tree.treemap != 0
      modifies this`head, this`foot, this`chunks, this`dv, this`dvsize, small, tree
      ensures Ready() && p > 0 && Handed(old(Lay()), Lay(), p, nb)
      ensures p in old(tree.View()) && forall a :: a in old(tree.View()) ==> old(tree.View())[p] <= old(tree.View())[a]
    {
      hide BinsOk, Views, ListsOk, ListViews, HeapOk, BestFit, Handed, SplitBySize, Matches, Take;
      ghost var h, b, v0 := Lay(), Binned(), tree.View();
      HeapMatches(h, b, dv, dvsize, top, topsize, segs, small.View(), tree.View());
      var v, rsize := FindSmall(head, tree.links, tree.treemap, tree.treebins, nb, tree.trees, tree.index);
      LeastOfAll(small.View(), v0, v, nb, rsize);
      TreeChunk(h, b, dv, dvsize, top, topsize, segs, small.View(), tree.View(), v, nb, rsize);
      LaterRemove(small.View(), tree.View(), v);
      SplitRemove(small.View(), tree.View(), v);
      tree.UnlinkLarge(v);
      p := v;
      if rsize < MIN_CHUNK_SIZE {
        TakeStep(h, b, dv, dvsize, top, topsize, segs, v, nb);
        head := Take(head, v, rsize + nb);
      } else {
        CarveToVictim(v, nb, rsize, b);
      }
    }

    // ---- dispose_chunk, which dlfree repeats ----

    /** The writes that turn [lo, lo + s) into one free chunk. */
    method MakeFree(lo: int, s: nat, clear: bool)
      requires s % 8 == 0 && s < TWO_32
      modifies this`head, this`foot, this`chunks
      ensures Lay() == FreeMade(old(Lay()), lo, lo + s, s, clear)
    {
      head := SetFree(head, lo, s, clear);
      foot := foot[lo + s := s];
      chunks := Cut(chunks, lo, lo + s, lo + s);
    }

    /** The run joins top. */
    method GiveTop(p: int, psize: nat, ghost p0: int)
      requires BinsValid() && Open(Lay(), Binned(), dv, dvsize, top, topsize, segs, p0, p, top) && top == p + psize
               && PrevUsed(Lay(), p)
      modifies this`head, this`chunks, this`lasts, this`dv, this`dvsize, this`top, this`topsize
      ensures Ready() && Returned(old(Lay()), Lay(), p0)
    {
      hide BinsOk, Views, ListsOk, ListViews, HeapOk, Open, Returned, SplitBySize, LayoutOk, Size, Used, PrevUsed,
           MkHead, TopChunks;
      FreeTop(Lay(), Binned(), dv, dvsize, top, topsize, segs, p0, p, topsize + psize);
      topsize := topsize + psize;
      top := p;
      head := head[p := MkHead(topsize, false, true)];
      chunks := TopChunks(chunks, p, p, ends[0]);
      lasts := lasts[0 := p];
      if p == dv {
        dv, dvsize := 0, 0;
      }
    }

    /** Consolidate forward and bin. */
    method DisposeForward(p: int, psize0: nat, next: int, ghost p0: int)
      requires BinsValid() && Open(Lay(), Binned(), dv, dvsize, top, topsize, segs, p0, p, next) && next == p + psize0
               && next == Next(Lay(), p0) && PrevUsed(Lay(), p)
      requires p == dv ==> next == top || (next in chunks && !Used(Lay(), next))
      modifies this`head, this`foot, this`chunks, this`lasts, this`dv, this`dvsize, this`top, this`topsize, small, tree
      ensures Ready() && Returned(old(Lay()), Lay(), p0)
    {
      hide BinsOk, Views, ListsOk, ListViews, HeapOk, Open, Returned, FreeMade, SplitBySize, Matches, Agree, IsSmall,
           Size, Next, ChunkSize, LayoutOk;
      ghost var h, b := Lay(), Binned();
      var psize := psize0;
      NextOfRun(h, b, dv, dvsize, top, topsize, segs, p0, p, next);
      if !CInUse(HeadAt(head, next)) {
        if next == top {
          GiveTop(p, psize, p0);
          return;
        } else {
          ChunkAfter(h, b, dv, dvsize, top, topsize, segs, p0, p, next);
          if next == dv {
            FreeDone(h, b, dv, dvsize, top, topsize, segs, p0, p, next + dvsize, psize + dvsize, false);
            dvsize := dvsize + psize;
            dv := p;
            MakeFree(p, dvsize, false);
            return;
          }
          var nsize := ChunkSize(HeadAt(head, next));
          psize := psize + nsize;
          UnlinkChunk(next, nsize);
          FreeDone(h, b - {next}, dv, dvsize, top, topsize, segs, p0, p, p + psize, psize, false);
          MakeFree(p, psize, false);
          if p == dv {
            dvsize := psize;
            return;
          }
        }
      } else {
        FreeDone(h, b, dv, dvsize, top, topsize, segs, p0, p, p + psize, psize, true);
        MakeFree(p, psize, true);
      }
      AgreeMatches(head, Binned(), small.View(), tree.View());
      InsertChunk(p, psize);
    }

    method Dispose(p0: int, psize0: nat)
      requires Ready() && p0 in Allocated(Lay()) && psize0 == Size(Lay(), p0)
      modifies this`head, this`foot, this`chunks, this`lasts, this`dv, this`dvsize, this`top, this`topsize, small, tree
      ensures Ready() && Returned(old(Lay()), Lay(), p0)
    {
      hide BinsOk, Views, ListsOk, ListViews, HeapOk, Open, Returned, FreeMade, SplitBySize, Size, Next, ChunkSize,
           LayoutOk, Allocated;
      ghost var h, b := Lay(), Binned();
      var p, psize := p0, psize0;
      var next := p + psize;
      NextOf(h, b, dv, dvsize, top, topsize, segs, p0);
      if !PInUse(HeadAt(head, p)) {
        OpenBack(h, b, dv, dvsize, top, topsize, segs, p0);
        var prevsize := FootAt(foot, p);
        p, psize := p - prevsize, psize + prevsize;
        NextOfRun(h, b - {p}, dv, dvsize, top, topsize, segs, p0, p, next);
        if p != dv {
          UnlinkChunk(p, prevsize);
        } else if CInUse(HeadAt(head, next)) && PInUse(HeadAt(head, next)) {
          FreeDone(h, b, dv, dvsize, top, topsize, segs, p0, p, next, psize, true);
          dvsize := psize;
          MakeFree(p, psize, true);
          return;
        }
      } else {
        OpenStart(h, b, dv, dvsize, top, topsize, segs, p0);
        NotVictim(h, b, dv, dvsize, top, topsize, segs, p0);
      }
      DisposeForward(p, psize, next, p0);
    }

    method DlFree(mem: int)
      requires mem != 0 ==> Ready() && Mem2Chunk(mem) in Allocated(Lay())
      modifies this`head, this`foot, this`chunks, this`lasts, this`dv, this`dvsize, this`top, this`topsize, small, tree
      ensures mem == 0 ==> Lay() == old(Lay()) && Binned() == old(Binned())
      ensures mem != 0 ==> Ready() && Returned(old(Lay()), Lay(), Mem2Chunk(mem))
    {
      if mem != 0 {
        var p := Mem2Chunk(mem);
        Dispose(p, ChunkSize(HeadAt(head, p)));
      }
    }

    // ---- try_realloc_chunk ----

    /** set_inuse on [p, p + nb) and on the rest, which is then given back. */
    method ShrinkTo(p: int, nb: nat, rs: nat)
      requires BinsValid() && Open(Lay(), Binned(), dv, dvsize, top, topsize, segs, p, p, p + nb + rs) && Parts(nb, rs)
      requires dv < p || p + nb + rs <= dv
      modifies this`head, this`foot, this`chunks, this`lasts, this`dv, this`dvsize, this`top, this`topsize, small, tree
      ensures Ready() && Resized(old(Lay()), Lay(), p, nb)
    {
      hide BinsOk, Views, ListsOk, ListViews, HeapOk, Open, Returned, SplitBySize, SetInUse, Cut, Size, LayoutOk,
           Allocated, Resized;
      SplitDone(Lay(), Binned(), dv, dvsize, top, topsize, segs, p, p + nb + rs, nb, rs);
      var r := p + nb;
      head := SetInUse(head, p, nb);
      head := SetInUse(head, r, rs);
      chunks := Cut(chunks, p, r, r + rs);
      ghost var g := Lay();
      label L: Dispose(r, rs);
      SplitThenReturned(old(Lay()), g, Lay(), p, nb, r, rs);
    }

    /** set_inuse on the whole run. */
    method GrowTo(p: int, s: nat, ghost nb: nat)
      requires BinsValid() && Open(Lay(), Binned(), dv, dvsize, top, topsize, segs, p, p, p + s)
               && nb <= s < nb + MIN_CHUNK_SIZE
      modifies this`head, this`chunks
      ensures Resized(old(Lay()), Lay(), p, nb)
      ensures if p <= dv < p + s then HeapOk(Lay(), Binned(), 0, 0, top, topsize, segs) else Ready()
    {
      hide BinsOk, Views, ListsOk, ListViews, HeapOk, Open, SplitBySize, SetInUse, Cut, LayoutOk, Resized;
      GrowDone(Lay(), Binned(), dv, dvsize, top, topsize, segs, p, p + s, s, nb);
      head := SetInUse(head, p, s);
      chunks := Cut(chunks, p, p + s, p + s);
    }

    method ExtendTop(p: int, oldsize: nat, nb: nat)
      requires BinsValid() && Open(Lay(), Binned(), dv, dvsize, top, topsize, segs, p, p, top) && top == p + oldsize
               && p != dv
      requires oldsize < nb < oldsize + topsize && nb % 8 == 0 && MIN_CHUNK_SIZE <= nb
      modifies this`head, this`chunks, this`lasts, this`top, this`topsize
      ensures Ready() && Resized(old(Lay()), Lay(), p, nb)
    {
      hide BinsOk, Views, ListsOk, ListViews, HeapOk, Open, SplitBySize, SetInUse, TopChunks, LayoutOk, Resized, MkHead;
      var newsize := oldsize + topsize;
      var newtopsize := newsize - nb;
      GrowTopDone(Lay(), Binned(), dv, dvsize, top, topsize, segs, p, nb, newtopsize);
      var newtop := p + nb;
      head := SetInUse(head, p, nb);
      head := head[newtop := MkHead(newtopsize, false, true)];
      chunks := TopChunks(chunks, p, newtop, ends[0]);
      lasts := lasts[0 := newtop];
      top := newtop;
      topsize := newtopsize;
    }

    method ExtendVictim(p: int, oldsize: nat, nb: nat)
      requires BinsValid() && Open(Lay(), Binned(), dv, dvsize, top, topsize, segs, p, p, dv) && dv == p + oldsize
               && dv in chunks && !Used(Lay(), dv)
      requires oldsize < nb <= oldsize + dvsize && nb % 8 == 0 && MIN_CHUNK_SIZE <= nb
      modifies this`head, this`foot, this`chunks, this`dv, this`dvsize
      ensures Ready() && Resized(old(Lay()), Lay(), p, nb)
    {
      hide BinsOk, Views, ListsOk, ListViews, HeapOk, Open, SplitBySize, SetInUse, GrowFront, Cut, LayoutOk, Resized,
           MkHead, Used, PrevUsed, ClearPInUse;
      ChunkAfter(Lay(), Binned(), dv, dvsize, top, topsize, segs, p, p, dv);
      var dvs := dvsize;
      var dsize := oldsize + dvs - nb;
      if dsize >= MIN_CHUNK_SIZE {
        RestParts(Lay(), Binned(), dv, dvsize, top, topsize, segs, p, nb, dsize);
        GrowVictim(Lay(), Binned(), dv, dvsize, top, topsize, segs, p, p + nb + dsize, nb, dsize);
        var r := p + nb;
        var n := r + dsize;
        head := GrowFront(head, p, nb, dsize);
        foot := foot[n := dsize];
        chunks := Cut(chunks, p, r, n);
        dvsize := dsize;
        dv := r;
      } else {
        GrowTo(p, oldsize + dvs, nb);
        dvsize := 0;
        dv := 0;
      }
    }

    method ExtendFree(p: int, oldsize: nat, next: int, nb: nat)
      requires BinsValid() && Open(Lay(), Binned(), dv, dvsize, top, topsize, segs, p, p, next) && next == p + oldsize
               && next in chunks && !Used(Lay(), next)
      requires next != dv && (dv < p || next <= dv)
      requires oldsize < nb <= oldsize + Size(Lay(), next) && nb % 8 == 0 && MIN_CHUNK_SIZE <= nb
      modifies this`head, this`foot, this`chunks, this`lasts, this`dv, this`dvsize, this`top, this`topsize, small, tree
      ensures Ready() && Resized(old(Lay()), Lay(), p, nb)
    {
      hide BinsOk, Views, ListsOk, ListViews, HeapOk, Open, SplitBySize, LayoutOk, Resized, Used, PrevUsed, ChunkSize;
      ChunkAfter(Lay(), Binned(), dv, dvsize, top, topsize, segs, p, p, next);
      var nextsize := ChunkSize(HeadAt(head, next));
      var rsize := oldsize + nextsize - nb;
      UnlinkChunk(next, nextsize);
      if rsize < MIN_CHUNK_SIZE {
        GrowTo(p, oldsize + nextsize, nb);
      } else {
        RestParts(Lay(), Binned(), dv, dvsize, top, topsize, segs, p, nb, rsize);
        ShrinkTo(p, nb, rsize);
      }
    }

    method TryRealloc(p: int, nb: nat) returns (newp: int)
      requires Ready() && p in Allocated(Lay()) && nb % 8 == 0 && MIN_CHUNK_SIZE <= nb < TWO_32
      modifies this`head, this`foot, this`chunks, this`lasts, this`dv, this`dvsize, this`top, this`topsize, small, tree
      ensures Ready() && (newp != 0 <==> RoomAt(old(Lay()), old(top), old(topsize), p, nb))
      ensures newp == 0 ==> dv == old(dv) && dvsize == old(dvsize) && top == old(top) && topsize == old(topsize)
      ensures if newp == 0 then Lay() == old(Lay()) && Binned() == old(Binned())
                else newp == p && Resized(old(Lay()), Lay(), p, nb)
    {
      hide BinsOk, Views, ListsOk, ListViews, HeapOk, Open, SplitBySize, LayoutOk, Resized, CInUse, PrevUsed,
           Allocated, ChunkSize;
      ghost var h, b := Lay(), Binned();
      var oldsize := ChunkSize(HeadAt(head, p));
      var next := p + oldsize;
      newp := 0;
      OpenStart(h, b, dv, dvsize, top, topsize, segs, p);
      NextOfRun(h, b, dv, dvsize, top, topsize, segs, p, p, next);
      NotVictim(h, b, dv, dvsize, top, topsize, segs, p);
      SameSize(h, p, nb);
      if oldsize >= nb {
        var rsize := oldsize - nb;
        if rsize >= MIN_CHUNK_SIZE {
          RestParts(h, b, dv, dvsize, top, topsize, segs, p, nb, rsize);
          ShrinkTo(p, nb, rsize);
        }
        newp := p;
      } else if next == top {
        if oldsize + topsize > nb {
          ExtendTop(p, oldsize, nb);
          newp := p;
        }
      } else if next == dv {
        VictimWord(h, b, dv, dvsize, top, topsize, segs);
        if oldsize + dvsize >= nb {
          ExtendVictim(p, oldsize, nb);
          newp := p;
        }
      } else if !CInUse(HeadAt(head, next)) {
        var nextsize := ChunkSize(HeadAt(head, next));
        if oldsize + nextsize >= nb {
          ExtendFree(p, oldsize, next, nb);
          newp := p;
        }
      }
    }

    // ---- sys_alloc ----

    /** The segment that holds an address. */
    method SegmentHolding(addr: int) returns (k: nat)
      ensures k <= |segs| && (k < |segs| ==> segs[k].base <= addr < End(segs[k]))
      ensures forall j :: 0 <= j < k ==> !(segs[j].base <= addr < End(segs[j]))
    {
      k := 0;
      while k < |segs|
        invariant k <= |segs| && forall j :: 0 <= j < k ==> !(segs[j].base <= addr < End(segs[j]))
      {
        if segs[k].base <= addr < End(segs[k]) {
          return;
        }
        k := k + 1;
      }
    }

    /** What sys_alloc needs of the memory it gets for a request. */
    ghost predicate Obtained(nb: nat, base: int, size: nat)
      reads this, sbrk
    {
      && Fresh(segs, base, size) && sbrk.Gave(base, size)
      && (if segs != [] && base == End(segs[0]) then nb + SYS_ALLOC_PADDING <= topsize + size
           else nb + SYS_ALLOC_PADDING <= size)
    }

    ghost predicate NoneTaken(index: nat, ptr: int)
      reads sbrk
    {
      sbrk.memIndex == index && sbrk.heapPtr == ptr
    }

    /** MORECORE. */
    method More(incr: int) returns (ptr: int)
      requires Backed() && incr % 8 == 0 && (incr >= 0 ==> Unwrapped(sbrk.regions, incr))
      modifies sbrk
      ensures Backed() && (sbrk.memIndex, sbrk.heapPtr, ptr) == Serve(sbrk.regions, old(sbrk.memIndex),
                old(sbrk.heapPtr), incr)
      ensures ptr != FAILURE && incr > TOP_FOOT_SIZE ==> Fresh(segs, ptr, incr) && sbrk.Gave(ptr, incr)
      ensures (incr < 0 ==> ptr == FAILURE && NoneTaken(old(sbrk.memIndex), old(sbrk.heapPtr)))
              && (ptr != FAILURE ==> ptr > 0 && ptr % 8 == 0 && sbrk.heapPtr == ptr + incr)
    {
      ServeHeld(segs, sbrk.regions, sbrk.memIndex, sbrk.heapPtr, incr);
      UnwrappedSame(sbrk.regions, sbrk.memIndex, sbrk.heapPtr, incr);
      hide RegionsOk, PointerOk, AllGiven, Held;
      ptr := sbrk.Morecore(incr);
    }

    /** A block of ssize bytes is too small, and no region has room for the rest. */
    ghost predicate Lacks(nb: nat, ssize: nat)
      requires nb + SYS_ALLOC_PADDING < TWO_32
      reads sbrk
    {
      ssize < HALF_MAX_SIZE_T && ssize < nb + SYS_ALLOC_PADDING &&
      var esize := GranularityAlign(nb + SYS_ALLOC_PADDING - ssize);
      esize < HALF_MAX_SIZE_T && !HasRoom(sbrk.regions, sbrk.memIndex, sbrk.heapPtr, esize)
    }

    /** The second half of the contiguous attempt: use the block that does not extend top, with more after it if it is
        too small. What is used is good memory if the regions make more follow, and, if no two regions touch, only
        then. */
    method Cope(nb: nat, br0: int, ssize0: nat) returns (tbase: int, tsize: nat)
      requires Backed() && nb + SYS_ALLOC_PADDING + 255 < TWO_32 && Reachable(sbrk.regions, nb) && ssize0 % 8 == 0
      requires br0 != FAILURE ==>
                 TOP_FOOT_SIZE < ssize0 < HALF_MAX_SIZE_T && Fresh(segs, br0, ssize0) && sbrk.Gave(br0, ssize0)
      requires br0 != FAILURE ==> LastBlock(sbrk.regions, sbrk.memIndex, sbrk.heapPtr, br0, ssize0)
      requires br0 != FAILURE && segs == [] ==> nb + SYS_ALLOC_PADDING <= ssize0
      requires br0 != FAILURE && segs != [] ==> br0 != End(segs[0])
      modifies sbrk, this`contiguous
      ensures Backed() && (br0 == FAILURE ==> tbase == FAILURE && NoneTaken(old(sbrk.memIndex), old(sbrk.heapPtr)))
      ensures br0 != FAILURE ==>
                && (tbase == FAILURE <==> old(Lacks(nb, ssize0)))
                && (tbase == FAILURE ==> forall m: nat :: !HasRoom(sbrk.regions, sbrk.memIndex, sbrk.heapPtr, m))
      ensures tbase != FAILURE && old(Follows(sbrk.regions, sbrk.memIndex, sbrk.heapPtr, ssize0, nb)) ==>
                Obtained(nb, tbase, tsize)
      ensures br0 != FAILURE && Gaps(sbrk.regions)
              && !old(Follows(sbrk.regions, sbrk.memIndex, sbrk.heapPtr, ssize0, nb)) ==>
                tbase != FAILURE && !Obtained(nb, tbase, tsize)
                    && (!sbrk.Gave(tbase, tsize) || tsize < nb + SYS_ALLOC_PADDING)
    {
      hide Held, RegionsOk, PointerOk, AllGiven, Serve, Unwrapped, Gaps, NoneBehind, GranularityAlign;
      var br, ssize := br0, ssize0;
      tbase, tsize := FAILURE, 0;
      if br != FAILURE {
        if ssize < HALF_MAX_SIZE_T && ssize < nb + SYS_ALLOC_PADDING {
          var esize := GranularityAlign(nb + SYS_ALLOC_PADDING - ssize);
          GranularityAligned(nb + SYS_ALLOC_PADDING - ssize);
          if esize < HALF_MAX_SIZE_T {
            StaysReachable(sbrk.regions, nb, esize);
            BlockStays(sbrk.regions, sbrk.memIndex, sbrk.heapPtr, segs, br, ssize, esize);
            NextFollows(sbrk.regions, sbrk.memIndex, sbrk.heapPtr, esize);
            FailsIff(sbrk.regions, sbrk.memIndex, sbrk.heapPtr, esize);
            if Gaps(sbrk.regions) && Serve(sbrk.regions, sbrk.memIndex, sbrk.heapPtr, esize).2 != FAILURE {
              JoinedIffAdjacent(sbrk.regions, sbrk.memIndex, sbrk.heapPtr, br, ssize, esize);
            }
            var end := More(esize);
            if end != FAILURE {
              ssize := ssize + esize;
            } else {
              var _ := More(-ssize);
              br := FAILURE;
            }
          }
        }
      }
      if br != FAILURE {
        tbase := br;
        tsize := ssize;
      } else {
        contiguous := false;
      }
    }

    /** A region has room for a request of n bytes that MORECORE takes. */
    ghost predicate Room(n: nat)
      reads sbrk
    {
      n < HALF_MAX_SIZE_T && HasRoom(sbrk.regions, sbrk.memIndex, sbrk.heapPtr, n)
    }

    /** A block that MORECORE gave and that does not extend top, or none. */
    ghost predicate Elsewhere(br: int, ssize: nat)
      requires sbrk.Valid()
      reads this, sbrk
    {
      br != FAILURE ==>
        && TOP_FOOT_SIZE < ssize < HALF_MAX_SIZE_T && Fresh(segs, br, ssize) && sbrk.Gave(br, ssize)
        && sbrk.memIndex < |sbrk.regions| && LastBlock(sbrk.regions, sbrk.memIndex, sbrk.heapPtr, br, ssize)
        && (segs != [] ==> br != End(segs[0]))
    }

    /** The first memory, whose beginning MORECORE tells before. */
    method FirstMore(nb: nat, asize: nat) returns (br: int, ssize: nat, found: bool)
      requires Backed() && nb + SYS_ALLOC_PADDING + 255 < TWO_32 && asize == GranularityAlign(nb + SYS_ALLOC_PADDING)
               && Reachable(sbrk.regions, nb) && segs == []
      modifies sbrk
      ensures Backed() && ssize % 8 == 0 && (found ==> br != FAILURE && Obtained(nb, br, ssize))
      ensures !found ==> Elsewhere(br, ssize) && (br != FAILURE ==> nb + SYS_ALLOC_PADDING <= ssize)
      ensures old(FirstGrant(sbrk.regions, sbrk.memIndex, sbrk.heapPtr, asize)) <==> br != FAILURE || Room(asize)
    {
      hide Held, RegionsOk, PointerOk, AllGiven, Serve, Unwrapped, Reachable, Fresh, LastBlock, GranularityAlign,
           IsPageAligned, PageGap, HasRoom, FirstRoom, StartIn, FirstGrant;
      br, ssize, found := FAILURE, asize, false;
      GranularityAligned(nb + SYS_ALLOC_PADDING);
      StaysReachable(sbrk.regions, nb, 0);
      FirstGrantIs(sbrk.regions, sbrk.memIndex, sbrk.heapPtr, asize);
      var base := More(0);
      if base != FAILURE {
        PageAligned(base);
        Sum8(ssize, PageGap(base));
        if !IsPageAligned(base) {
          ssize := ssize + PageGap(base);
        }
        if ssize > nb && ssize < HALF_MAX_SIZE_T {
          StaysReachable(sbrk.regions, nb, ssize);
          FailsIff(sbrk.regions, sbrk.memIndex, sbrk.heapPtr, ssize);
          ServesInside(sbrk.regions, sbrk.memIndex, sbrk.heapPtr, ssize);
          br := More(ssize);
          found := br == base;
        }
      }
    }

    /** The region of the block of ssize bytes given last has room for asize bytes from its beginning on. */
    ghost predicate Reaches(ssize: nat, asize: nat)
      reads sbrk
    {
      sbrk.memIndex < |sbrk.regions| && sbrk.heapPtr - ssize + asize <= sbrk.regions[sbrk.memIndex].last
    }

    /** More memory behind top. */
    method TopMore(nb: nat, ss: nat, ghost asize: nat) returns (br: int, ssize: nat, found: bool)
      requires Backed() && nb + SYS_ALLOC_PADDING + 255 < TWO_32 && Reachable(sbrk.regions, nb) && topsize <= nb
      requires ss == 0 < |segs|
      modifies sbrk
      ensures Backed() && ssize % 8 == 0 && (found ==> br != FAILURE && Obtained(nb, br, ssize))
      ensures !found ==> Elsewhere(br, ssize)
      ensures old(Joins(sbrk.regions, sbrk.memIndex, sbrk.heapPtr, End(segs[0]), topsize, nb)) <==>
              (!found && br != FAILURE ==> Follows(sbrk.regions, sbrk.memIndex, sbrk.heapPtr, ssize, nb))
      ensures ssize == GranularityAlign(nb - topsize + SYS_ALLOC_PADDING)
      ensures br == FAILURE ==> HALF_MAX_SIZE_T <= ssize || forall m: nat :: !HasRoom(sbrk.regions, sbrk.memIndex,
                                                                                        sbrk.heapPtr, m)
      ensures old(TopGrant(sbrk.regions, sbrk.memIndex, sbrk.heapPtr, End(segs[0]),
                GranularityAlign(nb - topsize + SYS_ALLOC_PADDING), asize)) <==>
              br != FAILURE && (found || Reaches(ssize, asize))
    {
      hide Held, RegionsOk, PointerOk, AllGiven, Serve, Unwrapped, Reachable, Follows, Fresh, FirstRoom, StartIn,
           Joins, LastBlock, GranularityAlign, HasRoom, TopGrant;
      JoinsIs(sbrk.regions, sbrk.memIndex, sbrk.heapPtr, End(segs[0]), topsize, nb);
      br, found := FAILURE, false;
      ssize := GranularityAlign(nb - topsize + SYS_ALLOC_PADDING);
      GranularityAligned(nb - topsize + SYS_ALLOC_PADDING);
      TopGrantIs(sbrk.regions, sbrk.memIndex, sbrk.heapPtr, End(segs[0]), ssize, asize);
      if ssize < HALF_MAX_SIZE_T {
        StaysReachable(sbrk.regions, nb, ssize);
        ServesInside(sbrk.regions, sbrk.memIndex, sbrk.heapPtr, ssize);
        FailsIff(sbrk.regions, sbrk.memIndex, sbrk.heapPtr, ssize);
        br := More(ssize);
        found := br == End(segs[ss]) && br != FAILURE;
      }
    }

    /** If what a block lacks follows it or is nowhere, it is nowhere exactly if the region ends before. */
    lemma LacksIff(br: int, nb: nat, ssize: nat, asize: nat)
      requires nb + SYS_ALLOC_PADDING + 255 < TWO_32 && asize == GranularityAlign(nb + SYS_ALLOC_PADDING)
      requires LastBlock(sbrk.regions, sbrk.memIndex, sbrk.heapPtr, br, ssize) && ssize < HALF_MAX_SIZE_T
      requires if ssize < nb + SYS_ALLOC_PADDING
               then asize == ssize + GranularityAlign(nb + SYS_ALLOC_PADDING - ssize) else asize == ssize
      ensures Follows(sbrk.regions, sbrk.memIndex, sbrk.heapPtr, ssize, nb) ==>
                (Lacks(nb, ssize) <==> !Reaches(ssize, asize))
    {
      hide GranularityAlign;
      if Follows(sbrk.regions, sbrk.memIndex, sbrk.heapPtr, ssize, nb) && ssize < nb + SYS_ALLOC_PADDING {
        var esize: nat := asize - ssize;
        assert StartIn(sbrk.regions, sbrk.memIndex, sbrk.heapPtr, sbrk.memIndex) == sbrk.heapPtr;
        if sbrk.heapPtr + esize > sbrk.regions[sbrk.memIndex].last {
          assert NoneBehind(sbrk.regions, sbrk.memIndex, esize);
        }
      }
    }

    /** The contiguous attempt: extend the top segment, or get the first memory. */
    method MoreContiguous(nb: nat, asize: nat) returns (tbase: int, tsize: nat)
      requires Backed() && nb + SYS_ALLOC_PADDING + 255 < TWO_32 && asize == GranularityAlign(nb + SYS_ALLOC_PADDING)
               && Reachable(sbrk.regions, nb)
      requires (top == 0 <==> segs == []) && topsize <= nb
      requires top != 0 ==> segs[0].base <= top < End(segs[0])
      modifies sbrk, this`contiguous
      ensures Backed() && (tbase != FAILURE && top == 0 ==> Obtained(nb, tbase, tsize))
      ensures top != 0 && tbase != FAILURE
              && old(Joins(sbrk.regions, sbrk.memIndex, sbrk.heapPtr, End(segs[0]), topsize, nb)) ==>
              Obtained(nb, tbase, tsize)
      ensures top == 0 || old(Joins(sbrk.regions, sbrk.memIndex, sbrk.heapPtr, End(segs[0]), topsize, nb)) ==>
                (old(Grant(sbrk.regions, sbrk.memIndex, sbrk.heapPtr, true, segs, topsize, nb)) <==>
                   tbase != FAILURE || Room(asize))
      ensures top != 0 && Gaps(sbrk.regions)
              && !old(Joins(sbrk.regions, sbrk.memIndex, sbrk.heapPtr, End(segs[0]), topsize, nb)) ==>
                tbase != FAILURE && !Obtained(nb, tbase, tsize)
                    && (!sbrk.Gave(tbase, tsize) || tsize < nb + SYS_ALLOC_PADDING)
    {
      hide Held, RegionsOk, PointerOk, AllGiven, Reachable, Follows, Fresh, Gaps, Joins, LastBlock, GranularityAlign,
           HasRoom, FirstGrant, TopGrant, Reaches;
      var br, ssize, found;
      var ss := |segs|;
      if top != 0 {
        ss := SegmentHolding(top);
      }
      if ss == |segs| {
        br, ssize, found := FirstMore(nb, asize);
        if !found && br != FAILURE {
          EnoughFollows(sbrk.regions, sbrk.memIndex, sbrk.heapPtr, ssize, nb);
        }
      } else {
        br, ssize, found := TopMore(nb, ss, asize);
        SizesAdd(nb, topsize);
        if !found && br != FAILURE { LacksIff(br, nb, ssize, asize); }
      }
      if found {
        tbase, tsize := br, ssize;
      } else {
        tbase, tsize := Cope(nb, br, ssize);
      }
    }

    /** The last attempt: memory anywhere. */
    method MoreAnywhere(nb: nat, asize: nat) returns (tbase: int, tsize: nat)
      requires Backed() && nb + SYS_ALLOC_PADDING + 255 < TWO_32 && asize == GranularityAlign(nb + SYS_ALLOC_PADDING)
               && Reachable(sbrk.regions, nb)
      modifies sbrk
      ensures Backed() && (tbase != FAILURE ==> Obtained(nb, tbase, tsize))
      ensures tbase != FAILURE <==> old(Room(asize))
    {
      hide Held, RegionsOk, Unwrapped, Reachable, Fresh, HasRoom;
      tbase, tsize := FAILURE, 0;
      GranularityAligned(nb + SYS_ALLOC_PADDING);
      if asize < HALF_MAX_SIZE_T {
        StaysReachable(sbrk.regions, nb, asize);
        StaysReachable(sbrk.regions, nb, 0);
        FailsIff(sbrk.regions, sbrk.memIndex, sbrk.heapPtr, asize);
        ServesInside(sbrk.regions, sbrk.memIndex, sbrk.heapPtr, asize);
        var br := More(asize);
        if br != FAILURE {
          BlockStays(sbrk.regions, sbrk.memIndex, sbrk.heapPtr, segs, br, asize, 0);
        }
        var end := More(0);
        if br != FAILURE && end != FAILURE && br < end {
          var ssize := end - br;
          if ssize > nb + TOP_FOOT_SIZE {
            tbase := br;
            tsize := ssize;
          }
        }
      }
    }

    // ---- using new memory ----

    /** A request is cut off the bottom of top. */
    method SplitTop(nb: nat) returns (p: int)
      requires Ready() && nb % 8 == 0 && MIN_CHUNK_SIZE <= nb < topsize
      modifies this`head, this`chunks, this`lasts, this`top, this`topsize
      ensures Ready() && p == old(top) > 0 && Handed(old(Lay()), Lay(), p, nb)
    {
      hide BinsOk, Views, ListsOk, ListViews, HeapOk, SplitBySize, Handed, TopChunks, MkHead, LayoutOk;
      TopWord(Lay(), Binned(), dv, dvsize, top, topsize, segs);
      var rsize := topsize - nb;
      Multiples(nb, topsize);
      TopStep(Lay(), Binned(), dv, dvsize, top, topsize, segs, nb, rsize);
      p := top;
      topsize := rsize;
      var r := p + nb;
      top := r;
      head := head[r := MkHead(rsize, false, true)];
      head := head[p := MkHead(nb, true, true)];
      chunks := TopChunks(chunks, p, r, ends[0]);
      lasts := lasts[0 := r];
    }

    /** The first memory. */
    method InitHeap(tbase: int, tsize: nat)
      requires BinsValid() && Untouched(Lay(), Binned(), dv, dvsize, top, topsize, segs) && Fresh([], tbase, tsize)
               && Backed() && sbrk.Gave(tbase, tsize)
      modifies this`head, this`lasts, this`ends, this`top, this`topsize, this`segs
      ensures Ready() && Backed() && Kept(old(Lay()), Lay()) && topsize == tsize - TOP_FOOT_SIZE
    {
      hide BinsOk, Views, ListsOk, ListViews, HeapOk, SplitBySize, InitTop, Kept;
      segs := [Seg(tbase, tsize)];
      FirstSegment(Lay(), tbase, tsize, tsize - TOP_FOOT_SIZE);
      top := tbase;
      topsize := tsize - TOP_FOOT_SIZE;
      head := InitTop(head, top, topsize);
      lasts := [tbase];
      ends := [tbase + tsize];
    }

    /** New memory right after the top segment. */
    method AppendTop(tbase: int, tsize: nat)
      requires Ready() && Backed() && segs != [] && Fresh(segs, tbase, tsize) && tbase == End(segs[0])
               && sbrk.Gave(tbase, tsize)
      modifies this`head, this`ends, this`topsize, this`segs
      ensures Ready() && Backed() && Kept(old(Lay()), Lay()) && topsize == old(topsize) + tsize
    {
      hide BinsOk, Views, ListsOk, ListViews, HeapOk, SplitBySize, InitTop, Kept, AllGiven, Fresh, RegionsOk, PointerOk;
      TopEnd(Lay(), Binned(), dv, dvsize, top, topsize, segs);
      ExtendStep(Lay(), Binned(), dv, dvsize, top, topsize, segs, topsize + tsize, tsize);
      HeldLonger(segs, sbrk.regions, sbrk.memIndex, sbrk.heapPtr, 0, segs[0].base, tbase, tsize);
      segs := segs[0 := Seg(segs[0].base, segs[0].size + tsize)];
      topsize := topsize + tsize;
      head := InitTop(head, top, topsize);
      ends := ends[0 := ends[0] + tsize];
    }

    /** The record chunk and the fenceposts that close the old top segment. */
    method WritePosts(sp: int, end: int, tbase: int, ts: nat) returns (nfences: nat)
      requires ts % 8 == 0 && ts < TWO_32 && sp + RECORD_SIZE + 8 < end
      modifies this`head
      ensures Posts(old(head), head, sp, end, tbase, ts) && ClosedOff(head, sp, nfences)
      ensures PostAt(sp, nfences) < end <= PostAt(sp, nfences) + 4
    {
      head := InitTop(head, tbase, ts);
      head := head[sp := MkHead(RECORD_SIZE, true, true)];
      hide InitTop, MkHead;
      ghost var posted := head;
      var p := sp + RECORD_SIZE;
      nfences := 0;
      while true
        invariant p == PostAt(sp, nfences) && p + 4 < end
        invariant forall k: nat :: k < nfences ==> HeadAt(head, PostAt(sp, k)) == FENCEPOST_HEAD
        invariant forall x :: x < sp + RECORD_SIZE || end <= x ==> HeadAt(head, x) == HeadAt(posted, x)
        decreases end - p
      {
        var nextp := p + 4;
        head := head[p := FENCEPOST_HEAD];
        nfences := nfences + 1;
        if nextp + 4 < end {
          p := nextp;
        } else {
          break;
        }
      }
      assert HeadAt(head, PostAt(sp, 0)) == FENCEPOST_HEAD;
      PostsRecord(old(head), head, sp, end, tbase, ts, nfences);
    }

    /** A new segment; the segment record and the fenceposts stay in the old one, and what is left of the old top goes
        into a bin. */
    method AddSegment(tbase: int, tsize: nat) returns (sp: int, nfences: nat)
      requires Ready() && Backed() && Fresh(segs, tbase, tsize) && sbrk.Gave(tbase, tsize)
      modifies this`head, this`foot, this`chunks, this`lasts, this`ends, this`pinned, this`top, this`topsize,
               this`segs, small, tree
      ensures Ready() && Backed() && Kept(old(Lay()), Lay())
      ensures top == tbase && topsize == tsize - TOP_FOOT_SIZE && segs == [Seg(tbase, tsize)] + old(segs)
      ensures sp == RecordAt(old(top), old(topsize)) && pinned == old(pinned) + {sp} && ClosedOff(head, sp, nfences)
      ensures PostAt(sp, nfences) < old(top + topsize) + TOP_FOOT_SIZE <= PostAt(sp, nfences) + 4
    {
      hide BinsOk, Views, ListsOk, ListViews, HeapOk, SplitBySize, Kept, AllGiven, Fresh, RegionsOk, PointerOk, Held,
           Posts;
      hide LayoutOk, Allocated, IsSmall, Recorded, TopTaken, Size, Used, AlignOffset, MkHead, ClosedOff;
      ghost var h, b := Lay(), Binned();
      var oldTop, oldSize := top, topsize;
      TopEnd(h, b, dv, dvsize, top, topsize, segs);
      TopWord(h, b, dv, dvsize, top, topsize, segs);
      var k := SegmentHolding(oldTop);
      var oldEnd := End(segs[k]);
      var rawsp := oldEnd - (RECORD_SIZE + 16 + 7);
      var asp := rawsp + AlignOffset(rawsp + 8);
      RecordSpot(oldEnd);
      sp := if asp < oldTop + MIN_CHUNK_SIZE then oldTop else asp;
      FreshTop(segs, tbase, tsize);
      top := tbase;
      topsize := tsize - TOP_FOOT_SIZE;
      nfences := WritePosts(sp, oldEnd, tbase, topsize);
      HeldMore(segs, sbrk.regions, sbrk.memIndex, sbrk.heapPtr, tbase, tsize);
      segs := [Seg(tbase, tsize)] + segs;
      if sp == oldTop {
        CloseSmall(h, b, dv, dvsize, oldTop, oldSize, old(segs), head, tbase, tsize, topsize);
        Become(Recorded(TopTaken(h, RECORD_SIZE, 16), head, sp, tbase, tsize));
        RecordedSame(h, head, sp, tbase, tsize);
      } else {
        FreeRest(oldTop, sp - oldTop, tbase, tsize, h, b, old(segs), nfences);
      }
    }

    /** The rest of the old top becomes an ordinary free chunk. */
    method FreeRest(q: int, psize: nat, tbase: int, tsize: nat, ghost h: Layout, ghost b: map<int, nat>,
            ghost segs0: seq<Seg>, ghost n: nat)
      requires BinsValid() && Binned() == b && HeapOk(h, b, dv, dvsize, q, psize, segs0) && MIN_CHUNK_SIZE <= psize
               && foot == h.foot
      requires |h.ends| > 0 && h.ends[0] == q + psize + TOP_FOOT_SIZE && Fresh(segs0, tbase, tsize)
               && segs == [Seg(tbase, tsize)] + segs0
      requires topsize % 8 == 0 && topsize < TWO_32 && topsize == tsize - TOP_FOOT_SIZE && top == tbase
               && Posts(h.head, head, q + psize, h.ends[0], top, topsize)
      requires ClosedOff(head, q + psize, n)
      modifies this`head, this`foot, this`chunks, this`lasts, this`ends, this`pinned, small, tree
      ensures Ready() && Kept(h, Lay()) && pinned == h.pinned + {q + psize} && ClosedOff(head, q + psize, n)
    {
      hide BinsOk, Views, ListsOk, ListViews, HeapOk, SplitBySize, Kept, Fresh, Posts, LayoutOk, Allocated, IsSmall,
           Unfreed, FreeMade, SetFree, Agree, Matches, Size, Next, Used, PrevUsed, Foot;
      hide ClosedOff;
      CloseLarge(h, b, dv, dvsize, q, psize, segs0, head, tbase, tsize, topsize);
      ghost var g := Unfreed(h, head, q, psize, tbase, tsize);
      RestFreed(g, b, dv, dvsize, top, topsize, segs, q, psize);
      RestKept(h, g, q, psize);
      UnfreedHead(h, head, q, psize, tbase, tsize);
      ClosedOffFree(head, q, psize, n);
      head := SetFree(head, q, psize, true);
      foot := foot[q + psize := psize];
      Become(FreeMade(g, q, q + psize, psize, true));
      MadeSame(g, q, psize, true);
      AgreeMatches(head, Binned(), small.View(), tree.View());
      InsertChunk(q, psize);
    }

    ghost method Become(g: Layout)
      modifies this`chunks, this`lasts, this`ends, this`pinned
      ensures chunks == g.chunks && lasts == g.lasts && ends == g.ends && pinned == g.pinned
    {
      chunks, lasts, ends, pinned := g.chunks, g.lasts, g.ends, g.pinned;
    }

    /** The state is g but for its chunks and the header at q, which is about to be written. */
    ghost predicate Nearly(g: Layout, q: int)
      reads this
    {
      SameBut(g.head, head, q) && foot == g.foot && lasts == g.lasts && ends == g.ends && pinned == g.pinned
    }

    method PrependTop(q: int, qsize: nat, ghost g: Layout)
      requires BinsValid() && Open(g, Binned(), dv, dvsize, top, topsize, segs, q, q, top) && top == q + qsize
               && PrevUsed(g, q) && q != dv && Nearly(g, q)
      modifies this`head, this`chunks, this`lasts, this`ends, this`pinned, this`top, this`topsize
      ensures Ready() && Returned(g, Lay(), q)
    {
      hide BinsOk, Views, ListsOk, ListViews, HeapOk, SplitBySize, LayoutOk, TopGiven, MkHead, Open, Returned, Size,
           Next, PrevUsed, TopChunks;
      FreeTop(g, Binned(), dv, dvsize, top, topsize, segs, q, q, topsize + qsize);
      topsize := topsize + qsize;
      top := q;
      SetSame(g.head, head, q, MkHead(topsize, false, true));
      head := head[q := MkHead(topsize, false, true)];
      Become(TopGiven(g, q, topsize));
      TopGivenSame(g, q, topsize);
    }

    method PrependVictim(q: int, qsize: nat, ghost g: Layout)
      requires BinsValid() && Open(g, Binned(), dv, dvsize, top, topsize, segs, q, q, dv) && dv == q + qsize
               && PrevUsed(g, q) && Nearly(g, q)
      requires dv in g.chunks && !Used(g, dv)
      modifies this`head, this`foot, this`chunks, this`lasts, this`ends, this`pinned, this`dv, this`dvsize
      ensures Ready() && Returned(g, Lay(), q)
    {
      hide BinsOk, Views, ListsOk, ListViews, HeapOk, SplitBySize, LayoutOk, FreeMade, SetFree, Open, Returned, Size,
           Next, PrevUsed, Used, ChunkSize;
      ChunkAfter(g, Binned(), dv, dvsize, top, topsize, segs, q, q, dv);
      FreeDone(g, Binned(), dv, dvsize, top, topsize, segs, q, q, dv + dvsize, qsize + dvsize, false);
      var dsize := dvsize + qsize;
      dvsize := dsize;
      dv := q;
      SetFreeSame(g.head, head, q, dsize, false);
      head := SetFree(head, q, dsize, false);
      foot := foot[q + dsize := dsize];
      Become(FreeMade(g, q, q + dsize, dsize, false));
      MadeSame(g, q, dsize, false);
    }

    method PrependBinned(q: int, qsize0: nat, oldfirst0: int, ghost g: Layout)
      requires BinsValid() && Open(g, Binned(), dv, dvsize, top, topsize, segs, q, q, oldfirst0)
               && oldfirst0 == q + qsize0 && PrevUsed(g, q) && Nearly(g, q)
      requires oldfirst0 in g.chunks && oldfirst0 != dv && PrevUsed(g, oldfirst0) && (dv < q || oldfirst0 <= dv)
               && q < oldfirst0
      modifies this`head, this`foot, this`chunks, this`lasts, this`ends, this`pinned, small, tree
      ensures Ready() && Returned(g, Lay(), q)
    {
      hide BinsOk, Views, ListsOk, ListViews, HeapOk, SplitBySize, LayoutOk, FreeMade, SetFree, Open, Returned, Size,
           Next, ChunkSize, Agree, Matches, IsSmall, SameBut;
      var qsize, oldfirst := qsize0, oldfirst0;
      ghost var b := Binned();
      OtherHead(g.head, head, q, oldfirst);
      if !IsInUse(HeadAt(head, oldfirst)) {
        ChunkAfter(g, b, dv, dvsize, top, topsize, segs, q, q, oldfirst);
        var nsize := ChunkSize(HeadAt(head, oldfirst));
        UnlinkChunk(oldfirst, nsize);
        oldfirst := oldfirst + nsize;
        qsize := qsize + nsize;
      }
      FreeDone(g, Binned(), dv, dvsize, top, topsize, segs, q, q, oldfirst, qsize, true);
      SetFreeSame(g.head, head, q, qsize, true);
      head := SetFree(head, q, qsize, true);
      foot := foot[q + qsize := qsize];
      Become(FreeMade(g, q, q + qsize, qsize, true));
      MadeSame(g, q, qsize, true);
      AgreeMatches(head, Binned(), small.View(), tree.View());
      InsertChunk(q, qsize);
    }

    /** prepend_alloc: the request is cut from the front of the new memory and the rest joins what follows. g is
        the layout in which that rest is still a chunk in use. */
    method PrependAlloc(p: int, oldfirst: int, nb: nat, ghost rs: nat, ghost g: Layout)
      requires Parts(nb, rs) && oldfirst == p + nb + rs && g == SplitMade(Fronted(Lay(), p, nb + rs), p, nb, rs)
               && PrevUsed(Lay(), oldfirst)
      requires BinsValid() && HeapOk(g, Binned(), dv, dvsize, top, topsize, segs)
      requires p + nb in Allocated(g) && Size(g, p + nb) == rs && PrevUsed(g, p + nb)
      modifies this`head, this`foot, this`chunks, this`lasts, this`ends, this`pinned, this`dv, this`dvsize, this`top,
               this`topsize, small, tree
      ensures Ready() && Returned(g, Lay(), p + nb)
    {
      hide BinsOk, Views, ListsOk, ListViews, HeapOk, SplitBySize, LayoutOk, Allocated, SplitMade, Fronted, MkHead,
           Open, Returned, Size, PrevUsed, SameBut;
      var psize := oldfirst - p;
      var q := p + nb;
      var qsize := psize - nb;
      ghost var b := Binned();
      SplitHead(Lay(), p, nb, rs);
      head := head[p := MkHead(nb, true, true)];
      OpenStart(g, b, dv, dvsize, top, topsize, segs, q);
      NextOf(g, b, dv, dvsize, top, topsize, segs, q);
      NextOfRun(g, b, dv, dvsize, top, topsize, segs, q, q, oldfirst);
      NotVictim(g, b, dv, dvsize, top, topsize, segs, q);
      if oldfirst == top {
        PrependTop(q, qsize, g);
      } else if oldfirst == dv {
        VictimWord(g, b, dv, dvsize, top, topsize, segs);
        PrependVictim(q, qsize, g);
      } else {
        PrependBinned(q, qsize, oldfirst, g);
      }
    }

    /** The segment that ends at an address, or begins there. */
    method FindSegment(addr: int, atEnd: bool) returns (k: nat)
      ensures k <= |segs| && (k < |segs| ==> addr == if atEnd then End(segs[k]) else segs[k].base)
      ensures forall j :: 0 <= j < k ==> addr != if atEnd then End(segs[j]) else segs[j].base
    {
      k := 0;
      while k < |segs| && addr != (if atEnd then End(segs[k]) else segs[k].base)
        invariant k <= |segs| && forall j :: 0 <= j < k ==> addr != if atEnd then End(segs[j]) else segs[j].base
      {
        k := k + 1;
      }
    }

    /** New memory right before segment k. */
    method Prepend(k: nat, tbase: int, tsize: nat, nb: nat) returns (p: int)
      requires Ready() && Backed() && k < |segs| && Fresh(segs, tbase, tsize) && tbase + tsize == segs[k].base
               && sbrk.Gave(tbase, tsize)
      requires nb % 8 == 0 && MIN_CHUNK_SIZE <= nb && nb + MIN_CHUNK_SIZE <= tsize
      modifies this`head, this`foot, this`chunks, this`lasts, this`ends, this`pinned, this`dv, this`dvsize, this`top,
               this`topsize, this`segs, small, tree
      ensures Ready() && Backed() && p == tbase && Handed(old(Lay()), Lay(), p, nb)
    {
      hide BinsOk, Views, ListsOk, ListViews, HeapOk, SplitBySize, LayoutOk, Fronted, SplitMade, Fresh, AllGiven, Held,
           RegionsOk, PointerOk, Allocated, Size, PrevUsed, Handed, Returned;
      ghost var h := Lay();
      ghost var rs: nat := tsize - nb;
      PrependStart(h, Binned(), dv, dvsize, top, topsize, segs, tbase, tsize, k, nb, rs);
      HeldLonger(segs, sbrk.regions, sbrk.memIndex, sbrk.heapPtr, k, tbase, tbase, tsize);
      var oldbase := segs[k].base;
      segs := segs[k := Seg(tbase, segs[k].size + tsize)];
      ghost var g := SplitMade(Fronted(h, tbase, nb + rs), tbase, nb, rs);
      PrependAlloc(tbase, oldbase, nb, rs, g);
      PrependHands(h, g, Lay(), tbase, nb, rs);
      p := tbase;
    }

    /** A request that cannot make elua_sbrk wrap around nor sys_alloc take separate blocks for one; both can be told
        from the regions, the heap pointer and the top segment. */
    ghost predicate Growable(nb: word)
      requires sbrk.Valid()
      reads this, sbrk
    {
      nb + SYS_ALLOC_PADDING + 255 < TWO_32 && topsize <= nb ==>
        && Reachable(sbrk.regions, nb)
        && (contiguous && segs != [] ==> Joins(sbrk.regions, sbrk.memIndex, sbrk.heapPtr, End(segs[0]), topsize, nb))
    }

    /** sys_alloc's choice among the ways to use new memory; p is not 0 if the request was served on the way. */
    method UseMemory(tbase: int, tsize: nat, nb: nat) returns (p: int)
      requires Valid() && Backed() && Obtained(nb, tbase, tsize) && nb % 8 == 0 && MIN_CHUNK_SIZE <= nb
      modifies this`head, this`foot, this`chunks, this`lasts, this`ends, this`pinned, this`dv, this`dvsize, this`top,
               this`topsize, this`segs, small, tree
      ensures Ready() && Backed()
      ensures if p == 0 then Kept(old(Lay()), Lay()) && nb < topsize else Handed(old(Lay()), Lay(), p, nb)
    {
      hide BinsOk, Views, ListsOk, ListViews, HeapOk, SplitBySize, Fresh, AllGiven, Held, RegionsOk, PointerOk, Handed,
           Kept;
      p := 0;
      IsInitialized(Lay(), Binned(), dv, dvsize, top, topsize, segs);
      if top == 0 {
        InitHeap(tbase, tsize);
      } else {
        TopEnd(Lay(), Binned(), dv, dvsize, top, topsize, segs);
        FreshTop(segs, tbase, tsize);
        var k := FindSegment(tbase, true);
        HoldsTop(Lay(), Binned(), dv, dvsize, top, topsize, segs, k);
        if k < |segs| && segs[k].base <= top < End(segs[k]) {
          AppendTop(tbase, tsize);
        } else {
          k := FindSegment(tbase + tsize, false);
          if k < |segs| {
            p := Prepend(k, tbase, tsize, nb);
          } else {
            var _, _ := AddSegment(tbase, tsize);
          }
        }
      }
    }

    /** There is memory for the request; that, too, can be told from the regions, the heap pointer and the segments. */
    ghost predicate CanGrow(nb: word)
      requires topsize <= nb
      reads this, sbrk
    {
      nb + SYS_ALLOC_PADDING + 255 < TWO_32
      && Grant(sbrk.regions, sbrk.memIndex, sbrk.heapPtr, contiguous, segs, topsize, nb)
    }

    /** sys_alloc fails exactly if there is no memory for the request. */
    method SysAlloc(nb: word) returns (p: int)
      requires Valid() && Backed() && topsize <= nb && (nb == MAX_SIZE_T || (nb % 8 == 0 && MIN_CHUNK_SIZE <= nb))
               && Growable(nb)
      modifies this, small, tree, sbrk
      ensures Backed() && Valid()
      ensures if p == 0 then Lay() == old(Lay()) && Binned() == old(Binned()) && segs == old(segs)
                else Ready() && Handed(old(Lay()), Lay(), p, nb)
      ensures p == 0 <==> !old(CanGrow(nb))
    {
      hide BinsOk, Views, ListsOk, ListViews, HeapOk, SplitBySize, Fresh, AllGiven, Held, RegionsOk, PointerOk, Handed,
           Kept, Joins, Reachable, GranularityAlign, HasRoom, FirstGrant, TopGrant;
      p := 0;
      var asize := GranularityAlign(Wrap(nb + SYS_ALLOC_PADDING));
      Padded(nb);
      if asize <= nb {
        return;
      }
      IsInitialized(Lay(), Binned(), dv, dvsize, top, topsize, segs);
      var tbase, tsize := FAILURE, 0;
      if contiguous {
        if top != 0 {
          TopEnd(Lay(), Binned(), dv, dvsize, top, topsize, segs);
        }
        tbase, tsize := MoreContiguous(nb, asize);
      }
      if tbase == FAILURE {
        tbase, tsize := MoreAnywhere(nb, asize);
      }
      if tbase != FAILURE {
        p := UseMemory(tbase, tsize, nb);
        if p == 0 && nb < topsize {
          ghost var g := Lay();
          p := SplitTop(nb);
          KeptHanded(old(Lay()), g, Lay(), p, nb);
        }
      }
    }

    // ---- dlmalloc ----

    /** A remainderless fit: the first chunk of bin i is handed out whole. */
    method TakeFirst(i: nat, nb: nat) returns (p: int)
      requires Ready() && i < NSMALLBINS && Marked(small.smallmap, i) && nb <= 8 * i < nb + MIN_CHUNK_SIZE
      modifies this`head, small
      ensures Ready() && p > 0 && Handed(old(Lay()), Lay(), p, nb)
      ensures p in old(small.View()) && old(small.View())[p] == 8 * i
    {
      hide BinsOk, Views, ListsOk, ListViews, HeapOk, SplitBySize, Handed, Take, Marked, LayoutOk, Size, Used;
      ghost var h, b := Lay(), Binned();
      p := small.First(i);
      SmallChunk(h, b, dv, dvsize, top, topsize, segs, small.View(), tree.View(), p, 8 * i);
      TakeStep(h, b, dv, dvsize, top, topsize, segs, p, nb);
      EarlierRemove(small.View(), tree.View(), p);
      SplitRemove(small.View(), tree.View(), p);
      small.UnlinkFirst(p, i);
      head := Take(head, p, 8 * i);
    }

    /** The first chunk of bin i is split; its rest becomes the victim. */
    method SplitFirst(i: nat, nb: word) returns (p: int)
      requires Ready() && i < NSMALLBINS && Marked(small.smallmap, i) && nb % 8 == 0 && MIN_CHUNK_SIZE <= nb
               && nb + MIN_CHUNK_SIZE <= 8 * i && dvsize < nb
      modifies this`head, this`foot, this`chunks, this`dv, this`dvsize, small
      ensures Ready() && p > 0 && Handed(old(Lay()), Lay(), p, nb)
      ensures p in old(small.View()) && old(small.View())[p] == 8 * i
    {
      hide BinsOk, Views, ListsOk, ListViews, HeapOk, SplitBySize, Handed, Marked, LayoutOk, Size, Used;
      ghost var h, b := Lay(), Binned();
      p := small.First(i);
      SmallChunk(h, b, dv, dvsize, top, topsize, segs, small.View(), tree.View(), p, 8 * i);
      EarlierRemove(small.View(), tree.View(), p);
      SplitRemove(small.View(), tree.View(), p);
      small.UnlinkFirst(p, i);
      var rsize := 8 * i - nb;
      CarveToVictim(p, nb, rsize, b);
    }

    /** The victim serves the request. */
    method TakeVictim(nb: word) returns (p: int)
      requires Ready() && nb % 8 == 0 && MIN_CHUNK_SIZE <= nb <= dvsize
      modifies this`head, this`foot, this`chunks, this`dv, this`dvsize
      ensures Ready() && p == old(dv) > 0 && Handed(old(Lay()), Lay(), p, nb)
    {
      hide BinsOk, Views, ListsOk, ListViews, HeapOk, SplitBySize, Handed, Take, TakeFront, MkHead, LayoutOk, Size,
           Used, Cut;
      ghost var h, b := Lay(), Binned();
      VictimWord(h, b, dv, dvsize, top, topsize, segs);
      var rsize := dvsize - nb;
      Multiples(nb, dvsize);
      p := dv;
      if rsize >= MIN_CHUNK_SIZE {
        VictimFront(h, b, dv, dvsize, top, topsize, segs, nb, rsize);
        dv := p + nb;
        var r := dv;
        dvsize := rsize;
        head := TakeFront(head, p, nb, rsize);
        foot := foot[r + rsize := rsize];
        chunks := Cut(chunks, p, r, r + rsize);
      } else {
        TakeStep(h, b, dv, dvsize, top, topsize, segs, p, nb);
        assert b - {p} == b;
        var dvs := dvsize;
        dvsize := 0;
        dv := 0;
        head := Take(head, p, dvs);
      }
    }

    /** The bins' part of a small request: p is 0 if dv can serve it or nothing in the bins can. */
    method BinsSmall(nb: word) returns (p: int)
      requires Valid() && nb % 8 == 0 && MIN_CHUNK_SIZE <= nb < MIN_LARGE_SIZE
      modifies this`head, this`foot, this`chunks, this`dv, this`dvsize, small, tree
      ensures if p == 0 then Valid() && Unserved(Lay(), Binned(), dv, dvsize, nb) && Lay() == old(Lay())
              && Binned() == old(Binned()) && dv == old(dv) && dvsize == old(dvsize)
              else Ready() && Handed(old(Lay()), Lay(), p, nb)
      ensures if p == 0 then NoBinFit(old(Binned()), old(dvsize), nb) else BinFit(old(Binned()), old(dvsize), nb, p)
    {
      hide BinsOk, Views, ListsOk, ListViews, HeapOk, SplitBySize, Handed, Marked, Bit, LayoutOk, Size, Used, Shr,
           LeastBit, Bit2Idx, ShiftedNext, Allocated, BinFit, NoBinFit;
      ghost var h, b := Lay(), Binned();
      p := 0;
      EmptyBins(small, tree);
      EmptyMap(small.smallmap);
      var idx := nb / 8;
      var smallbits := Shr(small.smallmap, idx);
      ShiftedMarks(small.smallmap, idx);
      if Bit(smallbits, 0) || Bit(smallbits, 1) {
        idx := idx + if Bit(smallbits, 0) then 0 else 1;
        SmallFits(small, tree.View(), dvsize, nb, idx);
        p := TakeFirst(idx, nb);
      } else if nb > dvsize {
        if smallbits != 0 {
          ShiftedNextIsLowest(small.smallmap, idx);
          var leftbits := ShiftedNext(smallbits, idx);
          var i := Bit2Idx(LeastBit(leftbits));
          SmallFits(small, tree.View(), dvsize, nb, i);
          p := SplitFirst(i, nb);
        } else if tree.treemap != 0 {
          NoneSmall(small, nb);
          p := TmallocSmall(nb);
          LeastFits(old(small.View()), old(tree.View()), old(dvsize), nb, p);
        } else {
          NoneSmall(small, nb);
          NoneLarge(tree);
          Unbinnable(h, b, small.View(), tree.View(), nb, dv, dvsize);
          NoneFits(b, dvsize, nb);
        }
      } else {
        NoExactFit(small, tree.View(), dvsize, nb);
      }
    }

    /** The bins' part of any request; nb is MAX_SIZE_T for one that is too large. */
    method FromBins(bytes: word) returns (p: int, nb: word)
      requires Valid()
      modifies this`head, this`foot, this`chunks, this`dv, this`dvsize, small, tree
      ensures Valid() && nb == Need(bytes)
      ensures if p == 0 then Lay() == old(Lay()) && Binned() == old(Binned()) && dv == old(dv) && dvsize == old(dvsize)
              && Unserved(Lay(), Binned(), dv, dvsize, nb)
              else Ready() && Handed(old(Lay()), Lay(), p, nb)
      ensures if p == 0 then NoBinFit(old(Binned()), old(dvsize), nb) else BinFit(old(Binned()), old(dvsize), nb, p)
    {
      hide BinsOk, Views, ListsOk, ListViews, HeapOk, SplitBySize, Handed, LayoutOk, Allocated, PadRequest, LargeChoice,
           BinFit, NoBinFit;
      p := 0;
      ghost var h, b := Lay(), Binned();
      EmptyBins(small, tree);
      if bytes < MAX_REQUEST {
        RequestFits(bytes);
      }
      if bytes <= MAX_SMALL_REQUEST {
        nb := if bytes < MIN_REQUEST then MIN_CHUNK_SIZE else PadRequest(bytes);
        p := BinsSmall(nb);
      } else if bytes >= MAX_REQUEST {
        nb := MAX_SIZE_T;
        SizesBelow(h, b, dv, dvsize, top, topsize, segs);
        NoneFits(b, dvsize, nb);
      } else {
        nb := PadRequest(bytes);
        if tree.treemap != 0 {
          ghost var v, view := small.View(), tree.View();
          p := TmallocLarge(nb);
          LargeFits(v, view, old(dvsize), nb, p);
          if p == 0 {
            NotInTree(h, b, v, view, dv, dvsize, nb);
          }
        } else {
          NoneLarge(tree);
          NotInTree(h, b, small.View(), tree.View(), dv, dvsize, nb);
          LargeFits(small.View(), tree.View(), dvsize, nb, 0);
        }
      }
    }

    /** Nothing free can serve a request of nb bytes. */
    ghost predicate NoRoom(nb: nat)
      reads this, small, tree
    {
      dvsize < nb && topsize <= nb && forall a :: a in Binned() ==> Binned()[a] < nb
    }

    /** Which chunk serves a request that the free memory can serve. */
    ghost predicate Serves(nb: word, p: int)
      reads this, small, tree
    {
      Picked(Binned(), dv, dvsize, top, topsize, nb, p)
    }

    /** Nothing free can serve a request of nb bytes, and no memory can be obtained for it. */
    ghost predicate NoMemory(nb: word)
      reads this, small, tree, sbrk
    {
      NoRoom(nb) && !CanGrow(nb)
    }

    method DlMalloc(bytes: word) returns (mem: int)
      requires Valid() && Backed() && Growable(Need(bytes))
      modifies this, small, tree, sbrk
      ensures Valid() && Backed()
      ensures mem != 0 ==>
                bytes < MAX_REQUEST && Ready() && Handed(old(Lay()), Lay(), Mem2Chunk(mem), Request2Size(bytes))
      ensures mem == 0 ==> Lay() == old(Lay()) && Binned() == old(Binned())
      ensures mem == 0 <==> old(NoMemory(Need(bytes)))
      ensures mem != 0 ==> old(Serves(Need(bytes), Mem2Chunk(mem)))
    {
      hide BinsOk, Views, ListsOk, ListViews, HeapOk, SplitBySize, Handed, LayoutOk, Allocated, Request2Size, Held,
           RegionsOk, PointerOk, Joins, Reachable, Grant, BinFit, NoBinFit;
      ghost var h, b := Lay(), Binned();
      SizesBelow(h, b, dv, dvsize, top, topsize, segs);
      var p, nb := FromBins(bytes);
      FitIsRoom(b, old(dvsize), nb, p);
      if p == 0 {
        if bytes < MAX_REQUEST { RequestFits(bytes); }
        if nb <= dvsize {
          p := TakeVictim(nb);
        } else if nb < topsize {
          p := SplitTop(nb);
        } else {
          p := SysAlloc(nb);
        }
      }
      if p == 0 {
        mem := 0;
      } else {
        NotHuge(h, Lay(), p, nb);
        HandedChunk(Lay(), Binned(), dv, dvsize, top, topsize, segs, h, p, nb);
        mem := Chunk2Mem(p);
      }
    }

    /** The part of dlrealloc that moves a chunk which cannot grow in place. */
    method MoveAway(oldmem: int, bytes: word) returns (mem: int)
      requires Ready() && Backed() && Growable(Need(bytes)) && oldmem != 0 && Mem2Chunk(oldmem) in Allocated(Lay())
      modifies this, small, tree, sbrk, data
      ensures Valid() && Backed() && (mem == 0 <==> old(NoMemory(Need(bytes))))
      ensures mem == 0 ==> Lay() == old(Lay()) && Binned() == old(Binned()) && data.bytes == old(data.bytes)
      ensures mem != 0 ==>
                && bytes < MAX_REQUEST && mem != oldmem
                && Moved(old(Lay()), Lay(), Mem2Chunk(oldmem), Mem2Chunk(mem), Request2Size(bytes))
                && Copied(old(data.bytes), data.bytes, oldmem, mem, KeptBytes(old(Lay()), Mem2Chunk(oldmem), bytes))
      ensures PayloadsKept(old(Lay()), old(data.bytes), data.bytes)
    {
      hide BinsOk, Views, ListsOk, ListViews, HeapOk, SplitBySize, Handed, Returned, LayoutOk, Allocated, Request2Size,
           Held, RegionsOk, PointerOk, Joins, Reachable, Size, PayloadsKept, Copied, OnlyAt, KeptBytes, Grant, Serves,
           Moved, InPayload, Growable, NoRoom, CanGrow;
      NothingWritten(Lay(), data.bytes);
      mem := DlMalloc(bytes);
      if mem != 0 {
        RequestFits(bytes);
        var oldp := Mem2Chunk(oldmem);
        ghost var g, nb := Lay(), Request2Size(bytes);
        StillThere(old(Lay()), g, Mem2Chunk(mem), nb, oldp);
        CopyPlaces(old(Lay()), g, Binned(), dv, dvsize, top, topsize, segs, oldp, Mem2Chunk(mem), bytes, nb);
        var oc := ChunkSize(HeadAt(head, oldp)) - 4;
        var n := if oc < bytes then oc else bytes;
        data.Copy(mem, oldmem, n);
        WrittenApart(old(Lay()), g, Binned(), dv, dvsize, top, topsize, segs, Mem2Chunk(mem), nb, n,
            old(data.bytes), data.bytes);
        DlFree(oldmem);
        MovedOver(old(Lay()), g, Lay(), oldp, Mem2Chunk(mem), nb);
      }
    }

    /** dlrealloc, built with REALLOC_ZERO_BYTES_FREES. */
    method DlRealloc(oldmem: int, bytes: word) returns (mem: int)
      requires Valid() && Backed() && Growable(Need(bytes))
      requires oldmem != 0 ==> Ready() && Mem2Chunk(oldmem) in Allocated(Lay())
      modifies this, small, tree, sbrk, data
      ensures Valid() && Backed()
      ensures oldmem == 0 && mem != 0 ==> Handed(old(Lay()), Lay(), Mem2Chunk(mem), Request2Size(bytes))
      ensures oldmem != 0 && bytes == 0 ==> mem == 0 && Returned(old(Lay()), Lay(), Mem2Chunk(oldmem))
      ensures mem == 0 && (oldmem == 0 || bytes != 0) ==> Lay() == old(Lay()) && Binned() == old(Binned())
      ensures oldmem == 0 ==> (mem == 0 <==> old(NoMemory(Need(bytes))))
      ensures oldmem != 0 && bytes >= MAX_REQUEST ==> mem == 0
      ensures oldmem != 0 && 0 < bytes < MAX_REQUEST ==>
                (mem == 0 <==> old(!RoomAt(Lay(), top, topsize, Mem2Chunk(oldmem), Request2Size(bytes))
                                   && NoMemory(Need(bytes))))
      ensures && oldmem != 0 && 0 < bytes < MAX_REQUEST
              && old(RoomAt(Lay(), top, topsize, Mem2Chunk(oldmem), Request2Size(bytes))) ==>
                mem == oldmem
      ensures oldmem != 0 && mem == oldmem ==> Resized(old(Lay()), Lay(), Mem2Chunk(oldmem), Request2Size(bytes))
      ensures oldmem != 0 && mem != 0 && mem != oldmem ==>
                Moved(old(Lay()), Lay(), Mem2Chunk(oldmem), Mem2Chunk(mem), Request2Size(bytes))
      ensures oldmem != 0 && mem != 0 ==>
                Copied(old(data.bytes), data.bytes, oldmem, mem, KeptBytes(old(Lay()), Mem2Chunk(oldmem), bytes))
      ensures PayloadsKept(old(Lay()), old(data.bytes), data.bytes)
    {
      hide BinsOk, Views, ListsOk, ListViews, HeapOk, SplitBySize, Handed, Returned, Resized, LayoutOk, Allocated,
           Request2Size, Held, RegionsOk, PointerOk, Joins, Reachable, Size, RoomAt, PayloadsKept, Copied, OnlyAt,
           KeptBytes, Grant, Serves, Moved, InPayload;
      NothingWritten(Lay(), data.bytes);
      mem := 0;
      if oldmem == 0 {
        mem := DlMalloc(bytes);
      } else if bytes >= MAX_REQUEST {
      } else if bytes == 0 {
        DlFree(oldmem);
      } else {
        var nb := Request2Size(bytes);
        RequestFits(bytes);
        var oldp := Mem2Chunk(oldmem);
        var newp := TryRealloc(oldp, nb);
        if newp != 0 {
          mem := Chunk2Mem(newp);
        } else {
          mem := MoveAway(oldmem, bytes);
        }
      }
    }
    /** dlcalloc: the product is checked for overflow, and the memory is cleared. */
    method DlCalloc(n: word, size: word) returns (mem: int)
      requires Valid() && Backed() && Growable(Need(Total(n, size)))
      modifies this, small, tree, sbrk, data
      ensures Valid() && Backed()
      ensures mem != 0 ==> Total(n, size) < MAX_REQUEST && Ready()
                           && Handed(old(Lay()), Lay(), Mem2Chunk(mem), Need(Total(n, size)))
                           && Cleared(data.bytes, mem, Total(n, size))
      ensures mem == 0 ==> Lay() == old(Lay()) && Binned() == old(Binned())
      ensures mem == 0 <==> old(NoMemory(Need(Total(n, size))))
      ensures PayloadsKept(old(Lay()), old(data.bytes), data.bytes)
    {
      hide BinsOk, Views, ListsOk, ListViews, HeapOk, SplitBySize, Handed, LayoutOk, Allocated, Request2Size, Held,
           RegionsOk, PointerOk, Joins, Reachable, PayloadsKept, Cleared, OnlyAt, Grant, Picked;
      Calloc.NeverShort(n, size);
      var req := Calloc.CallocRequest(n, size);
      hide Calloc.CallocRequest;
      NothingWritten(Lay(), data.bytes);
      mem := DlMalloc(req);
      if mem != 0 {
        data.Clear(mem, req);
        RequestFits(req);
        WrittenApart(old(Lay()), Lay(), Binned(), dv, dvsize, top, topsize, segs, Mem2Chunk(mem), Request2Size(req),
            req,
            old(data.bytes), data.bytes);
      }
    }
  }

  function Total(n: word, size: word): nat { n * size }

  /** The chunk size for a request; one that is too large to serve is asked for as MAX_SIZE_T. */
  function Need(bytes: nat): word { if bytes >= MAX_REQUEST then MAX_SIZE_T else Request2Size(bytes) }

  /** A request needs the least legal chunk with room for it and a header, or is too large for any. */
  lemma NeedFits(bytes: nat)
    ensures if bytes >= 0xFFFF_FFC0 then Need(bytes) == 0xFFFF_FFFF
            else && Need(bytes) % 8 == 0 && MIN_CHUNK_SIZE <= Need(bytes) && bytes + 4 <= Need(bytes)
                 && (Need(bytes) == MIN_CHUNK_SIZE || Need(bytes) < bytes + 12)
  {
    if bytes < MAX_REQUEST { RequestFits(bytes); }
    hide Request2Size;
  }

  /** A chunk that moves keeps every byte that is in the old payload and in the new one. */
  lemma KeptIff(h: Layout, p: int, bytes: nat, i: nat)
    ensures i < KeptBytes(h, p, bytes) <==> i < bytes && InPayload(h, p, Chunk2Mem(p) + i)
  {
    hide Size;
  }

  /** How many bytes of a payload a resized chunk keeps. */
  function KeptBytes(h: Layout, p: int, bytes: nat): nat {
    if Size(h, p) < 4 then 0 else if Size(h, p) - 4 < bytes then Size(h, p) - 4 else bytes
  }

  /** Every caller's payload is as it was. */
  ghost predicate PayloadsKept(h: Layout, was: map<int, byte>, now: map<int, byte>) {
    forall p, x :: p in Allocated(h) && InPayload(h, p, x) ==> ByteAt(now, x) == ByteAt(was, x)
  }

  lemma NothingWritten(h: Layout, m: map<int, byte>)
    ensures PayloadsKept(h, m, m) && forall p, n: nat :: Copied(m, m, p, p, n)
  {
  }

  lemma PayloadsDisjoint(h: Layout, b: map<int, nat>, dv: int, dvsize: nat, top: int, topsize: nat, segs: seq<Seg>,
          p: int, q: int, x: int)
    requires HeapOk(h, b, dv, dvsize, top, topsize, segs) && p in Allocated(h) && q in Allocated(h) && p != q
    requires InPayload(h, p, x)
    ensures !InPayload(h, q, x)
  {
    hide LayoutOk, Indexed, VictimOk, TopOk, SegsOk, Size, Used;
    ApartAt(h, p, q);
    ApartAt(h, q, p);
  }

  /** Writes to a new chunk spare what was handed out before. */
  lemma WrittenApart(h: Layout, g: Layout, b: map<int, nat>, dv: int, dvsize: nat, top: int, topsize: nat,
          segs: seq<Seg>, q: int, nb: nat, n: nat, was: map<int, byte>, now: map<int, byte>)
    requires HeapOk(g, b, dv, dvsize, top, topsize, segs) && Handed(h, g, q, nb) && n + 4 <= nb
    requires OnlyAt(was, now, Chunk2Mem(q), n)
    ensures PayloadsKept(h, was, now)
  {
    hide HeapOk, Size, Allocated, ByteAt;
    forall p, x | p in Allocated(h) && InPayload(h, p, x)
      ensures ByteAt(now, x) == ByteAt(was, x)
    {
      assert p in Allocated(g) && q in Allocated(g) && Size(g, p) == Size(h, p) && InPayload(g, p, x);
      PayloadsDisjoint(g, b, dv, dvsize, top, topsize, segs, p, q, x);
    }
  }

  /** The old chunk and the new one do not overlap, and the old one is still as large as it was. */
  lemma CopyPlaces(h: Layout, g: Layout, b: map<int, nat>, dv: int, dvsize: nat, top: int, topsize: nat,
          segs: seq<Seg>, p: int, q: int, bytes: nat, nb: nat)
    requires HeapOk(g, b, dv, dvsize, top, topsize, segs) && Handed(h, g, q, nb) && p in Allocated(h)
    requires bytes + 4 <= nb
    ensures var n, oc := KeptBytes(h, p, bytes), ChunkSize(HeadAt(g.head, p)) - 4;
            && oc >= 0 && n == (if oc < bytes then oc else bytes)
            && (Chunk2Mem(q) + n <= Chunk2Mem(p) || Chunk2Mem(p) + n <= Chunk2Mem(q))
  {
    SizeIs(g, p);
    hide LayoutOk, Indexed, VictimOk, TopOk, SegsOk, Size, Used, ChunkSize;
    assert p in g.chunks && q in g.chunks && p != q;
    AlignedAt(g, p);
    ApartAt(g, p, q);
    ApartAt(g, q, p);
  }

  lemma SizeIs(h: Layout, p: int)
    ensures Size(h, p) == ChunkSize(HeadAt(h.head, p))
  {
  }

  /** The chunk p was replaced by another one, q, of nb bytes or a little more. */
  ghost predicate Moved(h: Layout, g: Layout, p: int, q: int, nb: nat) {
    && p in Allocated(h) && q !in Allocated(h) && Allocated(g) == Allocated(h) - {p} + {q}
    && nb <= Size(g, q) < nb + MIN_CHUNK_SIZE
    && forall x :: x in Allocated(h) && x != p ==> Size(g, x) == Size(h, x)
  }

  lemma StillThere(h: Layout, g: Layout, q: int, nb: nat, p: int)
    requires Handed(h, g, q, nb) && p in Allocated(h)
    ensures p in Allocated(g) && p != q
  {
    hide Size, Allocated;
  }

  lemma MovedOver(h: Layout, g: Layout, k: Layout, p: int, q: int, nb: nat)
    requires Handed(h, g, q, nb) && Returned(g, k, p) && p in Allocated(h)
    ensures Moved(h, k, p, q, nb)
  {
    hide Size, Allocated;
  }

  /** The bytes a caller may use: from behind the header up to the header of the next chunk. */
  predicate InPayload(h: Layout, p: int, x: int) { p + 8 <= x < p + Size(h, p) + 4 }

  /** What callers own: payloads begin at multiples of 8, lie in memory that elua_sbrk handed out, never overlap, and
      hold no header of any chunk, of top or of a fencepost that ends a run, and nothing of a free chunk from its
      header up to and including its footer, where its links are. */
  lemma PayloadsApart(h: Layout, b: map<int, nat>, dv: int, dvsize: nat, top: int, topsize: nat, segs: seq<Seg>,
          rs: seq<Region>, index: nat, ptr: int, p: int, x: int)
    requires HeapOk(h, b, dv, dvsize, top, topsize, segs) && Held(segs, rs, index, ptr) && p in Allocated(h)
             && InPayload(h, p, x)
    ensures Chunk2Mem(p) % 8 == 0 && Given(rs, index, ptr, x)
    ensures forall q :: q in Allocated(h) && InPayload(h, q, x) ==> q == p
    ensures forall q :: q in h.chunks || q in h.lasts ==> !(q + 4 <= x < q + 8)
    ensures forall q :: q in h.chunks && !Used(h, q) ==> !(q + 4 <= x < Next(h, q) + 4)
  {
    hide LayoutOk, Indexed, VictimOk, TopOk, SegsOk, Size, Used, Given;
    AlignedAt(h, p);
    var k := HomeOf(segs, h, p);
    SegFacts(segs, h, k);
    LastAt(h, k);
    assert AllGiven(rs, index, ptr, segs[k].base, segs[k].size);
    forall q | q in h.chunks
      ensures InPayload(h, q, x) ==> q == p
      ensures !(q + 4 <= x < q + 8) && (!Used(h, q) ==> !(q + 4 <= x < Next(h, q) + 4))
    {
      ApartAt(h, p, q);
      ApartAt(h, q, p);
      AlignedAt(h, q);
    }
    forall j | 0 <= j < |h.lasts|
      ensures !(h.lasts[j] + 4 <= x < h.lasts[j] + 8)
    {
      BoundedAt(h, p, j);
      LastAt(h, j);
    }
  }

  /** Whether a block becomes a segment of its own or the front of another one: if it is not all handed out, the heap
      is not backed by memory any more. */
  lemma StrayNeverHeld(segs: seq<Seg>, rs: seq<Region>, index: nat, ptr: int, base: int, size: nat, k: nat)
    requires !AllGiven(rs, index, ptr, base, size)
    ensures !Held([Seg(base, size)] + segs, rs, index, ptr)
    ensures k < |segs| && segs[k].base == base + size ==>
              !Held(segs[k := Seg(base, segs[k].size + size)], rs, index, ptr)
  {
    hide Given;
    assert ([Seg(base, size)] + segs)[0] == Seg(base, size);
    if k < |segs| {
      assert segs[k := Seg(base, segs[k].size + size)][k] == Seg(base, segs[k].size + size);
    }
  }

  /** A block that is given but too small for the request: in front of a segment, prepend_alloc lets the chunk it hands
      out reach into the first chunk of that segment, and the size of the rest wraps around. As a segment of its own it
      only makes a top from which the request is not served. */
  lemma ShortPrepend(h: Layout, b: map<int, nat>, dv: int, dvsize: nat, top: int, topsize: nat, segs: seq<Seg>, k: nat,
          base: int, size: nat, nb: nat)
    requires HeapOk(h, b, dv, dvsize, top, topsize, segs) && k < |segs| && base + size == segs[k].base
    requires 0 < size < nb < TWO_32
    ensures base < segs[k].base < base + nb && (segs[k].base in h.chunks || segs[k].base in h.lasts)
    ensures (size - nb) % TWO_32 == size - nb + TWO_32 > size
  {
    hide LayoutOk, Indexed, VictimOk, TopOk, SegsOk, Used;
    SegFacts(segs, h, k);
    hide SegAt;
    WrappedBelow(size - nb);
  }

  lemma WrappedBelow(x: int)
    requires -TWO_32 < x < 0
    ensures x % TWO_32 == x + TWO_32
  {
  }

  /** A layout of RAM regions, and a heap on it in order, from which sys_alloc loses the heap. After a small malloc and
      its free, top fills the first region. A request of 400 bytes then gets 256 bytes from the second region, asks for
      256 more, which come from the third, and takes the 512 bytes from the first block on for the new top segment,
      although elua_sbrk never gave those behind the second region. */
  lemma GrowthCanOverrun() returns (h: Layout)
    ensures var rs, segs := [Region(0x1000, 0x1100), Region(0x3000, 0x3100), Region(0x8000, 0x9000)],
            [Seg(0x1000, 0x100)];
            && RegionsOk(rs) && Gaps(rs) && PointerOk(rs, 0, 0x1100) && Held(segs, rs, 0, 0x1100)
            && HeapOk(h, map[], 0, 0, 0x1000, 216, segs) && Allocated(h) == {}
            && !Joins(rs, 0, 0x1100, End(segs[0]), 216, 400)
            && GranularityAlign(400 - 216 + SYS_ALLOC_PADDING) == 256
            && Serve(rs, 0, 0x1100, 256) == (1, 0x3100, 0x3000)
            && GranularityAlign(400 + SYS_ALLOC_PADDING - 256) == 256
            && Serve(rs, 1, 0x3100, 256) == (2, 0x8100, 0x8000)
            && !Held([Seg(0x3000, 256 + 256)] + segs, rs, 2, 0x8100)
  {
    h := SmallMallocAndFree();
    ThreeRegions();
    hide *;
  }

  /** The first memory, a chunk of 16 bytes off its top, and that chunk given back. */
  lemma SmallMallocAndFree() returns (h: Layout)
    ensures HeapOk(h, map[], 0, 0, 0x1000, 216, [Seg(0x1000, 0x100)]) && Allocated(h) == {}
  {
    var segs := [Seg(0x1000, 0x100)];
    var none := Layout({}, map[], map[], [], [], {});
    hide HeapOk, Handed, Returned, Open, TopTaken, TopGiven, Allocated, PrevUsed, Size, InitTop, Kept;
    FirstSegment(none, 0x1000, 0x100, 216);
    var first := none.(head := InitTop(none.head, 0x1000, 216), lasts := [0x1000], ends := [0x1100]);
    TopStep(first, map[], 0, 0, 0x1000, 216, segs, 16, 200);
    var one := TopTaken(first, 16, 200);
    OpenStart(one, map[], 0, 0, 0x1010, 200, segs, 0x1000);
    FreeTop(one, map[], 0, 0, 0x1010, 200, segs, 0x1000, 0x1000, 216);
    h := TopGiven(one, 0x1000, 216);
  }

  function RamRegions(): seq<Region> { [Region(0x1000, 0x1100), Region(0x3000, 0x3100), Region(0x8000, 0x9000)] }

  lemma ThreeRegions()
    ensures var rs, segs := [Region(0x1000, 0x1100), Region(0x3000, 0x3100), Region(0x8000, 0x9000)],
            [Seg(0x1000, 0x100)];
            && RegionsOk(rs) && Gaps(rs) && PointerOk(rs, 0, 0x1100) && Held(segs, rs, 0, 0x1100)
            && !Joins(rs, 0, 0x1100, End(segs[0]), 216, 400)
            && GranularityAlign(400 - 216 + SYS_ALLOC_PADDING) == 256
            && Serve(rs, 0, 0x1100, 256) == (1, 0x3100, 0x3000)
            && GranularityAlign(400 + SYS_ALLOC_PADDING - 256) == 256
            && Serve(rs, 1, 0x3100, 256) == (2, 0x8100, 0x8000)
            && !Held([Seg(0x3000, 256 + 256)] + segs, rs, 2, 0x8100)
  {
    assert RegionsOk(RamRegions()) && Gaps(RamRegions()) && PointerOk(RamRegions(), 0, 0x1100);
    hide Joins, Held, Serve, GranularityAlign, Gaps, RegionsOk;
    RegionsServe();
    RegionsStray();
    RegionsHold();
  }

  lemma RegionsServe()
    ensures Serve(RamRegions(), 0, 0x1100, 256) == (1, 0x3100, 0x3000)
            && Serve(RamRegions(), 1, 0x3100, 256) == (2, 0x8100, 0x8000)
  {
    var rs := RamRegions();
    assert Serve(rs, 1, 0x3100, 256) == Serve(rs, 2, 0, 256);
    assert Serve(rs, 0, 0x1100, 256) == Serve(rs, 1, 0, 256);
  }

  lemma RegionsStray()
    ensures GranularityAlign(232) == 256 && GranularityAlign(192) == 256
            && !Joins(RamRegions(), 0, 0x1100, 0x1100, 216, 400)
  {
    var rs := RamRegions();
    assert GranularityAlign(232) == 256 && GranularityAlign(192) == 256;
    hide GranularityAlign;
    assert FirstRoom(rs, 0, 0x1100, 256, 1) && StartIn(rs, 0, 0x1100, 1) == 0x3000;
    assert rs[2].first + 256 <= rs[2].last && !NoneBehind(rs, 1, 256);
    assert !Follows(rs, 1, 0x3100, 256, 400);
  }

  lemma RegionsHold()
    ensures Held([Seg(0x1000, 0x100)], RamRegions(), 0, 0x1100)
            && !Held([Seg(0x3000, 512)] + [Seg(0x1000, 0x100)], RamRegions(), 2, 0x8100)
  {
    var rs := RamRegions();
    assert !Given(rs, 2, 0x8100, 0x3100);
    assert !AllGiven(rs, 2, 0x8100, 0x3000, 512) by { assert 0x3000 <= 0x3100 < 0x3000 + 512; }
    assert ([Seg(0x3000, 512)] + [Seg(0x1000, 0x100)])[0] == Seg(0x3000, 512);
    forall x | 0x1000 <= x < 0x1100
      ensures Given(rs, 0, 0x1100, x)
    {
      assert rs[0].first <= x < 0x1100;
    }
  }

  /** The bins serve the request with p: a smallest chunk that is large enough, and, if the victim would do, one that
      is nearly of the size asked for or, for a large request, smaller than the victim. */
  ghost predicate BinFit(b: map<int, nat>, dvsize: nat, nb: nat, p: int) {
    && p in b && nb <= b[p] && (forall a :: a in b && nb <= b[a] ==> b[p] <= b[a])
    && (nb <= dvsize ==> if nb < MIN_LARGE_SIZE then b[p] <= nb + 8 && b[p] < MIN_LARGE_SIZE else b[p] < dvsize)
  }

  ghost predicate NoBinFit(b: map<int, nat>, dvsize: nat, nb: nat) { forall p :: !BinFit(b, dvsize, nb, p) }

  /** A request is served by one from the bins if they have one to serve it, or
      else the victim if it is large enough, or else the front of top. */
  ghost predicate Picked(b: map<int, nat>, dv: int, dvsize: nat, top: int, topsize: nat, nb: nat, p: int) {
    || BinFit(b, dvsize, nb, p)
    || (NoBinFit(b, dvsize, nb) && if nb <= dvsize then p == dv else nb < topsize ==> p == top)
  }

  lemma SmallFits(small: SmallTable, tree: map<int, nat>, dvsize: nat, nb: nat, i: nat)
    requires small.Valid() && SplitBySize(small.View(), tree) && nb % 8 == 0 && nb < MIN_LARGE_SIZE
    requires nb / 8 <= i < NSMALLBINS && (forall j :: nb / 8 <= j < i ==> !Marked(small.smallmap, j))
             && (i <= nb / 8 + 1 || dvsize < nb)
    ensures forall p :: p in small.View() && small.View()[p] == 8 * i ==>
                        BinFit(small.View() + tree, dvsize, nb, p)
  {
    hide ListsOk, ListViews, Marked;
    forall a | a in small.View() && nb <= small.View()[a]
      ensures 8 * i <= small.View()[a]
    {
      var j, k := Placed(small.lists, small.smallmap, small.fd, small.bk, a);
    }
  }

  lemma NoExactFit(small: SmallTable, tree: map<int, nat>, dvsize: nat, nb: nat)
    requires small.Valid() && SplitBySize(small.View(), tree) && nb % 8 == 0 && nb < MIN_LARGE_SIZE && nb <= dvsize
    requires !Marked(small.smallmap, nb / 8) && (nb / 8 < 31 ==> !Marked(small.smallmap, nb / 8 + 1))
    ensures NoBinFit(small.View() + tree, dvsize, nb)
  {
    hide ListsOk, ListViews, Marked;
    forall a | a in small.View() && nb <= small.View()[a]
      ensures nb + 8 < small.View()[a]
    {
      var j, k := Placed(small.lists, small.smallmap, small.fd, small.bk, a);
    }
  }

  lemma LeastFits(small: map<int, nat>, tree: map<int, nat>, dvsize: nat, nb: nat, p: int)
    requires SplitBySize(small, tree) && nb < MIN_LARGE_SIZE && dvsize < nb && forall a :: a in small ==> small[a] < nb
    requires p in tree && forall a :: a in tree ==> tree[p] <= tree[a]
    ensures BinFit(small + tree, dvsize, nb, p)
  {
  }

  lemma LargeFits(small: map<int, nat>, tree: map<int, nat>, dvsize: nat, nb: nat, p: int)
    requires SplitBySize(small, tree) && MIN_LARGE_SIZE <= nb && (LargeChoice(tree, nb, dvsize, p)
             || (tree == map[] && p == 0))
    ensures if p == 0 then NoBinFit(small + tree, dvsize, nb) else BinFit(small + tree, dvsize, nb, p)
  {
  }

  lemma FitIsRoom(b: map<int, nat>, dvsize: nat, nb: nat, p: int)
    ensures BinFit(b, dvsize, nb, p) ==> p in b && nb <= b[p]
  {
  }

  lemma NoneFits(b: map<int, nat>, dvsize: nat, nb: nat)
    requires forall a :: a in b ==> b[a] < nb
    ensures NoBinFit(b, dvsize, nb)
  {
  }

  /** No free chunk other than dv is large enough, or dv is. */
  ghost predicate Unserved(h: Layout, b: map<int, nat>, dv: int, dvsize: nat, nb: nat) {
    nb <= dvsize || forall a :: a in b ==> b[a] < nb
  }

  /** There is room for nb bytes at p: in the chunk itself, or with the free memory right after it. */
  ghost predicate RoomAt(h: Layout, top: int, topsize: nat, p: int, nb: nat) {
    || nb <= Size(h, p)
    || (Next(h, p) == top && nb < Size(h, p) + topsize)
    || (Next(h, p) in h.chunks && !Used(h, Next(h, p)) && nb <= Size(h, p) + Size(h, Next(h, p)))
  }

  /** What tmalloc_large may return: 0 when dv serves the request at least as well as any tree chunk, and
      otherwise a smallest tree chunk that is large enough. */
  ghost predicate LargeChoice(view: map<int, nat>, nb: nat, dvsize: nat, p: int) {
    if p == 0 then forall a :: a in view && nb <= view[a] ==> nb <= dvsize <= view[a]
    else p in view && nb <= view[p] && (nb <= dvsize ==> view[p] < dvsize)
         && forall a :: a in view && nb <= view[a] ==> view[p] <= view[a]
  }

  lemma Choose(small: map<int, nat>, view: map<int, nat>, nb: word, dvsize: word, v: int, rsize: nat)
    requires BestFit(view, v, nb, rsize) && 0 < nb && SplitBySize(small, view)
    ensures LargeChoice(view, nb, dvsize, if v != 0 && rsize < Sub(dvsize, nb) then v else 0)
    ensures v != 0 ==> v in view && view[v] == nb + rsize
  {
    if dvsize < nb {
      assert Sub(dvsize, nb) == dvsize - nb + TWO_32;
    } else {
      assert Sub(dvsize, nb) == dvsize - nb;
    }
  }

  lemma HeapMatches(h: Layout, b: map<int, nat>, dv: int, dvsize: nat, top: int, topsize: nat, segs: seq<Seg>,
                    small: map<int, nat>, tree: map<int, nat>)
    requires HeapOk(h, b, dv, dvsize, top, topsize, segs) && b == small + tree && SplitBySize(small, tree)
    ensures Matches(h.head, tree) && Matches(h.head, b)
  {
    hide LayoutOk, VictimOk, TopOk, SegsOk, Indexed;
    MatchesNow(h, b, b, dv);
    MatchesNow(h, b, tree, dv);
  }

  lemma AgreeMatches(head: map<int, word>, b: map<int, nat>, small: map<int, nat>, tree: map<int, nat>)
    requires Agree(head, b) && b == small + tree
    ensures Matches(head, tree)
  {
    forall a | a in tree
      ensures ChunkSize(HeadAt(head, a)) == tree[a]
    {
      assert a in b && b[a] == tree[a];
    }
  }

  lemma VictimWord(h: Layout, b: map<int, nat>, dv: int, dvsize: nat, top: int, topsize: nat, segs: seq<Seg>)
    requires HeapOk(h, b, dv, dvsize, top, topsize, segs)
    ensures dvsize < TWO_32
    ensures dv != 0 ==> dv in h.chunks && !Used(h, dv) && Size(h, dv) == dvsize && dv > 0 && dv % 8 == 0
    ensures dv == 0 <==> dvsize == 0
    ensures dv !in b && dvsize % 8 == 0
  {
    hide LayoutOk, TopOk, SegsOk, Used, Size;
    SizeBound(h, dv);
    if dv != 0 { AlignedAt(h, dv); }
  }

  lemma SplitRemove(small: map<int, nat>, tree: map<int, nat>, a: int)
    requires SplitBySize(small, tree)
    ensures SplitBySize(small, tree - {a}) && SplitBySize(small - {a}, tree)
  {
  }

  lemma TreeChunk(h: Layout, b: map<int, nat>, dv: int, dvsize: nat, top: int, topsize: nat, segs: seq<Seg>,
                  small: map<int, nat>, tree: map<int, nat>, v: int, nb: nat, rsize: nat)
    requires HeapOk(h, b, dv, dvsize, top, topsize, segs) && b == small + tree && SplitBySize(small, tree)
    requires v in tree && tree[v] == nb + rsize && nb % 8 == 0
    ensures v !in small && v in b && v in h.chunks && !Used(h, v) && v != dv && Size(h, v) == nb + rsize && v > 0
            && rsize % 8 == 0
    ensures nb + rsize < TWO_32 && Next(h, v) == v + nb + rsize
  {
    hide LayoutOk, TopOk, SegsOk, Used, Size, VictimOk;
    SizeBound(h, v);
    AlignedAt(h, v);
  }

  lemma BinnedChunk(h: Layout, b: map<int, nat>, dv: int, dvsize: nat, top: int, topsize: nat, segs: seq<Seg>, v: int,
          nb: nat, rsize: nat)
    requires HeapOk(h, b, dv, dvsize, top, topsize, segs)
    requires v in b && b[v] == nb + rsize && nb % 8 == 0
    ensures v in h.chunks && !Used(h, v) && v != dv && Size(h, v) == nb + rsize && v > 0 && rsize % 8 == 0
    ensures nb + rsize < TWO_32 && Next(h, v) == v + nb + rsize
  {
    hide LayoutOk, TopOk, SegsOk, Used, Size, VictimOk;
    SizeBound(h, v);
    AlignedAt(h, v);
  }

  lemma LeastOfAll(small: map<int, nat>, view: map<int, nat>, v: int, nb: word, rsize: nat)
    requires BestFit(view, v, nb, rsize) && v != 0 && nb < MIN_LARGE_SIZE && SplitBySize(small, view)
    ensures v in view && view[v] == nb + rsize && forall a :: a in view ==> view[v] <= view[a]
  {
  }

  /** The bins without v and with the old victim, if there was one. */
  function Reinserted(b: map<int, nat>, v: int, dv: int, dvsize: nat): map<int, nat> {
    var c := b - {v};
    if dv != 0 then c[dv := dvsize] else c
  }

  /** Binning the old victim, cutting v and making its rest the victim. */
  lemma VictimBinned(h: Layout, b: map<int, nat>, dv: int, dvsize: nat, top: int, topsize: nat, segs: seq<Seg>, v: int,
          nb: nat, rs: nat)
    requires HeapOk(h, b, dv, dvsize, top, topsize, segs) && v in b && b[v] == nb + rs && Parts(nb, rs)
    ensures HeapOk(FrontTaken(h, v, nb, rs), Reinserted(b, v, dv, dvsize), v + nb, rs, top, topsize, segs)
    ensures Handed(h, FrontTaken(h, v, nb, rs), v, nb)
  {
    hide LayoutOk, TopOk, SegsOk, Used, Size, VictimOk, Indexed, FrontTaken, Handed;
    BinnedChunk(h, b, dv, dvsize, top, topsize, segs, v, nb, rs);
    BinVictim(h, b, dv, dvsize);
    var c := if dv != 0 then b[dv := dvsize] else b;
    FrontVictim(h, c, top, topsize, segs, v, nb, rs);
    assert dv != 0 ==> b[dv := dvsize] - {v} == (b - {v})[dv := dvsize];
  }

  lemma NextOfRun(h: Layout, b: map<int, nat>, dv: int, dvsize: nat, top: int, topsize: nat, segs: seq<Seg>, p0: int,
          lo: int, hi: int)
    requires Open(h, b, dv, dvsize, top, topsize, segs, p0, lo, hi) && hi == Next(h, p0)
    ensures |h.lasts| > 0 && |h.ends| > 0 && (hi in h.chunks || hi == top) && (hi == top ==> !Used(h, hi)) && lo > 0
    ensures hi == top ==> hi !in h.chunks
    ensures dv == lo || dv < lo || hi <= dv
  {
    OpenParts(h, b, dv, dvsize, top, topsize, segs, p0, lo, hi);
    TopFacts(h, top, topsize, segs);
    RunLong(h, lo, hi);
    LastAt(h, 0);
    hide Open, Used, Size, LayoutOk, IndexedOutside, SegsOk;
    if lo < dv < hi {
      ApartAt(h, p0, dv);
    }
  }

  /** The free chunk that follows the run. */
  lemma ChunkAfter(h: Layout, b: map<int, nat>, dv: int, dvsize: nat, top: int, topsize: nat, segs: seq<Seg>, p0: int,
          lo: int, hi: int)
    requires Open(h, b, dv, dvsize, top, topsize, segs, p0, lo, hi) && hi in h.chunks && !Used(h, hi)
    ensures var n := ChunkSize(HeadAt(h.head, hi));
            && Open(h, b - {hi}, dv, dvsize, top, topsize, segs, p0, lo, hi + n)
            && hi + n in h.chunks && Used(h, hi + n) && !PrevUsed(h, hi + n)
            && (hi != dv ==> hi in b && b[hi] == n && (dv < hi || hi + n <= dv))
                 && (hi == dv ==> b - {hi} == b && n == dvsize)
            && lo < hi
  {
    hide Open, Used, LayoutOk, IndexedOutside, SegsOk, VictimOk, Run, TopOk, Lone, PrevUsed, Foot, ChunkSize, HeadAt;
    OpenParts(h, b, dv, dvsize, top, topsize, segs, p0, lo, hi);
    RunLong(h, lo, hi);
    OpenForward(h, b, dv, dvsize, top, topsize, segs, p0, lo, hi);
    if dv == 0 {
    } else {
      VictimIsChunk(h, dv, dvsize);
      OneChunk(h, hi);
    }
  }

  /** What follows a chunk in use knows that it is. */
  lemma NextOf(h: Layout, b: map<int, nat>, dv: int, dvsize: nat, top: int, topsize: nat, segs: seq<Seg>, p: int)
    requires HeapOk(h, b, dv, dvsize, top, topsize, segs) && p in Allocated(h)
    ensures Used(h, p) && PrevUsed(h, Next(h, p)) && Next(h, p) == p + Size(h, p)
  {
    hide LayoutOk, Size, Used, PrevUsed;
    FollowedAt(h, p);
  }

  lemma NotVictim(h: Layout, b: map<int, nat>, dv: int, dvsize: nat, top: int, topsize: nat, segs: seq<Seg>, p: int)
    requires HeapOk(h, b, dv, dvsize, top, topsize, segs) && p in Allocated(h)
    ensures p != dv
  {
    hide LayoutOk, SegsOk, TopOk, Used, Size;
    AlignedAt(h, p);
  }

  lemma RestParts(h: Layout, b: map<int, nat>, dv: int, dvsize: nat, top: int, topsize: nat, segs: seq<Seg>, p: int,
          nb: nat, rs: nat)
    requires Open(h, b, dv, dvsize, top, topsize, segs, p, p, p + nb + rs) && nb % 8 == 0 && MIN_CHUNK_SIZE <= nb
             && MIN_CHUNK_SIZE <= rs
    ensures Parts(nb, rs)
  {
    hide LayoutOk, Size, Next, Used, PrevUsed, Foot, VictimOk, TopOk, SegsOk, Run, IndexedOutside, Lone, Open;
    OpenParts(h, b, dv, dvsize, top, topsize, segs, p, p, p + nb + rs);
    RunSize(h, top, topsize, segs, p, p + nb + rs);
    Multiples(nb, nb + rs);
  }

  lemma SameSize(h: Layout, p: int, nb: nat)
    requires p in Allocated(h)
    ensures nb <= Size(h, p) < nb + MIN_CHUNK_SIZE ==> Resized(h, h, p, nb)
  {
  }

  lemma ServeHeld(segs: seq<Seg>, rs: seq<Region>, index: nat, ptr: int, incr: int)
    requires RegionsOk(rs) && PointerOk(rs, index, ptr) && Held(segs, rs, index, ptr) && incr % 8 == 0
    ensures var r := Serve(rs, index, ptr, incr);
            PointerOk(rs, r.0, r.1) && Held(segs, rs, r.0, r.1)
            && (r.2 != FAILURE && incr > TOP_FOOT_SIZE ==> Fresh(segs, r.2, incr) && AllGiven(rs, r.0, r.1, r.2, incr))
            && (incr < 0 ==> r.2 == FAILURE) && (r.2 != FAILURE ==> r.2 > 0 && r.2 % 8 == 0 && r.1 == r.2 + incr)
  {
    ServeGives(rs, index, ptr, incr);
    hide RegionsOk, AllGiven;
    forall k | 0 <= k < |segs|
      ensures var r := Serve(rs, index, ptr, incr);
              AllGiven(rs, r.0, r.1, segs[k].base, segs[k].size)
              && (r.2 != FAILURE && incr > 0 ==> End(segs[k]) <= r.2 || r.2 + incr <= segs[k].base)
    {
      FreshBlock(rs, index, ptr, incr, segs[k].base, segs[k].size);
    }
  }

  lemma StaysReachable(rs: seq<Region>, nb: nat, incr: nat)
    requires Reachable(rs, nb) && incr <= nb + 1024 && incr <= HALF_MAX_SIZE_T
    ensures Unwrapped(rs, incr)
  {
  }

  lemma EnoughFollows(rs: seq<Region>, index: nat, ptr: int, ssize: nat, nb: nat)
    requires index < |rs| && nb + SYS_ALLOC_PADDING <= ssize && nb + SYS_ALLOC_PADDING < TWO_32
    ensures Follows(rs, index, ptr, ssize, nb)
  {
  }

  /** FirstGrant in terms of the answer to the call for no bytes. */
  lemma FirstGrantIs(rs: seq<Region>, index: nat, ptr: int, asize: nat)
    requires RegionsOk(rs) && PointerOk(rs, index, ptr)
    ensures var r := Serve(rs, index, ptr, 0);
            var size := asize + PageExtra(r.2);
            && (r.2 == FAILURE ==> forall m: nat :: !HasRoom(rs, r.0, r.1, m))
            && (FirstGrant(rs, index, ptr, asize) <==>
                 r.2 != FAILURE && if size < HALF_MAX_SIZE_T then HasRoom(rs, r.0, r.1, size)
                                   else asize < HALF_MAX_SIZE_T && HasRoom(rs, r.0, r.1, asize))
  {
    hide Serve, FirstRoom, StartIn, HasRoom, IsPageAligned, PageGap, RegionsOk;
    ServesLast(rs, index, ptr, 0);
    FailsIff(rs, index, ptr, 0);
    var size := asize + PageExtra(Serve(rs, index, ptr, 0).2);
    ProbeKeepsRoom(rs, index, ptr, asize);
    ProbeKeepsRoom(rs, index, ptr, size);
  }

  /** TopGrant in terms of the answer to the first call. */
  lemma TopGrantIs(rs: seq<Region>, index: nat, ptr: int, end: int, ssize: nat, asize: nat)
    requires RegionsOk(rs) && PointerOk(rs, index, ptr)
    ensures var r := Serve(rs, index, ptr, ssize);
            TopGrant(rs, index, ptr, end, ssize, asize) <==>
              ssize < HALF_MAX_SIZE_T && r.2 != FAILURE && r.0 < |rs|
              && (r.2 == end || r.1 - ssize + asize <= rs[r.0].last)
  {
    hide Serve, StartIn, RegionsOk;
    ServesLast(rs, index, ptr, ssize);
    ServesInside(rs, index, ptr, ssize);
  }

  /** So sys_alloc serves a request whenever a region has the padded size left, except that the first request of all
      may need up to 256 bytes more. */
  lemma RoomIsGranted(rs: seq<Region>, index: nat, ptr: int, contiguous: bool, segs: seq<Seg>, topsize: nat, nb: nat)
    requires RegionsOk(rs) && PointerOk(rs, index, ptr) && topsize <= nb && nb + SYS_ALLOC_PADDING + 255 < TWO_32
    requires contiguous && segs != [] ==> Joins(rs, index, ptr, End(segs[0]), topsize, nb)
    ensures var asize := GranularityAlign(nb + SYS_ALLOC_PADDING);
            asize < HALF_MAX_SIZE_T && HasRoom(rs, index, ptr, asize)
            && (contiguous && segs == [] ==> HasRoom(rs, index, ptr, asize + GRANULARITY)) ==>
              Grant(rs, index, ptr, contiguous, segs, topsize, nb)
  {
    hide RegionsOk, GranularityAlign, FirstGrant, TopGrant, Joins, HasRoom;
    var asize := GranularityAlign(nb + SYS_ALLOC_PADDING);
    if asize < HALF_MAX_SIZE_T && HasRoom(rs, index, ptr, asize) && contiguous {
      if segs != [] {
        TopIsGranted(rs, index, ptr, End(segs[0]), topsize, nb);
      } else if HasRoom(rs, index, ptr, asize + GRANULARITY) {
        FirstIsGranted(rs, index, ptr, asize);
      }
    }
  }

  lemma FirstIsGranted(rs: seq<Region>, index: nat, ptr: int, asize: nat)
    requires RegionsOk(rs) && PointerOk(rs, index, ptr) && asize < HALF_MAX_SIZE_T
             && HasRoom(rs, index, ptr, asize + GRANULARITY)
    ensures FirstGrant(rs, index, ptr, asize)
  {
    var j :| index <= j < |rs| && StartIn(rs, index, ptr, j) + (asize + GRANULARITY) <= rs[j].last;
    var i := FindRoom(rs, index, ptr, 0, index);
    assert FirstRoom(rs, index, ptr, 0, i);
    assert PageExtra(StartIn(rs, index, ptr, i)) <= GRANULARITY;
    hide PageExtra, StartIn;
  }

  lemma TopIsGranted(rs: seq<Region>, index: nat, ptr: int, end: int, topsize: nat, nb: nat)
    requires PointerOk(rs, index, ptr) && topsize <= nb && nb + SYS_ALLOC_PADDING + 255 < TWO_32
    requires Joins(rs, index, ptr, end, topsize, nb)
    requires var asize := GranularityAlign(nb + SYS_ALLOC_PADDING);
             asize < HALF_MAX_SIZE_T && HasRoom(rs, index, ptr, asize)
    ensures TopGrant(rs, index, ptr, end, GranularityAlign(nb - topsize + SYS_ALLOC_PADDING),
              GranularityAlign(nb + SYS_ALLOC_PADDING))
  {
    hide GranularityAlign;
    SizesAdd(nb, topsize);
    var ssize := GranularityAlign(nb - topsize + SYS_ALLOC_PADDING);
    var asize := GranularityAlign(nb + SYS_ALLOC_PADDING);
    var j :| index <= j < |rs| && StartIn(rs, index, ptr, j) + asize <= rs[j].last;
    var i := FindRoom(rs, index, ptr, ssize, index);
    assert FirstRoom(rs, index, ptr, ssize, i);
  }

  /** A first region that does not begin on a page boundary and has exactly the padded size left serves nothing. */
  lemma FirstNeedsMore()
    ensures var rs := [Region(0x1008, 0x1108)];
            && RegionsOk(rs) && GranularityAlign(16 + SYS_ALLOC_PADDING) == 256 && HasRoom(rs, 0, 0, 256)
            && !Grant(rs, 0, 0, true, [], 0, 16)
  {
    var rs := [Region(0x1008, 0x1108)];
    GranularityIs(16 + SYS_ALLOC_PADDING);
    hide GranularityAlign;
    assert StartIn(rs, 0, 0, 0) + 256 <= rs[0].last;
    assert 0x1008 % 256 == 8;
    assert PageExtra(0x1008) == 248;
  }

  /** The two requests of the contiguous attempt are together one for all that is needed. */
  lemma SizesAdd(nb: nat, topsize: nat)
    requires topsize <= nb && nb + SYS_ALLOC_PADDING + 255 < TWO_32
    ensures var ssize, asize := GranularityAlign(nb - topsize + SYS_ALLOC_PADDING), GranularityAlign(nb +
                                SYS_ALLOC_PADDING);
            ssize <= asize && if ssize < nb + SYS_ALLOC_PADDING
            then asize == ssize + GranularityAlign(nb + SYS_ALLOC_PADDING - ssize) else asize == ssize
  {
    GranularityIs(nb - topsize + SYS_ALLOC_PADDING);
    GranularityIs(nb + SYS_ALLOC_PADDING);
    var ssize := GranularityAlign(nb - topsize + SYS_ALLOC_PADDING);
    if ssize < nb + SYS_ALLOC_PADDING { GranularityIs(nb + SYS_ALLOC_PADDING - ssize); }
    hide GranularityAlign;
  }

  lemma GranularityIs(s: nat)
    requires s + 255 < TWO_32
    ensures GranularityAlign(s) == 256 * ((s + 255) / 256)
  {
  }

  /** Joins in terms of the answer to the first call. */
  lemma JoinsIs(rs: seq<Region>, index: nat, ptr: int, end: int, topsize: nat, nb: nat)
    requires RegionsOk(rs) && PointerOk(rs, index, ptr) && topsize <= nb && nb + SYS_ALLOC_PADDING < TWO_32
    ensures var ssize := GranularityAlign(nb - topsize + SYS_ALLOC_PADDING);
            var r := Serve(rs, index, ptr, ssize);
            (r.2 != FAILURE ==> r.0 < |rs|)
            && (Joins(rs, index, ptr, end, topsize, nb) <==>
                  (ssize < HALF_MAX_SIZE_T && r.2 != FAILURE && r.2 != end ==> Follows(rs, r.0, r.1, ssize, nb)))
  {
    hide GranularityAlign, Serve, Follows, FirstRoom;
    var ssize := GranularityAlign(nb - topsize + SYS_ALLOC_PADDING);
    ServesLast(rs, index, ptr, ssize);
  }

  lemma ServesInside(rs: seq<Region>, index: nat, ptr: int, n: nat)
    requires RegionsOk(rs) && PointerOk(rs, index, ptr)
    ensures var r := Serve(rs, index, ptr, n);
            r.2 != FAILURE ==> r.0 < |rs| && LastBlock(rs, r.0, r.1, r.2, n)
  {
    hide Serve, RegionsOk, PointerOk, FirstRoom, StartIn;
    ServesLast(rs, index, ptr, n);
  }

  /** A block handed out stays so, and what follows it makes it longer. */
  lemma BlockStays(rs: seq<Region>, index: nat, ptr: int, segs: seq<Seg>, br: int, ssize: nat, esize: nat)
    requires RegionsOk(rs) && PointerOk(rs, index, ptr) && Held(segs, rs, index, ptr)
    requires AllGiven(rs, index, ptr, br, ssize) && Fresh(segs, br, ssize) && esize % 8 == 0
    ensures var q := Serve(rs, index, ptr, esize);
            && PointerOk(rs, q.0, q.1) && AllGiven(rs, q.0, q.1, br, ssize)
            && (q.2 == br + ssize && esize > 0 && Fresh(segs, q.2, esize) ==>
                 Fresh(segs, br, ssize + esize) && AllGiven(rs, q.0, q.1, br, ssize + esize))
  {
    ServeGives(rs, index, ptr, esize);
    FreshBlock(rs, index, ptr, esize, br, ssize);
    var q := Serve(rs, index, ptr, esize);
    if q.2 == br + ssize && esize > 0 && Fresh(segs, q.2, esize) {
      FreshJoined(segs, br, ssize, esize);
      hide Given;
    }
  }

  lemma FreshJoined(segs: seq<Seg>, br: int, ssize: nat, esize: nat)
    requires Fresh(segs, br, ssize) && Fresh(segs, br + ssize, esize)
             && forall k :: 0 <= k < |segs| ==> segs[k].size > 0
    ensures Fresh(segs, br, ssize + esize)
  {
    Multiples(ssize, esize);
    forall k | 0 <= k < |segs|
      ensures End(segs[k]) <= br || br + ssize + esize <= segs[k].base
    {
    }
  }

  predicate IsPageAligned(base: int) { base % GRANULARITY == 0 }

  /** From an address to the next page. */
  function PageGap(base: int): nat { GRANULARITY - base % GRANULARITY }

  lemma PageAligned(base: int)
    requires base > 0 && base % 8 == 0
    ensures PageGap(base) % 8 == 0 && 0 < PageGap(base) <= GRANULARITY
  {
    var k, r := base / 256, base % 256;
    assert base == 256 * k + r && 0 <= r < 256;
    assert base == 8 * (32 * k + r / 8) + r % 8;
    Eighth(32 * k + r / 8, r % 8);
    assert 256 - r == 8 * (32 - r / 8);
    Eighth(32 - r / 8, 0);
  }

  lemma Sum8(a: nat, b: nat)
    requires a % 8 == 0 && b % 8 == 0
    ensures (a + b) % 8 == 0
  {
    assert a == 8 * (a / 8) && b == 8 * (b / 8);
    Eighth(a / 8 + b / 8, 0);
  }

  lemma TopWord(h: Layout, b: map<int, nat>, dv: int, dvsize: nat, top: int, topsize: nat, segs: seq<Seg>)
    requires HeapOk(h, b, dv, dvsize, top, topsize, segs)
    ensures |h.lasts| > 0 && |h.ends| > 0 && 0 < topsize < TWO_32 && topsize % 8 == 0 && top > 0 && h.lasts[0] == top
  {
    hide LayoutOk, SegsOk;
    LastAt(h, 0);
  }

  lemma TopEnd(h: Layout, b: map<int, nat>, dv: int, dvsize: nat, top: int, topsize: nat, segs: seq<Seg>)
    requires HeapOk(h, b, dv, dvsize, top, topsize, segs)
    ensures |segs| > 0 && |h.ends| > 0 && h.ends[0] == End(segs[0]) == top + topsize + TOP_FOOT_SIZE
            && 0 < segs[0].base <= top && End(segs[0]) % 8 == 0
  {
    hide LayoutOk, SegsOk;
    SegCount(segs, h);
    SegFacts(segs, h, 0);
    LastAt(h, 0);
    Multiples(top, topsize);
    Multiples(top + topsize, TOP_FOOT_SIZE);
  }

  lemma HeldLonger(segs: seq<Seg>, rs: seq<Region>, index: nat, ptr: int, k: nat, base: int, more: int, n: nat)
    requires k < |segs| && Held(segs, rs, index, ptr) && AllGiven(rs, index, ptr, more, n)
    requires (base == segs[k].base && more == End(segs[k])) || (base == more && more + n == segs[k].base)
    ensures Held(segs[k := Seg(base, segs[k].size + n)], rs, index, ptr)
  {
    hide Given;
  }

  lemma FreshTop(segs: seq<Seg>, base: int, size: nat)
    requires Fresh(segs, base, size)
    ensures (size - TOP_FOOT_SIZE) % 8 == 0 && 0 < size - TOP_FOOT_SIZE < TWO_32 && base > 0
  {
    Multiples(TOP_FOOT_SIZE, size);
  }

  lemma HeldMore(segs: seq<Seg>, rs: seq<Region>, index: nat, ptr: int, base: int, n: nat)
    requires Held(segs, rs, index, ptr) && AllGiven(rs, index, ptr, base, n) && n > 0
    ensures Held([Seg(base, n)] + segs, rs, index, ptr)
  {
    hide AllGiven;
  }

  /** The record chunk starts 40 bytes before the end of the old segment, top's overhead. */
  lemma RecordSpot(end: int)
    requires end % 8 == 0
    ensures var rawsp := end - (RECORD_SIZE + 16 + 7); rawsp + AlignOffset(rawsp + 8) == end - TOP_FOOT_SIZE
  {
  }

  lemma RecordedSame(h: Layout, head: map<int, word>, sp: int, base: int, size: nat)
    requires |h.lasts| > 0 && |h.ends| > 0
    ensures var g := Recorded(TopTaken(h, RECORD_SIZE, 16), head, sp, base, size);
            g.head == head && g.foot == h.foot && g.pinned == h.pinned + {sp}
  {
  }

  lemma UnfreedHead(h: Layout, head: map<int, word>, q: int, s: nat, base: int, size: nat)
    requires |h.lasts| > 0 && |h.ends| > 0 && s % 8 == 0 && 0 < s < TWO_32
    ensures var g := Unfreed(h, head, q, s, base, size);
            && SetFree(g.head, q, s, true) == SetFree(head, q, s, true)
            && g.foot == h.foot && g.pinned == h.pinned + {q + s}
  {
    hide SetFree, TopChunks, MkHead;
    SetFreeTwice(head, q, s, MkHead(s, true, true));
  }

  lemma RestFreed(g: Layout, b: map<int, nat>, dv: int, dvsize: nat, top: int, topsize: nat, segs: seq<Seg>, q: int,
          s: nat)
    requires HeapOk(g, b, dv, dvsize, top, topsize, segs) && q in Allocated(g) && Size(g, q) == s && PrevUsed(g, q)
    requires q + s in g.chunks && Used(g, q + s) && (dv < q || q + s <= dv)
    ensures s % 8 == 0 && MIN_CHUNK_SIZE <= s < TWO_32 && q > 0 && q !in b
    ensures var k := FreeMade(g, q, q + s, s, true);
            Returned(g, k, q) && HeapOk(k, b[q := s], dv, dvsize, top, topsize, segs) && Agree(k.head, b)
  {
    hide HeapOk, LayoutOk, Size, Used, PrevUsed, Foot, Allocated, FreeMade, Returned, Agree, Open;
    OpenStart(g, b, dv, dvsize, top, topsize, segs, q);
    FreeDone(g, b, dv, dvsize, top, topsize, segs, q, q, q + s, s, true);
  }

  lemma RestKept(h: Layout, g: Layout, q: int, s: nat)
    requires s % 8 == 0 && s < TWO_32 && Returned(g, FreeMade(g, q, q + s, s, true), q)
    requires q !in Allocated(h) && Allocated(g) == Allocated(h) + {q}
             && forall x :: x in Allocated(h) ==> Size(g, x) == Size(h, x)
    ensures Kept(h, FreeMade(g, q, q + s, s, true))
  {
    hide Allocated, Size, FreeMade;
  }

  /** The maps differ at most at q. */
  ghost predicate SameBut(a: map<int, word>, b: map<int, word>, q: int) { a - {q} == b - {q} }

  lemma OtherHead(a: map<int, word>, b: map<int, word>, q: int, x: int)
    requires SameBut(a, b, q) && x != q
    ensures HeadAt(a, x) == HeadAt(b, x)
  {
    assert x in a <==> x in a - {q};
    assert x in b <==> x in b - {q};
    assert x in a ==> a[x] == (a - {q})[x];
    assert x in b ==> b[x] == (b - {q})[x];
  }

  lemma SetSame(a: map<int, word>, b: map<int, word>, q: int, w: word)
    requires SameBut(a, b, q)
    ensures a[q := w] == b[q := w]
  {
    assert a[q := w] == (a - {q})[q := w];
    assert b[q := w] == (b - {q})[q := w];
  }

  lemma SetFreeSame(a: map<int, word>, b: map<int, word>, q: int, s: nat, clear: bool)
    requires SameBut(a, b, q) && s % 8 == 0 && 0 < s < TWO_32
    ensures SetFree(a, q, s, clear) == SetFree(b, q, s, clear)
  {
    hide MkHead, ClearPInUse, SameBut;
    OtherHead(a, b, q, q + s);
    if clear {
      var w := ClearPInUse(HeadAt(a, q + s));
      OtherUpdate(a, b, q, q + s, w);
      SetSame(a[q + s := w], b[q + s := w], q, MkHead(s, false, true));
    } else {
      SetSame(a, b, q, MkHead(s, false, true));
    }
  }

  lemma OtherUpdate(a: map<int, word>, b: map<int, word>, q: int, x: int, w: word)
    requires SameBut(a, b, q) && x != q
    ensures SameBut(a[x := w], b[x := w], q)
  {
    assert a[x := w] - {q} == (a - {q})[x := w];
    assert b[x := w] - {q} == (b - {q})[x := w];
  }

  lemma SplitHead(h: Layout, p: int, nb: nat, rs: nat)
    requires Parts(nb, rs) && PrevUsed(h, p + nb + rs)
    ensures var g := SplitMade(Fronted(h, p, nb + rs), p, nb, rs);
            && SameBut(g.head, h.head[p := MkHead(nb, true, true)], p + nb) && g.foot == h.foot
            && g.ends == h.ends && g.pinned == h.pinned && g.lasts == h.lasts
  {
    Multiples(nb, rs);
    HeadFields(nb + rs, true, true);
    hide MkHead, ChunkSize, Cut;
  }

  lemma TopGivenSame(g: Layout, q: int, ts: nat)
    requires |g.lasts| > 0 && |g.ends| > 0 && ts % 8 == 0 && ts < TWO_32
    ensures var k := TopGiven(g, q, ts); k.head == g.head[q := MkHead(ts, false, true)] && k.foot == g.foot
  {
  }

  lemma MadeSame(g: Layout, q: int, s: nat, clear: bool)
    requires s % 8 == 0 && s < TWO_32
    ensures var k := FreeMade(g, q, q + s, s, clear);
              k.head == SetFree(g.head, q, s, clear) && k.foot == g.foot[q + s := s] && k.pinned == g.pinned
  {
  }

  /** The new memory as the request and a chunk in use after it. */
  lemma PrependStart(h: Layout, b: map<int, nat>, dv: int, dvsize: nat, top: int, topsize: nat, segs: seq<Seg>,
                     base: int, size: nat, k: nat, nb: nat, rs: nat)
    requires HeapOk(h, b, dv, dvsize, top, topsize, segs) && Fresh(segs, base, size) && k < |segs|
             && base + size == segs[k].base && size == nb + rs
    requires nb % 8 == 0 && MIN_CHUNK_SIZE <= nb && MIN_CHUNK_SIZE <= rs
    ensures Parts(nb, rs) && size % 8 == 0
    ensures var g := SplitMade(Fronted(h, base, size), base, nb, rs);
            && HeapOk(g, b, dv, dvsize, top, topsize, segs[k := Seg(base, segs[k].size + size)])
            && base + nb in Allocated(g) && Size(g, base + nb) == rs && PrevUsed(g, base + nb)
            && PrevUsed(h, base + size)
            && Prepended(h, g, base, nb, base + nb)
  {
    hide LayoutOk, SegsOk, Fresh, Indexed, VictimOk, TopOk, Fronted, SplitMade, Size, Next, Used, PrevUsed, Allocated,
         Open;
    PrependParts(h, segs, base, size, k, nb, rs);
    FrontedStep(h, b, dv, dvsize, top, topsize, segs, base, size, k);
    FrontedNext(h, segs, base, size, k);
    var f := Fronted(h, base, size);
    var segs' := segs[k := Seg(base, segs[k].size + size)];
    NotVictim(f, b, dv, dvsize, top, topsize, segs', base);
    OpenStart(f, b, dv, dvsize, top, topsize, segs', base);
    NextOf(f, b, dv, dvsize, top, topsize, segs', base);
    NextOfRun(f, b, dv, dvsize, top, topsize, segs', base, base, base + size);
    SplitDone(f, b, dv, dvsize, top, topsize, segs', base, base + size, nb, rs);
    var g := SplitMade(f, base, nb, rs);
    SplitRest(f, g, base, nb, rs, b, dv, dvsize, top, topsize, segs');
    PrependedMade(h, f, g, base, nb, base + nb, rs);
  }

  /** Everything is as in h except for the chunk p of nb bytes and the chunk r. */
  ghost predicate Prepended(h: Layout, g: Layout, p: int, nb: nat, r: int) {
    && p !in Allocated(h) && r !in Allocated(h) && p != r && Allocated(g) == Allocated(h) + {p} + {r}
    && Size(g, p) == nb
    && forall q :: q in Allocated(h) ==> Size(g, q) == Size(h, q)
  }

  lemma PrependedMade(h: Layout, f: Layout, g: Layout, p: int, nb: nat, r: int, rs: nat)
    requires p !in Allocated(h) && Allocated(f) == Allocated(h) + {p}
             && (forall q :: q in Allocated(h) ==> Size(f, q) == Size(h, q))
    requires SplitOff(f, g, p, nb, r, rs)
    ensures Prepended(h, g, p, nb, r)
  {
    hide Allocated, Size;
  }

  lemma PrependHands(h: Layout, g: Layout, k: Layout, p: int, nb: nat, rs: nat)
    requires Prepended(h, g, p, nb, p + nb) && Returned(g, k, p + nb)
    ensures Handed(h, k, p, nb)
  {
    hide Allocated, Size;
  }

  lemma PrependParts(h: Layout, segs: seq<Seg>, base: int, size: nat, k: nat, nb: nat, rs: nat)
    requires LayoutOk(h) && SegsOk(segs, h) && Fresh(segs, base, size) && k < |segs| && base + size == segs[k].base
             && size == nb + rs
    requires nb % 8 == 0 && MIN_CHUNK_SIZE <= nb && MIN_CHUNK_SIZE <= rs
    ensures Parts(nb, rs) && size % 8 == 0 && size < TWO_32 && FrontSpot(h, segs, base, size, k)
  {
    hide LayoutOk, SegsOk;
    Multiples(nb, size);
  }

  /** The rest knows that the request before it is in use. */
  lemma SplitRest(f: Layout, g: Layout, p: int, nb: nat, rs: nat, b: map<int, nat>, dv: int, dvsize: nat, top: int,
          topsize: nat, segs: seq<Seg>)
    requires Parts(nb, rs) && p in Allocated(f) && SplitOff(f, g, p, nb, p + nb, rs)
             && HeapOk(g, b, dv, dvsize, top, topsize, segs)
    ensures PrevUsed(g, p + nb) && p + nb in Allocated(g)
  {
    hide HeapOk, Allocated, Size, PrevUsed;
    NextOf(g, b, dv, dvsize, top, topsize, segs, p);
  }

  lemma KeptHanded(h: Layout, g: Layout, k: Layout, p: int, nb: nat)
    requires Kept(h, g) && Handed(g, k, p, nb)
    ensures Handed(h, k, p, nb)
  {
    hide Allocated, Size;
  }

  /** top is null exactly before the first memory has been obtained. */
  lemma IsInitialized(h: Layout, b: map<int, nat>, dv: int, dvsize: nat, top: int, topsize: nat, segs: seq<Seg>)
    requires Untouched(h, b, dv, dvsize, top, topsize, segs) || HeapOk(h, b, dv, dvsize, top, topsize, segs)
    ensures top == 0 <==> segs == []
    ensures top == 0 <==> Untouched(h, b, dv, dvsize, top, topsize, segs)
    ensures topsize < TWO_32
  {
    if HeapOk(h, b, dv, dvsize, top, topsize, segs) {
      TopWord(h, b, dv, dvsize, top, topsize, segs);
      TopEnd(h, b, dv, dvsize, top, topsize, segs);
    }
    hide HeapOk;
  }

  /** A segment that ends at fresh memory and holds top is the first one. */
  lemma HoldsTop(h: Layout, b: map<int, nat>, dv: int, dvsize: nat, top: int, topsize: nat, segs: seq<Seg>, k: nat)
    requires HeapOk(h, b, dv, dvsize, top, topsize, segs) && k <= |segs|
    ensures k < |segs| && segs[k].base <= top < End(segs[k]) ==> k == 0
  {
    hide LayoutOk, SegsOk;
    TopEnd(h, b, dv, dvsize, top, topsize, segs);
    if 0 < k < |segs| {
      SegsApart(segs, h, 0, k);
      SegFacts(segs, h, k);
      SegFacts(segs, h, 0);
    }
  }

  lemma Padded(nb: word)
    ensures GranularityAlign(Wrap(nb + SYS_ALLOC_PADDING)) > nb <==> nb + SYS_ALLOC_PADDING + 255 < TWO_32
    ensures nb + SYS_ALLOC_PADDING + 255 < TWO_32 ==> Wrap(nb + SYS_ALLOC_PADDING) == nb + SYS_ALLOC_PADDING
  {
    Wrapped(nb + SYS_ALLOC_PADDING);
    GranularityAligned(Wrap(nb + SYS_ALLOC_PADDING));
    hide Wrap, GranularityAlign;
  }

  lemma SmallChunk(h: Layout, b: map<int, nat>, dv: int, dvsize: nat, top: int, topsize: nat, segs: seq<Seg>,
                   small: map<int, nat>, tree: map<int, nat>, p: int, s: nat)
    requires HeapOk(h, b, dv, dvsize, top, topsize, segs) && b == small + tree && SplitBySize(small, tree)
             && p in small && small[p] == s
    ensures p !in tree && p in b && b[p] == s && p in h.chunks && !Used(h, p) && p != dv && Size(h, p) == s && p > 0
            && s % 8 == 0
  {
    hide LayoutOk, TopOk, SegsOk, Used, Size, VictimOk;
    SizeBound(h, p);
    AlignedAt(h, p);
  }

  lemma NoneSmall(small: SmallTable, nb: nat)
    requires small.Valid() && nb % 8 == 0 && forall j :: nb / 8 <= j < NSMALLBINS ==> !Marked(small.smallmap, j)
    ensures forall a :: a in small.View() ==> small.View()[a] < nb
  {
    hide ListsOk, ListViews, Marked;
    forall a | a in small.View()
      ensures small.View()[a] < nb
    {
      var i, k := Placed(small.lists, small.smallmap, small.fd, small.bk, a);
    }
  }

  lemma NoneLarge(tree: TreeTable.TreeTable)
    requires tree.Valid() && tree.treemap == 0
    ensures tree.View() == map[]
  {
    EmptyMap(tree.treemap);
    hide Marked;
    TreeTable.EmptyViews(tree.trees);
  }

  lemma Unbinnable(h: Layout, b: map<int, nat>, small: map<int, nat>, tree: map<int, nat>, nb: nat, dv: int,
          dvsize: nat)
    requires b == small + tree && tree == map[] && forall a :: a in small ==> small[a] < nb
    ensures Unserved(h, b, dv, dvsize, nb)
  {
  }

  /** Empty bins have no marks. */
  lemma EmptyBins(small: SmallTable, tree: TreeTable.TreeTable)
    requires small.Valid() && tree.Valid()
    ensures small.View() + tree.View() == map[] ==> small.smallmap == 0 && tree.treemap == 0
  {
    EmptyMap(small.smallmap);
    EmptyMap(tree.treemap);
    hide ListsOk, ListViews, BinsOk, Views, Marked;
    EmptyUnion(small.View(), tree.View());
    if small.View() + tree.View() == map[] {
      forall i | 0 <= i < 32
        ensures !Marked(small.smallmap, i) && !Marked(tree.treemap, i)
      {
        MarkedHolds(small.lists, small.smallmap, small.fd, small.bk, i);
        UnmarkedTree(tree, i);
      }
    }
  }

  lemma EmptyUnion(a: map<int, nat>, b: map<int, nat>)
    ensures a + b == map[] ==> a == map[] && b == map[]
  {
    assert forall x :: x in a ==> x in a + b;
    assert forall x :: x in b ==> x in a + b;
  }

  lemma UnmarkedTree(tree: TreeTable.TreeTable, i: nat)
    requires tree.Valid() && i < 32 && tree.View() == map[]
    ensures !Marked(tree.treemap, i)
  {
    hide Marked;
    if Marked(tree.treemap, i) {
      var t := tree.trees[i];
      assert BinOk(t, i, true, tree.treebins[i], tree.links, tree.index);
      ProperRing(t);
      hide BinsOk;
      assert t.ring[0] in Chunks(t);
      OneBinOnly(tree.trees, tree.treemap, tree.treebins, tree.links, tree.index, i, t.ring[0]);
      BinCount(tree.trees, tree.treemap, tree.treebins, tree.links, tree.index);
      ViewsAt(tree.trees, i, t.ring[0]);
    }
  }

  lemma NotInTree(h: Layout, b: map<int, nat>, small: map<int, nat>, tree: map<int, nat>, dv: int, dvsize: nat, nb: nat)
    requires b == small + tree && SplitBySize(small, tree) && MIN_LARGE_SIZE <= nb
             && (tree == map[] || LargeChoice(tree, nb, dvsize, 0))
    ensures Unserved(h, b, dv, dvsize, nb)
  {
  }

  /** No free chunk and no top is as large as the size that stands for an impossible request. */
  lemma SizesBelow(h: Layout, b: map<int, nat>, dv: int, dvsize: nat, top: int, topsize: nat, segs: seq<Seg>)
    requires Untouched(h, b, dv, dvsize, top, topsize, segs) || HeapOk(h, b, dv, dvsize, top, topsize, segs)
    ensures Unserved(h, b, dv, dvsize, MAX_SIZE_T) && dvsize < MAX_SIZE_T && topsize < MAX_SIZE_T
            && (dvsize != 0 || topsize != 0 ==> HeapOk(h, b, dv, dvsize, top, topsize, segs))
  {
    hide HeapOk;
    if HeapOk(h, b, dv, dvsize, top, topsize, segs) {
      VictimWord(h, b, dv, dvsize, top, topsize, segs);
      TopWord(h, b, dv, dvsize, top, topsize, segs);
      forall a | a in b
        ensures b[a] < MAX_SIZE_T
      {
        BinnedSize(h, b, dv, dvsize, top, topsize, segs, a);
      }
    }
  }

  lemma BinnedSize(h: Layout, b: map<int, nat>, dv: int, dvsize: nat, top: int, topsize: nat, segs: seq<Seg>, a: int)
    requires HeapOk(h, b, dv, dvsize, top, topsize, segs) && a in b
    ensures b[a] < TWO_32 && b[a] % 8 == 0 && a > 0
  {
    hide LayoutOk, VictimOk, TopOk, SegsOk, Size, Used;
    SizeBound(h, a);
    AlignedAt(h, a);
  }

  /** A chunk as large as an impossible request does not exist. */
  lemma NotHuge(h: Layout, g: Layout, p: int, nb: nat)
    requires Handed(h, g, p, nb)
    ensures nb != MAX_SIZE_T
  {
    SizeBound(g, p);
    hide Size, Allocated;
  }

  lemma HandedChunk(g: Layout, b: map<int, nat>, dv: int, dvsize: nat, top: int, topsize: nat, segs: seq<Seg>,
          h: Layout, p: int, nb: nat)
    requires HeapOk(g, b, dv, dvsize, top, topsize, segs) && Handed(h, g, p, nb)
    ensures p > 0
  {
    hide Size, LayoutOk, Indexed, VictimOk, TopOk, SegsOk;
    AlignedAt(g, p);
  }
}
