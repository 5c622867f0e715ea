/** add_segment: the rest of the old top is kept, and everything else stays in order. */
module HeapSegments {
  import opened Bytes
  import opened Words
  import opened TreeBins
  import opened Layouts
  import opened Writes
  import opened Segments
  import opened HeapState
  import opened HeapSteps
  import opened HeapFrees
  import opened HeapGrowth

  const RECORD_SIZE := 24
  const FENCEPOST_HEAD: word := 7

  /** Everything but the top sizes. */
  ghost predicate Sound(h: Layout, b: map<int, nat>, dv: int, dvsize: nat, segs: seq<Seg>) {
    LayoutOk(h) && Indexed(h, b, dv) && VictimOk(h, dv, dvsize) && SegsOk(segs, h) && |h.lasts| == |h.ends|
        && |h.lasts| > 0
  }

  /** A chunk in use is cut off the bottom of top. */
  lemma TakeStepSound(h: Layout, b: map<int, nat>, dv: int, dvsize: nat, segs: seq<Seg>, nb: nat, ts: nat)
    requires Sound(h, b, dv, dvsize, segs)
    requires nb % 8 == 0 && ts % 8 == 0 && MIN_CHUNK_SIZE <= nb < TWO_32 && ts < TWO_32 && h.lasts[0] + nb < h.ends[0]
    ensures var g := TopTaken(h, nb, ts);
            Sound(g, b, dv, dvsize, segs) && Handed(h, g, h.lasts[0], nb)
    ensures TakenFields(h, TopTaken(h, nb, ts), nb)
  {
    hide LayoutOk, Size, Used, PrevUsed, Foot, TopRun, TopCut, SegsOk, VictimOk, Indexed, IndexedOutside, Handed,
         TopTaken, TakenFields;
    TakeTopOk(h, nb, ts);
    TakenSame(h, nb, ts);
    var g := TopTaken(h, nb, ts);
    var top := h.lasts[0];
    AllOutsideTop(h, b, dv);
    VictimNotTop(h, dv, dvsize);
    VictimTopCut(h, g, top, top + nb, dv, dvsize);
    HandedTopCut(h, g, top + nb);
    IndexTopCut(h, g, top, top + nb, b, dv, dv);
    FirstBase(segs, h);
    SegsTopCut(segs, h, g, top, top + nb);
    TakenMade(h, g, nb);
  }

  ghost predicate TakenFields(h: Layout, g: Layout, nb: nat) {
    && |h.lasts| > 0 && g.lasts == h.lasts[0 := h.lasts[0] + nb] && g.ends == h.ends && g.pinned == h.pinned
         && g.foot == h.foot
    && h.lasts[0] in g.chunks && Size(g, h.lasts[0]) == nb && Used(g, h.lasts[0]) && PrevUsed(g, h.lasts[0])
  }

  lemma TakenMade(h: Layout, g: Layout, nb: nat)
    requires LayoutOk(h) && |h.lasts| > 0 && |h.ends| > 0 && TopCut(h, g, h.lasts[0], h.lasts[0] + nb) && nb > 0
             && g.foot == h.foot
    ensures TakenFields(h, g, nb)
  {
    hide LayoutOk, Size, Used, PrevUsed, Foot;
    LastAt(h, 0);
  }

  lemma FirstBase(segs: seq<Seg>, h: Layout)
    requires SegsOk(segs, h) && |h.lasts| > 0
    ensures |segs| > 0 && segs[0].base <= h.lasts[0]
  {
  }

  lemma TakenSame(h: Layout, nb: nat, ts: nat)
    requires |h.lasts| > 0 && |h.ends| > 0 && nb % 8 == 0 && ts % 8 == 0 && nb < TWO_32 && ts < TWO_32
    ensures var p := h.lasts[0];
            TopTaken(h, nb, ts) == h.(chunks := TopChunks(h.chunks, p, p + nb, h.ends[0]),
                head := TakeTop(h.head, p, nb, ts), lasts := h.lasts[0 := p + nb])
    ensures TopTaken(h, nb, ts).foot == h.foot
  {
  }

  /** Where the record goes: the last 24 bytes before the fenceposts, or the bottom of a top too small to leave a
      rest. */
  function RecordAt(top: int, topsize: nat): int { if topsize < MIN_CHUNK_SIZE then top else top + topsize }

  /** The heads after the record and the fenceposts have been written. */
  ghost predicate Posts(head: map<int, word>, head': map<int, word>, sp: int, end: int, base: int, ts: nat)
    requires ts % 8 == 0 && ts < TWO_32
  {
    && HeadAt(head', sp + RECORD_SIZE) == FENCEPOST_HEAD
    && forall x :: x < sp + RECORD_SIZE || end <= x ==>
         HeadAt(head', x) == HeadAt(InitTop(head, base, ts)[sp := MkHead(RECORD_SIZE, true, true)], x)
  }

  /** Where fencepost k behind the record at sp is. */
  function PostAt(sp: int, k: nat): int { sp + RECORD_SIZE + 4 * k }

  /** The record chunk at sp is in use, and n fenceposts, at least two, follow it. */
  ghost predicate ClosedOff(head: map<int, word>, sp: int, n: nat) {
    && ChunkSize(HeadAt(head, sp)) == RECORD_SIZE && CInUse(HeadAt(head, sp))
    && n >= 2 && forall k: nat :: k < n ==> HeadAt(head, PostAt(sp, k)) == FENCEPOST_HEAD
  }

  lemma PostsRecord(head: map<int, word>, head': map<int, word>, sp: int, end: int, base: int, ts: nat, n: nat)
    requires ts % 8 == 0 && ts < TWO_32 && Posts(head, head', sp, end, base, ts)
    requires n >= 2 && forall k: nat :: k < n ==> HeadAt(head', PostAt(sp, k)) == FENCEPOST_HEAD
    ensures ClosedOff(head', sp, n)
  {
    hide MkHead, InitTop, ChunkSize, CInUse;
    HeadFields(RECORD_SIZE, true, true);
    assert HeadAt(head', sp) == MkHead(RECORD_SIZE, true, true);
  }

  /** Freeing the chunk below the record leaves them there. */
  lemma ClosedOffFree(head: map<int, word>, q: int, s: nat, n: nat)
    requires s % 8 == 0 && 0 < s < TWO_32 && ClosedOff(head, q + s, n)
    ensures ClosedOff(SetFree(head, q, s, true), q + s, n)
  {
    hide MkHead, ChunkSize, CInUse, ClearPInUse;
    ClearPInUseFields(HeadAt(head, q + s));
  }

  ghost function Recorded(h: Layout, head': map<int, word>, sp: int, base: int, size: nat): Layout {
    h.(head := head', lasts := [base] + h.lasts, ends := [base + size] + h.ends, pinned := h.pinned + {sp})
  }

  /** The fenceposts close the old segment once the record chunk has been cut from top. */
  lemma PostsClose(h0: Layout, h: Layout, head': map<int, word>, sp: int, base: int, size: nat, ts: nat, t: nat)
    requires t % 8 == 0 && t < TWO_32 && ts % 8 == 0 && 0 < ts < TWO_32 && ts + TOP_FOOT_SIZE == size
    requires |h0.lasts| > 0 && |h0.ends| > 0 && h0.lasts[0] == sp && h == TopTaken(h0, RECORD_SIZE, t)
             && Posts(h0.head, head', sp, h0.ends[0], base, ts)
    requires sp + RECORD_SIZE < h0.ends[0] && (base + size <= sp || h0.ends[0] <= base)
    ensures Closed(h, Recorded(h, head', sp, base, size), sp, base, size)
  {
    hide MkHead, ChunkSize, CInUse, PInUse, TopChunks;
    HeadFields(ts, false, true);
    FenceFields();
    assert HeadAt(head', base) == MkHead(ts, false, true);
  }

  lemma FenceFields()
    ensures CInUse(FENCEPOST_HEAD) && PInUse(FENCEPOST_HEAD)
  {
  }

  /** Top is too small to leave a rest: all of it and of its overhead becomes the record. */
  lemma CloseSmall(h: Layout, b: map<int, nat>, dv: int, dvsize: nat, top: int, topsize: nat, segs: seq<Seg>,
                   head': map<int, word>, base: int, size: nat, ts: nat)
    requires HeapOk(h, b, dv, dvsize, top, topsize, segs) && Fresh(segs, base, size) && ts % 8 == 0 && ts < TWO_32
             && ts + TOP_FOOT_SIZE == size
    requires topsize < MIN_CHUNK_SIZE && |h.ends| > 0 && Posts(h.head, head', top, h.ends[0], base, ts)
    ensures var g := Recorded(TopTaken(h, RECORD_SIZE, 16), head', top, base, size);
            HeapOk(g, b, dv, dvsize, base, ts, [Seg(base, size)] + segs) && Kept(h, g)
  {
    hide LayoutOk, Size, Used, PrevUsed, Foot, SegsOk, VictimOk, Indexed, Posts, Recorded, TopTaken, Handed, Closed,
         Fresh, TopOk;
    CloseStart(h, top, topsize, segs, base, size);
    TakeStepSound(h, b, dv, dvsize, segs, RECORD_SIZE, 16);
    var h1 := TopTaken(h, RECORD_SIZE, 16);
    var g := Recorded(h1, head', top, base, size);
    PostsClose(h, h1, head', top, base, size, ts, 16);
    HandedIn(h, h1, top, RECORD_SIZE);
    ClosedStep(h1, g, b, dv, dvsize, segs, top, base, size, ts);
    HandedThenKept(h, h1, g, top, RECORD_SIZE);
  }

  lemma CloseStart(h: Layout, top: int, topsize: nat, segs: seq<Seg>, base: int, size: nat)
    requires LayoutOk(h) && TopOk(h, top, topsize) && SegsOk(segs, h) && Fresh(segs, base, size)
    ensures |h.lasts| == |h.ends| && |h.lasts| > 0 && top == h.lasts[0] && h.ends[0] == top + topsize + TOP_FOOT_SIZE
            && 0 < topsize < TWO_32 && topsize % 8 == 0
    ensures (base + size <= top || h.ends[0] <= base) && (forall k :: 0 <= k < |h.ends| ==> h.ends[k] <= TWO_32)
            && size > TOP_FOOT_SIZE
    ensures PrevUsed(h, top) && top > 0
  {
    hide LayoutOk, Size;
    LastAt(h, 0);
  }

  lemma HandedIn(h: Layout, g: Layout, p: int, nb: nat)
    requires Handed(h, g, p, nb)
    ensures p in Allocated(g) && p in g.chunks
  {
    hide Size;
  }

  lemma HandedThenKept(h: Layout, h1: Layout, g: Layout, p: int, nb: nat)
    requires Handed(h, h1, p, nb) && Allocated(g) == Allocated(h1) - {p}
             && forall q :: q in Allocated(h1) ==> Size(g, q) == Size(h1, q)
    ensures Kept(h, g)
  {
    hide Size, Allocated;
  }

  /** The layout right before the rest of the old top is freed. */
  ghost function Unfreed(h: Layout, head': map<int, word>, top: int, topsize: nat, base: int, size: nat): Layout
    requires |h.lasts| > 0 && |h.ends| > 0 && topsize % 8 == 0 && topsize < TWO_32
  {
    Recorded(TopTaken(TopTaken(h, topsize, 40), RECORD_SIZE, 16), head'[top := MkHead(topsize, true, true)],
        top + topsize, base, size)
  }

  /** Two chunks are cut from top: its rest and the record. */
  lemma CutTwice(h: Layout, b: map<int, nat>, dv: int, dvsize: nat, top: int, topsize: nat, segs: seq<Seg>)
    requires HeapOk(h, b, dv, dvsize, top, topsize, segs) && MIN_CHUNK_SIZE <= topsize
    ensures |h.lasts| > 0 && |h.ends| > 0 && topsize % 8 == 0 && topsize < TWO_32
    ensures var h1 := TopTaken(h, topsize, 40);
            var h2 := TopTaken(h1, RECORD_SIZE, 16);
            && Sound(h1, b, dv, dvsize, segs) && Sound(h2, b, dv, dvsize, segs) && h1.lasts[0] == top + topsize
            && Handed(h, h1, top, topsize) && Handed(h1, h2, top + topsize, RECORD_SIZE)
            && TakenFields(h, h1, topsize) && TakenFields(h1, h2, RECORD_SIZE)
  {
    hide LayoutOk, Size, Used, PrevUsed, Foot, SegsOk, VictimOk, Indexed, TopTaken, Handed;
    TopFacts(h, top, topsize, segs);
    LastAt0(h);
    LastAt(h, 0);
    TakeStepSound(h, b, dv, dvsize, segs, topsize, 40);
    TakeStepSound(TopTaken(h, topsize, 40), b, dv, dvsize, segs, RECORD_SIZE, 16);
  }

  lemma PostsCloseTwice(h: Layout, head': map<int, word>, top: int, topsize: nat, base: int, size: nat, ts: nat)
    requires |h.lasts| > 0 && |h.ends| > 0 && h.lasts[0] == top && MIN_CHUNK_SIZE <= topsize < TWO_32
             && topsize % 8 == 0 && h.ends[0] == top + topsize + TOP_FOOT_SIZE
    requires ts % 8 == 0 && 0 < ts < TWO_32 && ts + TOP_FOOT_SIZE == size
             && Posts(h.head, head', top + topsize, h.ends[0], base, ts)
    requires base + size <= top || h.ends[0] <= base
    ensures var h2 := TopTaken(TopTaken(h, topsize, 40), RECORD_SIZE, 16);
            Closed(h2, Unfreed(h, head', top, topsize, base, size), top + topsize, base, size)
  {
    hide MkHead, ChunkSize, CInUse, PInUse, TopChunks;
    HeadFields(ts, false, true);
    FenceFields();
    var h2 := TopTaken(TopTaken(h, topsize, 40), RECORD_SIZE, 16);
    var g := Unfreed(h, head', top, topsize, base, size);
    var sp := top + topsize;
    assert HeadAt(head', base) == MkHead(ts, false, true);
    forall x | (x < sp + RECORD_SIZE || h.ends[0] <= x) && (x < base || base + size <= x)
      ensures HeadAt(g.head, x) == HeadAt(h2.head, x)
    {
      assert HeadAt(head', x) == HeadAt(InitTop(h.head, base, ts)[sp := MkHead(RECORD_SIZE, true, true)], x);
    }
  }

  lemma SetFreeTwice(head: map<int, word>, lo: int, s: nat, w: word)
    requires s % 8 == 0 && 0 < s < TWO_32
    ensures SetFree(head[lo := w], lo, s, true) == SetFree(head, lo, s, true)
  {
    hide MkHead, ClearPInUse;
  }

  /** What is known right before the rest of the old top is freed. */
  lemma CloseLarge(h: Layout, b: map<int, nat>, dv: int, dvsize: nat, top: int, topsize: nat, segs: seq<Seg>,
                   head': map<int, word>, base: int, size: nat, ts: nat)
    requires HeapOk(h, b, dv, dvsize, top, topsize, segs) && Fresh(segs, base, size) && ts % 8 == 0 && ts < TWO_32
             && ts + TOP_FOOT_SIZE == size
    requires MIN_CHUNK_SIZE <= topsize && |h.ends| > 0 && Posts(h.head, head', top + topsize, h.ends[0], base, ts)
    ensures |h.lasts| > 0 && topsize % 8 == 0 && topsize < TWO_32
    ensures var g := Unfreed(h, head', top, topsize, base, size);
            && HeapOk(g, b, dv, dvsize, base, ts, [Seg(base, size)] + segs)
            && top in Allocated(g) && top !in Allocated(h) && Allocated(g) == Allocated(h) + {top}
            && Size(g, top) == topsize && PrevUsed(g, top)
            && (forall q :: q in Allocated(h) ==> Size(g, q) == Size(h, q))
            && top + topsize in g.chunks && Used(g, top + topsize) && (dv < top || top + topsize <= dv)
  {
    hide LayoutOk, Size, Used, PrevUsed, Foot, SegsOk, VictimOk, Indexed, Posts, Unfreed, TopTaken, Handed, Closed,
         Fresh, TopOk, TakenFields;
    CloseStart(h, top, topsize, segs, base, size);
    CutTwice(h, b, dv, dvsize, top, topsize, segs);
    var h1 := TopTaken(h, topsize, 40);
    var h2 := TopTaken(h1, RECORD_SIZE, 16);
    var sp := top + topsize;
    var g := Unfreed(h, head', top, topsize, base, size);
    PostsCloseTwice(h, head', top, topsize, base, size, ts);
    RecordLast(h, h1, h2, topsize);
    HandedIn(h1, h2, sp, RECORD_SIZE);
    HandedIn(h, h1, top, topsize);
    HandedStays(h1, h2, sp, RECORD_SIZE, top);
    CloseSpotMade(h2, b, dv, dvsize, segs, sp, base, size);
    ClosedStep(h2, g, b, dv, dvsize, segs, sp, base, size, ts);
    ClosedAt(h2, g, segs, sp, base, size, top);
    ClosedAt(h2, g, segs, sp, base, size, sp);
    UnfreedFields(h, head', top, topsize, base, size);
    CutSize(h, h1, topsize);
    HandedTwice(h, h1, h2, g, top, topsize, sp, RECORD_SIZE);
    VictimNotTop(h, dv, dvsize);
  }

  lemma RecordLast(h: Layout, h1: Layout, h2: Layout, topsize: nat)
    requires TakenFields(h, h1, topsize) && TakenFields(h1, h2, RECORD_SIZE) && LayoutOk(h1) && LayoutOk(h2)
    ensures |h2.lasts| > 0 && Next(h2, h1.lasts[0]) == h2.lasts[0] && h1.lasts[0] in h2.chunks && Used(h2, h1.lasts[0])
            && h2.ends == h.ends
  {
    hide LayoutOk, Size, Used, PrevUsed;
  }

  lemma CloseSpotMade(h: Layout, b: map<int, nat>, dv: int, dvsize: nat, segs: seq<Seg>, sp: int, base: int, size: nat)
    requires Sound(h, b, dv, dvsize, segs) && Fresh(segs, base, size) && sp in Allocated(h) && Next(h, sp) == h.lasts[0]
    ensures CloseSpot(h, segs, sp, base, size) && Indexed(h, b, dv) && VictimOk(h, dv, dvsize)
  {
    hide LayoutOk, SegsOk, Fresh, Indexed, VictimOk, Next, Allocated;
  }

  lemma HandedStays(h: Layout, g: Layout, p: int, nb: nat, q: int)
    requires Handed(h, g, p, nb) && q in Allocated(h)
    ensures q in Allocated(g) && q in g.chunks && q != p && Size(g, q) == Size(h, q) && Used(g, q)
  {
    hide Size;
  }

  lemma HandedTwice(h: Layout, h1: Layout, h2: Layout, g: Layout, p: int, nb: nat, q: int, n: nat)
    requires Handed(h, h1, p, nb) && Handed(h1, h2, q, n) && Allocated(g) == Allocated(h2) - {q}
             && forall x :: x in Allocated(h2) ==> Size(g, x) == Size(h2, x)
    requires Size(h1, p) == nb
    ensures p in Allocated(g) && p !in Allocated(h) && Allocated(g) == Allocated(h) + {p} && Size(g, p) == nb
    ensures forall x :: x in Allocated(h) ==> Size(g, x) == Size(h, x)
  {
    hide Size, Allocated;
  }

  lemma CutSize(h: Layout, h1: Layout, topsize: nat)
    requires TakenFields(h, h1, topsize)
    ensures Size(h1, h.lasts[0]) == topsize
  {
    hide Size, Used, PrevUsed;
  }

  lemma UnfreedFields(h: Layout, head': map<int, word>, top: int, topsize: nat, base: int, size: nat)
    requires |h.lasts| > 0 && |h.ends| > 0 && topsize % 8 == 0 && topsize < TWO_32
    ensures var g := Unfreed(h, head', top, topsize, base, size);
            PrevUsed(g, top) && g.chunks == TopTaken(TopTaken(h, topsize, 40), RECORD_SIZE, 16).chunks
  {
    HeadFields(topsize, true, true);
    hide MkHead, PInUse;
  }
}
