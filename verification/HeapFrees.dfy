/** Giving a chunk back: joining it with its free neighbours keeps the whole heap state in order. */
module HeapFrees {
  import opened Bytes
  import opened Words
  import opened TreeBins
  import opened Layouts
  import opened Writes
  import opened Segments
  import opened HeapState
  import opened HeapSteps

  /** The chunk p is being given back or resized; free neighbours taken out of the bins make [lo, hi) one run with
      it. */
  ghost predicate Open(h: Layout, b: map<int, nat>, dv: int, dvsize: nat, top: int, topsize: nat, segs: seq<Seg>,
          p: int, lo: int, hi: int) {
    && LayoutOk(h) && IndexedOutside(h, b, dv, lo, hi) && VictimOk(h, dv, dvsize) && TopOk(h, top, topsize)
    && SegsOk(segs, h)
    && Run(h, lo, hi) && Lone(h, p, lo, hi)
  }

  /** p is the only chunk in use of the run, and at most one chunk precedes it there. */
  ghost predicate Lone(h: Layout, p: int, lo: int, hi: int) {
    && p in Allocated(h) && lo <= p < hi && (forall x :: x in h.chunks && lo <= x < hi && x != p ==> !Used(h, x))
    && forall x :: x in h.chunks && lo < x < hi ==> p <= x
  }

  lemma GivenChunk(h: Layout, p: int)
    requires LayoutOk(h) && p in Allocated(h)
    ensures p in h.chunks && Used(h, p) && p !in h.pinned && PrevUsed(h, Next(h, p)) && Run(h, p, Next(h, p))
            && Lone(h, p, p, Next(h, p))
    ensures Next(h, p) in h.chunks || (|h.lasts| > 0 && Next(h, p) == h.lasts[0])
    ensures 0 < p && p + MIN_CHUNK_SIZE <= Next(h, p)
  {
    hide LayoutOk, Size, Used, PrevUsed, Foot, Run;
    OneChunkRun(h, p);
    OneChunk(h, p);
    FollowedAt(h, p);
    LastAt0(h);
    AlignedAt(h, p);
  }

  lemma OpenStart(h: Layout, b: map<int, nat>, dv: int, dvsize: nat, top: int, topsize: nat, segs: seq<Seg>, p: int)
    requires HeapOk(h, b, dv, dvsize, top, topsize, segs) && p in Allocated(h)
    ensures Open(h, b, dv, dvsize, top, topsize, segs, p, p, Next(h, p))
  {
    GivenChunk(h, p);
    hide LayoutOk, Size, Used, PrevUsed, Foot, VictimOk, TopOk, SegsOk, Run, Lone;
    UsedOutside(h, b, dv, p);
  }

  lemma UsedOutside(h: Layout, b: map<int, nat>, dv: int, p: int)
    requires LayoutOk(h) && Indexed(h, b, dv) && p in h.chunks && Used(h, p)
    ensures IndexedOutside(h, b, dv, p, Next(h, p))
  {
    hide LayoutOk, Size, Used;
    OneChunk(h, p);
  }

  /** A free chunk right before or after the run joins it. */
  lemma OutsideBack(h: Layout, b: map<int, nat>, dv: int, c: int, lo: int, hi: int)
    requires LayoutOk(h) && IndexedOutside(h, b, dv, lo, hi) && c in h.chunks && Next(h, c) == lo && lo < hi
    ensures IndexedOutside(h, b - {c}, dv, c, hi)
  {
    hide LayoutOk, Size, Used;
    OneChunk(h, c);
    AlignedAt(h, c);
  }

  lemma OutsideFront(h: Layout, b: map<int, nat>, dv: int, lo: int, c: int)
    requires LayoutOk(h) && IndexedOutside(h, b, dv, lo, c) && c in h.chunks && lo < c
    ensures IndexedOutside(h, b - {c}, dv, lo, Next(h, c))
  {
    hide LayoutOk, Size, Used;
    OneChunk(h, c);
    AlignedAt(h, c);
  }

  /** The free chunk in front of p. */
  lemma Before(h: Layout, p: int)
    requires LayoutOk(h) && p in h.chunks && !PrevUsed(h, p)
    ensures var q := p - Foot(h, p);
            && q in h.chunks && !Used(h, q) && Next(h, q) == p && PrevUsed(h, q) && Size(h, q) == Foot(h, p)
            && Run(h, q, p) && 0 < q < p
    ensures Foot(h, p) % 8 == 0
  {
    hide LayoutOk, Size, Used, PrevUsed, Foot, Run;
    BackedAt(h, p);
    var q := p - Foot(h, p);
    LonelyAt(h, q);
    PinnedAt(h, q);
    OneChunkRun(h, q);
    AlignedAt(h, q);
    SizeBound(h, q);
  }

  lemma InBins(h: Layout, b: map<int, nat>, dv: int, lo: int, hi: int, c: int)
    requires IndexedOutside(h, b, dv, lo, hi) && c in h.chunks && !Used(h, c) && (c < lo || hi <= c)
    ensures c != dv ==> c in b && b[c] == Size(h, c)
    ensures c == dv ==> b - {c} == b
  {
  }

  lemma OpenBack(h: Layout, b: map<int, nat>, dv: int, dvsize: nat, top: int, topsize: nat, segs: seq<Seg>, p: int)
    requires HeapOk(h, b, dv, dvsize, top, topsize, segs) && p in Allocated(h) && !PrevUsed(h, p)
    ensures var q := p - Foot(h, p);
            && Open(h, b - {q}, dv, dvsize, top, topsize, segs, p, q, Next(h, p)) && PrevUsed(h, q)
            && (q != dv ==> q in b && b[q] == Foot(h, p)) && (q == dv ==> b - {q} == b)
            && Foot(h, p) % 8 == 0 && 0 < q < p
  {
    hide LayoutOk, Size, Used, PrevUsed, Foot, VictimOk, TopOk, SegsOk, Run, IndexedOutside, Indexed, Lone, Allocated;
    GivenChunk(h, p);
    Before(h, p);
    var q := p - Foot(h, p);
    UsedOutside(h, b, dv, p);
    OutsideBack(h, b, dv, q, p, Next(h, p));
    InBins(h, b, dv, p, Next(h, p), q);
    JoinRuns(h, q, p, Next(h, p));
    LoneBack(h, q, p);
  }

  lemma LoneBack(h: Layout, q: int, p: int)
    requires LayoutOk(h) && q in h.chunks && !Used(h, q) && Next(h, q) == p && Lone(h, p, p, Next(h, p)) && q < p
    ensures Lone(h, p, q, Next(h, p))
  {
    hide LayoutOk, Size, Used, Allocated;
    OneChunk(h, q);
  }

  /** The free chunk after the run. */
  lemma OpenForward(h: Layout, b: map<int, nat>, dv: int, dvsize: nat, top: int, topsize: nat, segs: seq<Seg>, p: int,
          lo: int, hi: int)
    requires Open(h, b, dv, dvsize, top, topsize, segs, p, lo, hi) && hi in h.chunks && !Used(h, hi)
    ensures var n := Next(h, hi);
            && Open(h, b - {hi}, dv, dvsize, top, topsize, segs, p, lo, n)
            && n in h.chunks && Used(h, n) && !PrevUsed(h, n) && hi < n
            && (hi != dv ==> hi in b && b[hi] == Size(h, hi)) && (hi == dv ==> b - {hi} == b)
  {
    hide LayoutOk, Size, Used, PrevUsed, Foot, VictimOk, TopOk, SegsOk, Run, IndexedOutside;
    LonelyAt(h, hi);
    PinnedAt(h, hi);
    OneChunkRun(h, hi);
    AlignedAt(h, hi);
    FollowedAt(h, hi);
    JoinRuns(h, lo, hi, Next(h, hi));
    OutsideFront(h, b, dv, lo, hi);
    InBins(h, b, dv, lo, hi, hi);
    OneChunk(h, hi);
  }

  lemma RunSize(h: Layout, top: int, topsize: nat, segs: seq<Seg>, lo: int, hi: int)
    requires LayoutOk(h) && TopOk(h, top, topsize) && SegsOk(segs, h) && Run(h, lo, hi)
    ensures 0 < lo && lo + MIN_CHUNK_SIZE <= hi < TWO_32 && (hi - lo) % 8 == 0
  {
    hide *;
    EndsBound(h, top, topsize, segs);
    var k := RunHome(segs, h, lo, hi);
    LastAt(h, k);
    RunLong(h, lo, hi);
    Multiples(lo, hi);
  }

  lemma Multiples(a: int, b: int)
    requires a % 8 == 0 && b % 8 == 0
    ensures (a + b) % 8 == 0 && (b - a) % 8 == 0
  {
  }

  lemma RunLong(h: Layout, lo: int, hi: int)
    requires LayoutOk(h) && Run(h, lo, hi)
    ensures 0 < lo && lo + MIN_CHUNK_SIZE <= hi && lo % 8 == 0 && hi % 8 == 0
  {
    hide LayoutOk, Size;
    AlignedAt(h, lo);
    assert Next(h, lo) <= hi;
  }

  lemma EndsBound(h: Layout, top: int, topsize: nat, segs: seq<Seg>)
    requires TopOk(h, top, topsize) && SegsOk(segs, h)
    ensures |segs| == |h.lasts| == |h.ends| && forall k :: 0 <= k < |h.ends| ==> h.ends[k] <= TWO_32
  {
  }

  ghost function FreeMade(h: Layout, lo: int, hi: int, s: nat, clear: bool): Layout
    requires s % 8 == 0 && s < TWO_32
  {
    h.(chunks := Cut(h.chunks, lo, hi, hi), head := SetFree(h.head, lo, s, clear), foot := h.foot[hi := s])
  }

  /** The run becomes one free chunk: the victim if it holds the victim, and a binned chunk otherwise. */
  lemma FreeDone(h: Layout, b: map<int, nat>, dv: int, dvsize: nat, top: int, topsize: nat, segs: seq<Seg>, p: int,
          lo: int, hi: int, s: nat, clear: bool)
    requires Open(h, b, dv, dvsize, top, topsize, segs, p, lo, hi) && hi in h.chunks && Used(h, hi)
             && (clear || !PrevUsed(h, hi))
    requires hi == lo + s && PrevUsed(h, lo)
    ensures s % 8 == 0 && MIN_CHUNK_SIZE <= s < TWO_32 && lo > 0
    ensures var g := FreeMade(h, lo, hi, s, clear);
            && Returned(h, g, p)
            && if lo <= dv < hi then HeapOk(g, b, lo, s, top, topsize, segs)
               else HeapOk(g, b[lo := s], dv, dvsize, top, topsize, segs) && Agree(g.head, b) && lo !in b
  {
    hide LayoutOk, Size, Used, PrevUsed, Foot, VictimOk, TopOk, SegsOk, Run, IndexedOutside, Recut, SetFree, HeapOk,
         Agree, Returned, Cut;
    RunSize(h, top, topsize, segs, lo, hi);
    SetFreeOk(h, lo, hi, s, clear);
    var g := FreeMade(h, lo, hi, s, clear);
    ReturnedRecut(h, g, lo, hi, p);
    NotRecorded(h, b, dv, lo, hi, lo);
    if lo <= dv < hi {
      VictimMade(h, g, lo, hi);
      RecutStep(h, g, lo, hi, hi, false, false, b, b, dv, lo, s, top, topsize, segs);
    } else {
      VictimRecut(h, g, lo, hi, hi, false, false, dv, dvsize);
      RecutStep(h, g, lo, hi, hi, false, false, b, b[lo := s], dv, dv, dvsize, top, topsize, segs);
    }
  }

  lemma VictimMade(h: Layout, g: Layout, lo: int, hi: int)
    requires 0 < lo < hi && Recut(h, g, lo, hi, hi, false, false)
    ensures VictimOk(g, lo, hi - lo)
  {
    hide Size, Used, PrevUsed, Foot;
  }

  ghost function TopGiven(h: Layout, q: int, ts: nat): Layout
    requires |h.lasts| > 0 && |h.ends| > 0 && ts % 8 == 0 && ts < TWO_32
  {
    h.(chunks := TopChunks(h.chunks, q, q, h.ends[0]), head := h.head[q := MkHead(ts, false, true)],
        lasts := h.lasts[0 := q])
  }

  lemma OpenParts(h: Layout, b: map<int, nat>, dv: int, dvsize: nat, top: int, topsize: nat, segs: seq<Seg>, p: int,
          lo: int, hi: int)
    requires Open(h, b, dv, dvsize, top, topsize, segs, p, lo, hi)
    ensures LayoutOk(h) && IndexedOutside(h, b, dv, lo, hi) && VictimOk(h, dv, dvsize) && TopOk(h, top, topsize)
            && SegsOk(segs, h)
    ensures Run(h, lo, hi) && Lone(h, p, lo, hi)
  {
    hide LayoutOk, IndexedOutside, VictimOk, TopOk, SegsOk, Run, Lone;
  }

  lemma FreeTopFacts(h: Layout, b: map<int, nat>, dv: int, dvsize: nat, top: int, topsize: nat, segs: seq<Seg>, p: int,
          lo: int, ts: nat)
    requires Open(h, b, dv, dvsize, top, topsize, segs, p, lo, top) && lo + ts == top + topsize && PrevUsed(h, lo)
    ensures |h.lasts| > 0 && |h.ends| > 0 && ts % 8 == 0 && 0 < ts < TWO_32 && |segs| > 0 && segs[0].base <= lo
            && 0 < lo
    ensures lo + ts + TOP_FOOT_SIZE == h.ends[0]
    ensures IndexedOutside(h, b, dv, lo, h.ends[0]) && |h.lasts| == |h.ends|
    ensures var g := TopGiven(h, lo, ts); LayoutOk(g) && TopRun(h, lo) && TopCut(h, g, lo, lo) && Returned(h, g, p)
  {
    hide LayoutOk, Size, Next, Used, PrevUsed, Foot, VictimOk, TopOk, SegsOk, Run, IndexedOutside, TopCut, TopRun,
         Returned, TopChunks, Lone, Open;
    OpenParts(h, b, dv, dvsize, top, topsize, segs, p, lo, top);
    TopFacts(h, top, topsize, segs);
    RunSize(h, top, topsize, segs, lo, top);
    Multiples(top - lo, topsize);
    GiveToTop(h, lo, ts);
    LoneTop(h, p, lo, top, topsize);
    ReturnedTopCut(h, TopGiven(h, lo, ts), lo, p);
    OutsideTop(h, b, dv, lo, top);
    BaseBefore(h, segs, lo, top, topsize);
  }

  /** The run goes to top, together with the victim if it holds it. */
  lemma FreeTop(h: Layout, b: map<int, nat>, dv: int, dvsize: nat, top: int, topsize: nat, segs: seq<Seg>, p: int,
          lo: int, ts: nat)
    requires Open(h, b, dv, dvsize, top, topsize, segs, p, lo, top) && lo + ts == top + topsize && PrevUsed(h, lo)
    ensures |h.lasts| > 0 && |h.ends| > 0 && ts % 8 == 0 && ts < TWO_32
    ensures var g := TopGiven(h, lo, ts);
            && Returned(h, g, p)
            && HeapOk(g, b, if lo == dv then 0 else dv, if lo == dv then 0 else dvsize, lo, ts, segs)
  {
    hide LayoutOk, Size, Used, PrevUsed, Foot, VictimOk, TopOk, SegsOk, Run, IndexedOutside, TopCut, TopRun, HeapOk,
         Returned, TopChunks, Lone, TopGiven;
    FreeTopFacts(h, b, dv, dvsize, top, topsize, segs, p, lo, ts);
    var g := TopGiven(h, lo, ts);
    if lo == dv {
      NoVictim(g);
      TopCutStep(h, g, lo, lo, b, dv, 0, 0, top, topsize, ts, segs);
    } else {
      VictimApartTop(h, dv, dvsize, top, topsize, p, lo);
      VictimTopCut(h, g, lo, lo, dv, dvsize);
      TopCutStep(h, g, lo, lo, b, dv, dv, dvsize, top, topsize, ts, segs);
    }
  }

  lemma LoneTop(h: Layout, p: int, lo: int, top: int, topsize: nat)
    requires LayoutOk(h) && TopOk(h, top, topsize) && Lone(h, p, lo, top)
    ensures |h.ends| > 0 && lo <= p < h.ends[0] && p in Allocated(h)
    ensures forall x :: x in h.chunks && lo <= x < h.ends[0] && x != p ==> !Used(h, x)
  {
    hide LayoutOk, Size, Used, PrevUsed, Foot;
    forall x | x in h.chunks
      ensures x < top || h.ends[0] <= x
    {
      BoundedAt(h, x, 0);
      AlignedAt(h, x);
    }
  }

  lemma OutsideTop(h: Layout, b: map<int, nat>, dv: int, lo: int, top: int)
    requires LayoutOk(h) && |h.lasts| > 0 && |h.ends| > 0 && top == h.lasts[0] && IndexedOutside(h, b, dv, lo, top)
    ensures IndexedOutside(h, b, dv, lo, h.ends[0])
  {
    hide LayoutOk, Size, Used, PrevUsed, Foot;
    LastAt(h, 0);
    forall x | x in h.chunks
      ensures x < top || h.ends[0] <= x
    {
      BoundedAt(h, x, 0);
      AlignedAt(h, x);
    }
  }

  lemma BaseBefore(h: Layout, segs: seq<Seg>, lo: int, top: int, topsize: nat)
    requires LayoutOk(h) && TopOk(h, top, topsize) && SegsOk(segs, h) && Run(h, lo, top)
    ensures |segs| > 0 && segs[0].base <= lo
  {
    hide LayoutOk, Size, Used, PrevUsed, Foot;
    var k := RunHome(segs, h, lo, top);
    LastAt(h, k);
  }

  /** The victim is either the first chunk of the run or not in it. */
  lemma VictimApartTop(h: Layout, dv: int, dvsize: nat, top: int, topsize: nat, p: int, lo: int)
    requires LayoutOk(h) && TopOk(h, top, topsize) && VictimOk(h, dv, dvsize) && Lone(h, p, lo, top) && lo != dv
             && 0 < lo
    ensures |h.ends| > 0 && (dv < lo || h.ends[0] <= dv)
  {
    hide LayoutOk, Size, Used, PrevUsed, Foot;
    LastAt(h, 0);
    if lo < dv {
      BoundedAt(h, dv, 0);
      AlignedAt(h, dv);
      if dv < top {
        LonelyAt(h, dv);
      }
    }
  }
}
