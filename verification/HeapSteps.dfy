/** Each way malloc takes memory keeps the whole heap state in order. */
module HeapSteps {
  import opened Bytes
  import opened Words
  import opened TreeBins
  import opened Layouts
  import opened Writes
  import opened Segments
  import opened HeapState

  ghost predicate HeapOk(h: Layout, b: map<int, nat>, dv: int, dvsize: nat, top: int, topsize: nat, segs: seq<Seg>) {
    LayoutOk(h) && Indexed(h, b, dv) && VictimOk(h, dv, dvsize) && TopOk(h, top, topsize) && SegsOk(segs, h)
  }

  /** Header sizes agree with the recorded ones. */
  ghost predicate Agree(head: map<int, word>, b: map<int, nat>) {
    forall a :: a in b ==> ChunkSize(HeadAt(head, a)) == b[a]
  }

  lemma TopRecut(h: Layout, g: Layout, lo: int, mid: int, hi: int, u1: bool, u2: bool, top: int, topsize: nat)
    requires TopOk(h, top, topsize) && Recut(h, g, lo, mid, hi, u1, u2)
    ensures TopOk(g, top, topsize)
  {
    hide Size, Used, PrevUsed, Foot;
  }

  /** The general step: a run is cut anew, its chunks having been taken out of the bins before. */
  lemma RecutStep(h: Layout, g: Layout, lo: int, mid: int, hi: int, u1: bool, u2: bool,
                  b: map<int, nat>, c: map<int, nat>, dv: int, dv': int, dvsize': nat, top: int, topsize: nat,
                      segs: seq<Seg>)
    requires LayoutOk(h) && LayoutOk(g) && TopOk(h, top, topsize) && SegsOk(segs, h)
    requires Run(h, lo, hi) && Recut(h, g, lo, mid, hi, u1, u2) && lo < mid <= hi && IndexedOutside(h, b, dv, lo, hi)
    requires dv' == dv || ((lo <= dv < hi || dv == 0) && (lo <= dv' < hi || dv' == 0))
    requires forall x :: x in c <==> x in b || (x != dv' && ((x == lo && !u1) || (x == mid && mid < hi && !u2)))
    requires forall x :: x in b ==> c[x] == b[x]
    requires (lo in c ==> c[lo] == mid - lo) && (mid < hi && mid in c ==> c[mid] == hi - mid)
    requires VictimOk(g, dv', dvsize')
    ensures HeapOk(g, c, dv', dvsize', top, topsize, segs) && Agree(g.head, b)
  {
    hide LayoutOk, Size, Used, PrevUsed, Foot, VictimOk, TopOk, SegsOk, Run, Recut, IndexedOutside, Indexed;
    IndexRecut(h, g, lo, mid, hi, u1, u2, b, c, dv, dv');
    TopRecut(h, g, lo, mid, hi, u1, u2, top, topsize);
    SegsRecut(segs, h, g, lo, mid, hi, u1, u2);
    MatchesRecut(h, g, lo, mid, hi, u1, u2, b, b, dv);
  }

  /** Taking one free chunk out of the bins leaves the others recorded. */
  lemma Unbinned(h: Layout, b: map<int, nat>, dv: int, p: int)
    requires LayoutOk(h) && Indexed(h, b, dv) && p in h.chunks && !Used(h, p)
    ensures IndexedOutside(h, b - {p}, dv, p, Next(h, p))
    ensures forall x :: x in h.chunks && p <= x < Next(h, p) ==> !Used(h, x)
  {
    hide LayoutOk, Size, Used;
    OneChunk(h, p);
    AlignedAt(h, p);
  }

  /** A chunk elsewhere than in the run keeps being the victim. */
  lemma VictimElsewhere(h: Layout, g: Layout, p: int, mid: int, hi: int, u1: bool, u2: bool, dv: int, dvsize: nat)
    requires LayoutOk(h) && VictimOk(h, dv, dvsize) && p in h.chunks && hi == Next(h, p) && dv != p
    requires Recut(h, g, p, mid, hi, u1, u2)
    ensures VictimOk(g, dv, dvsize)
  {
    hide LayoutOk, Size, Used, PrevUsed, Foot, Recut, VictimOk;
    AlignedAt(h, p);
    OneChunk(h, p);
    if dv < p || hi <= dv {
      VictimRecut(h, g, p, mid, hi, u1, u2, dv, dvsize);
    } else {
      VictimIsChunk(h, dv, dvsize);
    }
  }

  lemma VictimIsChunk(h: Layout, dv: int, dvsize: nat)
    requires VictimOk(h, dv, dvsize) && dv != 0
    ensures dv in h.chunks && !Used(h, dv) && Size(h, dv) == dvsize
  {
  }

  /** A chunk in the bins, or the victim, is handed out whole. */
  lemma TakeStep(h: Layout, b: map<int, nat>, dv: int, dvsize: nat, top: int, topsize: nat, segs: seq<Seg>, p: int,
          nb: nat)
    requires HeapOk(h, b, dv, dvsize, top, topsize, segs) && p in h.chunks && !Used(h, p)
    requires nb <= Size(h, p) < nb + MIN_CHUNK_SIZE
    ensures Size(h, p) % 8 == 0 && Size(h, p) < TWO_32
    ensures var g := h.(head := Take(h.head, p, Size(h, p)));
            var dv', dvsize' := if p == dv then 0 else dv, if p == dv then 0 else dvsize;
            HeapOk(g, b - {p}, dv', dvsize', top, topsize, segs) && Handed(h, g, p, nb)
  {
    hide LayoutOk, Size, Used, PrevUsed, Foot, VictimOk, TopOk, SegsOk, Run, Recut, Indexed, IndexedOutside, Take,
         Handed;
    TakeOk(h, p);
    AlignedAt(h, p);
    OneChunkRun(h, p);
    var n := Next(h, p);
    var g := h.(head := Take(h.head, p, Size(h, p)));
    Unbinned(h, b, dv, p);
    HandedRecut(h, g, p, n, n, true, nb);
    if p == dv {
      NoVictim(g);
      RecutStep(h, g, p, n, n, true, true, b - {p}, b - {p}, dv, 0, 0, top, topsize, segs);
    } else {
      VictimElsewhere(h, g, p, n, n, true, true, dv, dvsize);
      RecutStep(h, g, p, n, n, true, true, b - {p}, b - {p}, dv, dv, dvsize, top, topsize, segs);
    }
  }

  lemma NoVictim(g: Layout)
    ensures VictimOk(g, 0, 0)
  {
  }

  /** The layout after a request has been cut off the front of free chunk p. */
  ghost function FrontTaken(h: Layout, p: int, nb: nat, rs: nat): Layout
    requires nb % 8 == 0 && rs % 8 == 0 && nb + rs < TWO_32
  {
    h.(chunks := Cut(h.chunks, p, p + nb, p + nb + rs), head := TakeFront(h.head, p, nb, rs),
        foot := h.foot[p + nb + rs := rs])
  }

  /** The request and the rest are whole chunks. */
  predicate Parts(nb: nat, rs: nat) {
    nb % 8 == 0 && rs % 8 == 0 && MIN_CHUNK_SIZE <= nb && MIN_CHUNK_SIZE <= rs && nb + rs < TWO_32
  }

  /** What holds of that layout whatever becomes of the rest. */
  lemma FrontFacts(h: Layout, b: map<int, nat>, dv: int, p: int, nb: nat, rs: nat)
    requires Parts(nb, rs) && LayoutOk(h) && Indexed(h, b, dv) && p in h.chunks && !Used(h, p) && Size(h, p) == nb + rs
    ensures var g := FrontTaken(h, p, nb, rs);
            && LayoutOk(g) && Recut(h, g, p, p + nb, p + nb + rs, true, false) && Handed(h, g, p, nb)
            && p + nb in g.chunks && !Used(g, p + nb) && Size(g, p + nb) == rs
    ensures Run(h, p, p + nb + rs) && p > 0 && Next(h, p) == p + nb + rs
  {
    hide LayoutOk, Size, Used, PrevUsed, Foot, Indexed, IndexedOutside, TakeFront, Handed, Cut, Run;
    TakeFrontOk(h, p, nb);
    AlignedAt(h, p);
    OneChunkRun(h, p);
    Unbinned(h, b, dv, p);
    var g := FrontTaken(h, p, nb, rs);
    HandedRecut(h, g, p, p + nb, p + nb + rs, false, nb);
  }

  /** The bins without p and with a chunk at x. */
  function Rebinned(b: map<int, nat>, p: int, x: int, s: nat): map<int, nat> { (b - {p})[x := s] }

  /** The rest goes into a bin. */
  lemma FrontBinned(h: Layout, b: map<int, nat>, dv: int, dvsize: nat, top: int, topsize: nat, segs: seq<Seg>, p: int,
          nb: nat, rs: nat)
    requires HeapOk(h, b, dv, dvsize, top, topsize, segs) && p in h.chunks && !Used(h, p) && p != dv
    requires Size(h, p) == nb + rs && Parts(nb, rs)
    ensures var g := FrontTaken(h, p, nb, rs);
            HeapOk(g, Rebinned(b, p, p + nb, rs), dv, dvsize, top, topsize, segs) && Handed(h, g, p, nb)
    ensures Agree(FrontTaken(h, p, nb, rs).head, b - {p}) && p > 0 && p + nb !in b - {p}
  {
    hide LayoutOk, Size, Used, PrevUsed, Foot, VictimOk, TopOk, SegsOk, Run, Recut, Indexed, IndexedOutside,
         FrontTaken, Handed, Agree;
    FrontFacts(h, b, dv, p, nb, rs);
    Unbinned(h, b, dv, p);
    var g := FrontTaken(h, p, nb, rs);
    var n := p + nb + rs;
    var b1 := b - {p};
    VictimElsewhere(h, g, p, p + nb, n, true, false, dv, dvsize);
    NotRecorded(h, b1, dv, p, n, p + nb);
    NotRecorded(h, b1, dv, p, n, p);
    VictimApart(h, dv, dvsize, p, p + nb);
    RecutStep(h, g, p, p + nb, n, true, false, b1, b1[p + nb := rs], dv, dv, dvsize, top, topsize, segs);
  }

  lemma NotRecorded(h: Layout, b: map<int, nat>, dv: int, lo: int, hi: int, x: int)
    requires IndexedOutside(h, b, dv, lo, hi) && lo <= x < hi
    ensures x !in b
  {
  }

  /** The victim does not begin inside another chunk. */
  lemma VictimApart(h: Layout, dv: int, dvsize: nat, p: int, x: int)
    requires LayoutOk(h) && VictimOk(h, dv, dvsize) && p in h.chunks && p < x < Next(h, p) && p > 0
    ensures x != dv
  {
    hide LayoutOk, Size, Used;
    OneChunk(h, p);
  }

  /** Binning the old victim. */
  lemma BinVictim(h: Layout, b: map<int, nat>, dv: int, dvsize: nat)
    requires Indexed(h, b, dv) && VictimOk(h, dv, dvsize) && LayoutOk(h)
    ensures Indexed(h, if dv != 0 then b[dv := dvsize] else b, 0)
    ensures dv !in b && VictimOk(h, 0, 0)
  {
    hide LayoutOk, Size, Used;
    forall p | p in h.chunks
      ensures p != 0
    {
      AlignedAt(h, p);
    }
  }

  /** The rest becomes the victim; the old victim has been binned. */
  lemma FrontVictim(h: Layout, b: map<int, nat>, top: int, topsize: nat, segs: seq<Seg>, p: int, nb: nat, rs: nat)
    requires HeapOk(h, b, 0, 0, top, topsize, segs) && p in h.chunks && !Used(h, p) && Size(h, p) == nb + rs
             && Parts(nb, rs)
    ensures HeapOk(FrontTaken(h, p, nb, rs), b - {p}, p + nb, rs, top, topsize, segs)
            && Handed(h, FrontTaken(h, p, nb, rs), p, nb)
  {
    hide LayoutOk, Size, Used, PrevUsed, Foot, TopOk, SegsOk, Run, Recut, Indexed, IndexedOutside, FrontTaken, Handed;
    FrontFacts(h, b, 0, p, nb, rs);
    Unbinned(h, b, 0, p);
    var g := FrontTaken(h, p, nb, rs);
    var n := p + nb + rs;
    var b1 := b - {p};
    NotRecorded(h, b1, 0, p, n, p + nb);
    RecutStep(h, g, p, p + nb, n, true, false, b1, b1, 0, p + nb, rs, top, topsize, segs);
  }

  /** A request is cut off the front of the victim. */
  lemma VictimFront(h: Layout, b: map<int, nat>, dv: int, dvsize: nat, top: int, topsize: nat, segs: seq<Seg>, nb: nat,
          rs: nat)
    requires HeapOk(h, b, dv, dvsize, top, topsize, segs) && dv in h.chunks && !Used(h, dv) && dv !in b
    requires Size(h, dv) == nb + rs && Parts(nb, rs)
    ensures HeapOk(FrontTaken(h, dv, nb, rs), b, dv + nb, rs, top, topsize, segs)
            && Handed(h, FrontTaken(h, dv, nb, rs), dv, nb)
  {
    hide LayoutOk, Size, Used, PrevUsed, Foot, TopOk, SegsOk, Run, Recut, Indexed, IndexedOutside, FrontTaken, Handed;
    FrontFacts(h, b, dv, dv, nb, rs);
    Unbinned(h, b, dv, dv);
    assert b - {dv} == b;
    var g := FrontTaken(h, dv, nb, rs);
    var n := dv + nb + rs;
    NotRecorded(h, b, dv, dv, n, dv + nb);
    RecutStep(h, g, dv, dv + nb, n, true, false, b, b, dv, dv + nb, rs, top, topsize, segs);
  }

  // ---- top ----

  lemma AllOutsideTop(h: Layout, b: map<int, nat>, dv: int)
    requires LayoutOk(h) && Indexed(h, b, dv) && |h.lasts| > 0 && |h.ends| > 0
    ensures IndexedOutside(h, b, dv, h.lasts[0], h.ends[0])
  {
    hide LayoutOk, Size, Used, PrevUsed, Foot;
    LastAt(h, 0);
    forall p | p in h.chunks
      ensures p < h.lasts[0] || h.ends[0] <= p
    {
      BoundedAt(h, p, 0);
      AlignedAt(h, p);
    }
  }

  /** The general step for top. */
  lemma TopCutStep(h: Layout, g: Layout, lo: int, mid: int, b: map<int, nat>, dv: int, dv': int, dvsize': nat,
                   top: int, topsize: nat, topsize': nat, segs: seq<Seg>)
    requires LayoutOk(h) && LayoutOk(g) && TopOk(h, top, topsize) && SegsOk(segs, h) && segs[0].base <= lo
    requires TopRun(h, lo) && TopCut(h, g, lo, mid) && IndexedOutside(h, b, dv, lo, h.ends[0])
    requires dv' == dv || (dv' == 0 && lo <= dv < h.ends[0])
    requires topsize' > 0 && topsize' % 8 == 0 && mid + topsize' + TOP_FOOT_SIZE == h.ends[0]
    requires VictimOk(g, dv', dvsize')
    ensures HeapOk(g, b, dv', dvsize', mid, topsize', segs)
  {
    hide LayoutOk, Size, Used, PrevUsed, Foot, VictimOk, Indexed, IndexedOutside;
    TopSizes(h, g, lo, mid, top, topsize, topsize');
    hide SegsOk, TopRun, TopCut, TopOk;
    IndexTopCut(h, g, lo, mid, b, dv, dv');
    SegsTopCut(segs, h, g, lo, mid);
  }

  lemma TopSizes(h: Layout, g: Layout, lo: int, mid: int, top: int, topsize: nat, topsize': nat)
    requires TopOk(h, top, topsize) && TopCut(h, g, lo, mid)
    requires topsize' > 0 && topsize' % 8 == 0 && mid + topsize' + TOP_FOOT_SIZE == h.ends[0]
    ensures TopOk(g, mid, topsize')
  {
    hide Size, Used, PrevUsed, Foot;
  }

  ghost function TopTaken(h: Layout, nb: nat, ts: nat): Layout
    requires |h.lasts| > 0 && |h.ends| > 0 && nb % 8 == 0 && ts % 8 == 0 && nb < TWO_32 && ts < TWO_32
  {
    var p := h.lasts[0];
    h.(chunks := TopChunks(h.chunks, p, p + nb, h.ends[0]), head := TakeTop(h.head, p, nb, ts),
        lasts := h.lasts[0 := p + nb])
  }

  /** A request is cut off the bottom of top. */
  lemma TopStep(h: Layout, b: map<int, nat>, dv: int, dvsize: nat, top: int, topsize: nat, segs: seq<Seg>, nb: nat,
          ts: nat)
    requires HeapOk(h, b, dv, dvsize, top, topsize, segs) && |h.lasts| > 0 && |h.ends| > 0
    requires nb % 8 == 0 && MIN_CHUNK_SIZE <= nb < TWO_32 && 0 < ts < TWO_32 && ts % 8 == 0 && topsize == nb + ts
    ensures HeapOk(TopTaken(h, nb, ts), b, dv, dvsize, top + nb, ts, segs) && Handed(h, TopTaken(h, nb, ts), top, nb)
  {
    hide LayoutOk, Size, Next, Used, PrevUsed, Foot, TopRun, TopCut, SegsOk, VictimOk, Indexed, IndexedOutside, TopOk,
         Handed, TopChunks, TakeTop;
    TopFacts(h, top, topsize, segs);
    TakeTopOk(h, nb, ts);
    var g := TopTaken(h, nb, ts);
    AllOutsideTop(h, b, dv);
    VictimNotTop(h, dv, dvsize);
    VictimTopCut(h, g, top, top + nb, dv, dvsize);
    HandedTopCut(h, g, top + nb);
    TopCutStep(h, g, top, top + nb, b, dv, dv, dvsize, top, topsize, ts, segs);
  }

  lemma TopFacts(h: Layout, top: int, topsize: nat, segs: seq<Seg>)
    requires TopOk(h, top, topsize) && SegsOk(segs, h)
    ensures |h.lasts| > 0 && |h.ends| > 0 && |segs| > 0 && top == h.lasts[0] && segs[0].base <= top
    ensures top + topsize + TOP_FOOT_SIZE == h.ends[0] <= TWO_32 && topsize > 0 && topsize % 8 == 0
  {
  }

  lemma VictimNotTop(h: Layout, dv: int, dvsize: nat)
    requires LayoutOk(h) && VictimOk(h, dv, dvsize) && |h.lasts| > 0 && |h.ends| > 0
    ensures dv < h.lasts[0] || h.ends[0] <= dv
  {
    hide LayoutOk, Size, Used, PrevUsed, Foot;
    LastAt(h, 0);
    if dv != 0 {
      BoundedAt(h, dv, 0);
      AlignedAt(h, dv);
    }
  }
}
