/** The header and footer writes of dlmalloc, each shown to be a new cut of a run of chunks. */
module Writes {
  import opened Bytes
  import opened Words
  import opened TreeBins
  import opened Layouts

  /** Chunk set after the run from lo to hi is cut at mid. */
  ghost function Cut(chunks: set<int>, lo: int, mid: int, hi: int): set<int> {
    (set x | x in chunks && (x < lo || hi <= x)) + {lo} + (if mid < hi then {mid} else {})
  }

  /** A run of one chunk. */
  lemma OneChunkRun(h: Layout, p: int)
    requires LayoutOk(h) && p in h.chunks && p !in h.pinned
    ensures Run(h, p, Next(h, p)) && Next(h, p) >= p + MIN_CHUNK_SIZE
    ensures Next(h, p) !in h.lasts || Next(h, p) == h.lasts[0]
  {
    hide Size, Used, PrevUsed, Foot;
    var n := Next(h, p);
    AlignedAt(h, p);
    FollowedAt(h, p);
    PinnedAt(h, p);
    SizeFacts(Head(h, p));
    assert n % 8 == 0 by { AlignedNext(h, p); }
    forall x | x in h.chunks && p <= x < n
      ensures x == p
    {
      ApartAt(h, p, x);
    }
    forall k | 0 <= k < |h.lasts|
      ensures n <= h.lasts[k] || h.ends[k] <= p
    {
      BoundedAt(h, p, k);
    }
    forall x | x in h.pinned
      ensures x < p || n <= x
    {
      PinnedIn(h, x);
    }
    LastAt0(h);
  }

  lemma AlignedNext(h: Layout, p: int)
    requires LayoutOk(h) && p in h.chunks
    ensures Next(h, p) % 8 == 0
  {
    hide ChunkSize;
    AlignedAt(h, p);
    SizeFacts(Head(h, p));
  }

  lemma PinnedIn(h: Layout, x: int)
    requires LayoutOk(h) && x in h.pinned
    ensures x in h.chunks
  {
  }

  lemma LastAt0(h: Layout)
    requires LayoutOk(h)
    ensures |h.lasts| == |h.ends| && |h.lasts| > 0
  {
  }

  /** Two runs that meet are one run. */
  lemma JoinRuns(h: Layout, lo: int, m: int, hi: int)
    requires LayoutOk(h) && Run(h, lo, m) && Run(h, m, hi)
    ensures Run(h, lo, hi)
  {
    hide LayoutOk, Size;
    forall k | 0 <= k < |h.lasts|
      ensures hi <= h.lasts[k] || h.ends[k] <= lo
    {
      LastAt(h, k);
    }
  }

  // ---- malloc's writes ----

  /** set_inuse_and_pinuse on the free chunk p. */
  function Take(head: map<int, word>, p: int, s: nat): map<int, word>
    requires s % 8 == 0 && s < TWO_32
  {
    var head := head[p := MkHead(s, true, true)];
    head[p + s := SetPInUse(HeadAt(head, p + s))]
  }

  lemma TakeOk(h: Layout, p: int)
    requires LayoutOk(h) && p in h.chunks && !Used(h, p)
    ensures var s := Size(h, p);
            s % 8 == 0 && s < TWO_32 && p !in h.pinned
            && var g := h.(head := Take(h.head, p, s));
               LayoutOk(g) && Recut(h, g, p, p + s, p + s, true, true)
  {
    hide LayoutOk, Size, Used, PrevUsed, Foot, Take, Recut, Run;
    PinnedAt(h, p);
    OneChunkRun(h, p);
    LonelyAt(h, p);
    AlignedNext(h, p);
    AlignedAt(h, p);
    SizeBound(h, p);
    var s := Size(h, p);
    var g := h.(head := Take(h.head, p, s));
    RecutTake(h, g, p, s);
    RecutOk(h, g, p, p + s, p + s, true, true);
  }

  lemma SizeBound(h: Layout, p: int)
    ensures Size(h, p) % 8 == 0 && Size(h, p) < TWO_32
  {
    SizeFacts(Head(h, p));
  }

  lemma OneChunk(h: Layout, p: int)
    requires LayoutOk(h) && p in h.chunks
    ensures forall x :: x in h.chunks && p <= x < Next(h, p) ==> x == p
  {
    hide Size, Used, PrevUsed, Foot;
    forall x | x in h.chunks && p <= x < Next(h, p)
      ensures x == p
    {
      ApartAt(h, p, x);
    }
  }

  lemma RecutTake(h: Layout, g: Layout, p: int, s: nat)
    requires s % 8 == 0 && 0 < s < TWO_32 && s == Size(h, p) && g == h.(head := Take(h.head, p, s))
    requires LayoutOk(h) && p in h.chunks && PrevUsed(h, p)
    ensures Recut(h, g, p, p + s, p + s, true, true)
  {
    OneChunk(h, p);
    hide LayoutOk;
    HeadFields(s, true, true);
    SetPInUseFields(Head(h, p + s));
    hide ChunkSize, CInUse, PInUse, MkHead, SetPInUse;
  }

  /** set_size_and_pinuse_of_inuse_chunk on p and set_size_and_pinuse_of_free_chunk on the rest of a free chunk. */
  function TakeFront(head: map<int, word>, p: int, nb: nat, rs: nat): map<int, word>
    requires nb % 8 == 0 && rs % 8 == 0 && nb + rs < TWO_32
  {
    head[p := MkHead(nb, true, true)][p + nb := MkHead(rs, false, true)]
  }

  lemma RecutTakeFront(h: Layout, g: Layout, p: int, nb: nat, rs: nat)
    requires LayoutOk(h) && p in h.chunks && !Used(h, p) && PrevUsed(h, p) && nb % 8 == 0 && rs % 8 == 0 && 0 < nb
             && 0 < rs
    requires Size(h, p) == nb + rs < TWO_32 && !PrevUsed(h, p + nb + rs)
    requires g == h.(chunks := Cut(h.chunks, p, p + nb, p + nb + rs), head := TakeFront(h.head, p, nb, rs),
               foot := h.foot[p + nb + rs := rs])
    ensures Recut(h, g, p, p + nb, p + nb + rs, true, false)
  {
    HeadFields(nb, true, true);
    HeadFields(rs, false, true);
    hide LayoutOk, ChunkSize, CInUse, PInUse, MkHead;
  }

  /** Cutting a request off the front of a free chunk. */
  lemma TakeFrontOk(h: Layout, p: int, nb: nat)
    requires LayoutOk(h) && p in h.chunks && !Used(h, p)
    requires nb % 8 == 0 && MIN_CHUNK_SIZE <= nb && nb + MIN_CHUNK_SIZE <= Size(h, p)
    ensures var n := Next(h, p);
            var rs := Size(h, p) - nb;
            rs % 8 == 0 && nb + rs < TWO_32 && p !in h.pinned && n in h.chunks
            && var g := h.(chunks := Cut(h.chunks, p, p + nb, n), head := TakeFront(h.head, p, nb, rs),
                 foot := h.foot[n := rs]);
               LayoutOk(g) && Recut(h, g, p, p + nb, n, true, false)
  {
    hide LayoutOk, Size, Used, PrevUsed, Foot, TakeFront, Recut, Run, Cut;
    PinnedAt(h, p);
    OneChunkRun(h, p);
    LonelyAt(h, p);
    FollowedAt(h, p);
    AlignedNext(h, p);
    AlignedAt(h, p);
    SizeBound(h, p);
    var rs := Size(h, p) - nb;
    var n := p + nb + rs;
    var g := h.(chunks := Cut(h.chunks, p, p + nb, n), head := TakeFront(h.head, p, nb, rs), foot := h.foot[n := rs]);
    RecutTakeFront(h, g, p, nb, rs);
    RecutOk(h, g, p, p + nb, n, true, false);
  }

  // ---- free's writes ----

  /** set_size_and_pinuse_of_free_chunk, after clear_pinuse of what follows when asked for. */
  function SetFree(head: map<int, word>, q: int, s: nat, clear: bool): map<int, word>
    requires s % 8 == 0 && s < TWO_32
  {
    var head := if clear then head[q + s := ClearPInUse(HeadAt(head, q + s))] else head;
    head[q := MkHead(s, false, true)]
  }

  lemma RecutSetFree(h: Layout, g: Layout, q: int, s: nat, clear: bool)
    requires s % 8 == 0 && 0 < s < TWO_32 && PrevUsed(h, q) && (clear || !PrevUsed(h, q + s))
    requires g == h.(chunks := Cut(h.chunks, q, q + s, q + s), head := SetFree(h.head, q, s, clear),
               foot := h.foot[q + s := s])
    ensures Recut(h, g, q, q + s, q + s, false, false)
  {
    HeadFields(s, false, true);
    ClearPInUseFields(Head(h, q + s));
    hide ChunkSize, CInUse, PInUse, MkHead, ClearPInUse;
  }

  /** A whole run becomes one free chunk. */
  lemma SetFreeOk(h: Layout, q: int, n: int, s: nat, clear: bool)
    requires n == q + s && s % 8 == 0 && MIN_CHUNK_SIZE <= s < TWO_32
    requires LayoutOk(h) && Run(h, q, n) && PrevUsed(h, q) && n in h.chunks && Used(h, n) && (clear || !PrevUsed(h, n))
    ensures var g := h.(chunks := Cut(h.chunks, q, n, n), head := SetFree(h.head, q, s, clear), foot := h.foot[n := s]);
            LayoutOk(g) && Recut(h, g, q, n, n, false, false)
  {
    hide LayoutOk, Size, Used, PrevUsed, Foot, SetFree, Recut, Cut;
    var g := h.(chunks := Cut(h.chunks, q, n, n), head := SetFree(h.head, q, s, clear), foot := h.foot[n := s]);
    AlignedAt(h, n);
    RecutSetFree(h, g, q, s, clear);
    RecutOk(h, g, q, n, n, false, false);
  }

  // ---- realloc's writes ----

  /** set_inuse. */
  function SetInUse(head: map<int, word>, p: int, s: nat): map<int, word>
    requires s % 8 == 0 && s < TWO_32
  {
    var head := head[p := MkHead(s, true, PInUse(HeadAt(head, p)))];
    head[p + s := SetPInUse(HeadAt(head, p + s))]
  }

  lemma RecutGrow(h: Layout, g: Layout, p: int, s: nat)
    requires s % 8 == 0 && 0 < s < TWO_32
    requires g == h.(chunks := Cut(h.chunks, p, p + s, p + s), head := SetInUse(h.head, p, s))
    ensures Recut(h, g, p, p + s, p + s, true, true)
  {
    HeadFields(s, true, PrevUsed(h, p));
    SetPInUseFields(Head(h, p + s));
    hide ChunkSize, CInUse, PInUse, MkHead, SetPInUse;
  }

  /** A whole run becomes one chunk in use. */
  lemma GrowOk(h: Layout, p: int, n: int, s: nat)
    requires n == p + s && s % 8 == 0 && MIN_CHUNK_SIZE <= s < TWO_32
    requires LayoutOk(h) && Run(h, p, n)
    ensures var g := h.(chunks := Cut(h.chunks, p, n, n), head := SetInUse(h.head, p, s));
            LayoutOk(g) && Recut(h, g, p, n, n, true, true)
  {
    hide LayoutOk, Size, Used, PrevUsed, Foot, SetInUse, Recut, Cut;
    var g := h.(chunks := Cut(h.chunks, p, n, n), head := SetInUse(h.head, p, s));
    RunAligned(h, p, n);
    RecutGrow(h, g, p, s);
    RecutOk(h, g, p, n, n, true, true);
  }

  lemma RunAligned(h: Layout, p: int, n: int)
    requires LayoutOk(h) && Run(h, p, n)
    ensures p % 8 == 0 && n % 8 == 0 && p in h.chunks
  {
    hide LayoutOk;
    AlignedAt(h, p);
  }

  lemma RecutSplitUsed(h: Layout, g: Layout, p: int, nb: nat, rs: nat)
    requires nb % 8 == 0 && rs % 8 == 0 && 0 < nb && 0 < rs && nb + rs < TWO_32
    requires g == h.(chunks := Cut(h.chunks, p, p + nb, p + nb + rs),
               head := SetInUse(SetInUse(h.head, p, nb), p + nb, rs))
    ensures Recut(h, g, p, p + nb, p + nb + rs, true, true)
  {
    HeadFields(nb, true, PrevUsed(h, p));
    SetPInUseFields(Head(h, p + nb));
    HeadFields(rs, true, true);
    SetPInUseFields(Head(h, p + nb + rs));
    hide ChunkSize, CInUse, PInUse, MkHead, SetPInUse;
  }

  /** A run becomes two chunks in use. */
  lemma SplitUsedOk(h: Layout, p: int, nb: nat, rs: nat, n: int)
    requires n == p + nb + rs && nb % 8 == 0 && rs % 8 == 0 && MIN_CHUNK_SIZE <= nb && MIN_CHUNK_SIZE <= rs
             && nb + rs < TWO_32
    requires LayoutOk(h) && Run(h, p, n)
    ensures var g := h.(chunks := Cut(h.chunks, p, p + nb, n), head := SetInUse(SetInUse(h.head, p, nb), p + nb, rs));
            LayoutOk(g) && Recut(h, g, p, p + nb, n, true, true)
  {
    hide LayoutOk, Size, Used, PrevUsed, Foot, SetInUse, Recut, Cut;
    RunAligned(h, p, n);
    var g := h.(chunks := Cut(h.chunks, p, p + nb, n), head := SetInUse(SetInUse(h.head, p, nb), p + nb, rs));
    RecutSplitUsed(h, g, p, nb, rs);
    RecutOk(h, g, p, p + nb, n, true, true);
  }

  /** set_inuse on the front, set_size_and_pinuse_of_free_chunk on the rest, clear_pinuse of what follows. */
  function GrowFront(head: map<int, word>, p: int, nb: nat, rs: nat): map<int, word>
    requires nb % 8 == 0 && rs % 8 == 0 && nb + rs < TWO_32
  {
    var head := SetInUse(head, p, nb);
    var head := head[p + nb := MkHead(rs, false, true)];
    head[p + nb + rs := ClearPInUse(HeadAt(head, p + nb + rs))]
  }

  lemma RecutGrowFront(h: Layout, g: Layout, p: int, nb: nat, rs: nat)
    requires nb % 8 == 0 && rs % 8 == 0 && 0 < nb && 0 < rs && nb + rs < TWO_32
    requires g == h.(chunks := Cut(h.chunks, p, p + nb, p + nb + rs), head := GrowFront(h.head, p, nb, rs),
               foot := h.foot[p + nb + rs := rs])
    ensures Recut(h, g, p, p + nb, p + nb + rs, true, false)
  {
    HeadFields(nb, true, PrevUsed(h, p));
    HeadFields(rs, false, true);
    ClearPInUseFields(Head(h, p + nb + rs));
    hide ChunkSize, CInUse, PInUse, MkHead, SetPInUse, ClearPInUse;
  }

  /** A chunk in use grows into its free successor and leaves a free rest. */
  lemma GrowFrontOk(h: Layout, p: int, nb: nat, rs: nat, n: int)
    requires n == p + nb + rs && nb % 8 == 0 && rs % 8 == 0 && MIN_CHUNK_SIZE <= nb && MIN_CHUNK_SIZE <= rs
             && nb + rs < TWO_32
    requires LayoutOk(h) && Run(h, p, n) && n in h.chunks && Used(h, n)
    ensures var g := h.(chunks := Cut(h.chunks, p, p + nb, n), head := GrowFront(h.head, p, nb, rs),
              foot := h.foot[n := rs]);
            LayoutOk(g) && Recut(h, g, p, p + nb, n, true, false)
  {
    hide LayoutOk, Size, Used, PrevUsed, Foot, GrowFront, Recut, Cut;
    RunAligned(h, p, n);
    var g := h.(chunks := Cut(h.chunks, p, p + nb, n), head := GrowFront(h.head, p, nb, rs), foot := h.foot[n := rs]);
    RecutGrowFront(h, g, p, nb, rs);
    RecutOk(h, g, p, p + nb, n, true, false);
  }

  // ---- writes around the top chunk ----

  ghost function TopChunks(chunks: set<int>, lo: int, mid: int, end: int): set<int> {
    (set x | x in chunks && (x < lo || end <= x)) + (if lo < mid then {lo} else {})
  }

  /** Cutting a request off the bottom of top. */
  function TakeTop(head: map<int, word>, p: int, nb: nat, ts: nat): map<int, word>
    requires nb % 8 == 0 && ts % 8 == 0 && nb < TWO_32 && ts < TWO_32
  {
    head[p + nb := MkHead(ts, false, true)][p := MkHead(nb, true, true)]
  }

  lemma TakeTopCut(h: Layout, g: Layout, nb: nat, ts: nat)
    requires |h.lasts| > 0 && |h.ends| > 0 && h.lasts[0] % 8 == 0 && PrevUsed(h, h.lasts[0])
    requires nb % 8 == 0 && ts % 8 == 0 && MIN_CHUNK_SIZE <= nb < TWO_32 && ts < TWO_32 && h.lasts[0] + nb < h.ends[0]
    requires var p := h.lasts[0];
             g == h.(chunks := TopChunks(h.chunks, p, p + nb, h.ends[0]), head := TakeTop(h.head, p, nb, ts),
                 lasts := h.lasts[0 := p + nb])
    ensures TopCut(h, g, h.lasts[0], h.lasts[0] + nb)
  {
    HeadFields(nb, true, true);
    HeadFields(ts, false, true);
    hide ChunkSize, CInUse, PInUse, MkHead;
  }

  lemma TopItself(h: Layout)
    requires LayoutOk(h)
    ensures |h.lasts| == |h.ends| && |h.lasts| > 0 && TopRun(h, h.lasts[0]) && PrevUsed(h, h.lasts[0])
  {
    hide LayoutOk, Size, Used, PrevUsed, Foot;
    LastAt0(h);
    LastAt(h, 0);
    var p := h.lasts[0];
    forall x | x in h.chunks && p <= x < h.ends[0]
      ensures Next(h, x) <= p
    {
      BoundedAt(h, x, 0);
    }
    forall k | 1 <= k < |h.lasts|
      ensures h.ends[k] <= p || h.ends[0] <= h.lasts[k]
    {
      EndsApart(h, k);
    }
    forall x | x in h.pinned
      ensures x < p || h.ends[0] <= x
    {
      PinnedIn(h, x);
      AlignedAt(h, x);
      BoundedAt(h, x, 0);
    }
  }

  lemma EndsApart(h: Layout, k: nat)
    requires LayoutOk(h) && 1 <= k < |h.lasts|
    ensures |h.ends| == |h.lasts| && (h.ends[0] <= h.lasts[k] || h.ends[k] <= h.lasts[0])
  {
    hide Aligned, Followed, Apart, Tagged, Lonely, Backed, Fenced;
  }

  lemma TakeTopOk(h: Layout, nb: nat, ts: nat)
    requires LayoutOk(h) && |h.lasts| > 0 && |h.ends| > 0
    requires nb % 8 == 0 && ts % 8 == 0 && MIN_CHUNK_SIZE <= nb < TWO_32 && ts < TWO_32 && h.lasts[0] + nb < h.ends[0]
    ensures var p := h.lasts[0];
            var g := h.(chunks := TopChunks(h.chunks, p, p + nb, h.ends[0]), head := TakeTop(h.head, p, nb, ts),
                lasts := h.lasts[0 := p + nb]);
            LayoutOk(g) && TopRun(h, p) && TopCut(h, g, p, p + nb)
  {
    hide LayoutOk, Size, Used, PrevUsed, Foot, TakeTop, TopCut, TopChunks;
    TopItself(h);
    LastAt(h, 0);
    var p := h.lasts[0];
    var g := h.(chunks := TopChunks(h.chunks, p, p + nb, h.ends[0]), head := TakeTop(h.head, p, nb, ts),
        lasts := h.lasts[0 := p + nb]);
    TakeTopCut(h, g, nb, ts);
    TopCutOk(h, g, p, p + nb);
  }

  /** A run that ends at top can be given to top, or cut there. */
  lemma RunToTop(h: Layout, lo: int)
    requires LayoutOk(h) && |h.lasts| > 0 && Run(h, lo, h.lasts[0])
    ensures |h.lasts| == |h.ends| && TopRun(h, lo)
  {
    hide LayoutOk, Size, Used, PrevUsed, Foot;
    LastAt0(h);
    LastAt(h, 0);
    AlignedAt(h, lo);
    TopItself(h);
    forall x | x in h.chunks && lo <= x < h.ends[0]
      ensures Next(h, x) <= h.lasts[0]
    {
      BoundedAt(h, x, 0);
    }
    forall x | x in h.pinned
      ensures x < lo || h.ends[0] <= x
    {
      PinnedIn(h, x);
    }
    forall k | 1 <= k < |h.lasts|
      ensures h.ends[k] <= lo || h.ends[0] <= h.lasts[k]
    {
      EndsApart(h, k);
      EndsOutside(h, lo, k);
    }
  }

  lemma EndsOutside(h: Layout, lo: int, k: nat)
    requires LayoutOk(h) && |h.lasts| > 0 && Run(h, lo, h.lasts[0]) && 1 <= k < |h.lasts|
    ensures |h.ends| == |h.lasts| && (h.lasts[0] <= h.lasts[k] || h.ends[k] <= lo)
    ensures h.lasts[0] < h.ends[0] && h.lasts[k] < h.ends[k]
  {
    hide LayoutOk;
    LastAt(h, k);
    LastAt(h, 0);
  }

  lemma GiveToTop(h: Layout, q: int, ts: nat)
    requires LayoutOk(h) && |h.lasts| > 0 && Run(h, q, h.lasts[0]) && PrevUsed(h, q) && ts % 8 == 0 && ts < TWO_32
    ensures |h.lasts| == |h.ends|
    ensures var g := h.(chunks := TopChunks(h.chunks, q, q, h.ends[0]), head := h.head[q := MkHead(ts, false, true)],
              lasts := h.lasts[0 := q]);
            LayoutOk(g) && TopRun(h, q) && TopCut(h, g, q, q)
  {
    hide LayoutOk, Size, PrevUsed, Foot, TopCut, TopChunks, Run, TopRun;
    RunToTop(h, q);
    RunStart(h, q);
    LastAt(h, 0);
    var g := h.(chunks := TopChunks(h.chunks, q, q, h.ends[0]), head := h.head[q := MkHead(ts, false, true)],
        lasts := h.lasts[0 := q]);
    GiveToTopCut(h, g, q, ts);
    TopCutOk(h, g, q, q);
  }

  lemma RunStart(h: Layout, q: int)
    requires LayoutOk(h) && |h.lasts| > 0 && Run(h, q, h.lasts[0])
    ensures q % 8 == 0 && q < h.lasts[0] && q in h.chunks
  {
    hide LayoutOk;
    AlignedAt(h, q);
  }

  lemma GiveToTopCut(h: Layout, g: Layout, q: int, ts: nat)
    requires |h.lasts| > 0 && |h.ends| > 0 && PrevUsed(h, q) && ts % 8 == 0 && ts < TWO_32 && q % 8 == 0
             && q < h.ends[0]
    requires g == h.(chunks := TopChunks(h.chunks, q, q, h.ends[0]), head := h.head[q := MkHead(ts, false, true)],
               lasts := h.lasts[0 := q])
    ensures TopCut(h, g, q, q)
  {
    HeadFields(ts, false, true);
    hide ChunkSize, CInUse, PInUse, MkHead;
  }

  /** set_inuse on a chunk that grows into top, and the new top's header. */
  function GrowTop(head: map<int, word>, p: int, nb: nat, ts: nat): map<int, word>
    requires nb % 8 == 0 && ts % 8 == 0 && nb < TWO_32 && ts < TWO_32
  {
    var head := SetInUse(head, p, nb);
    head[p + nb := MkHead(ts, false, true)]
  }

  lemma GrowTopCut(h: Layout, g: Layout, p: int, nb: nat, ts: nat)
    requires |h.lasts| > 0 && |h.ends| > 0 && p % 8 == 0
    requires nb % 8 == 0 && ts % 8 == 0 && MIN_CHUNK_SIZE <= nb < TWO_32 && ts < TWO_32 && p + nb < h.ends[0]
    requires g == h.(chunks := TopChunks(h.chunks, p, p + nb, h.ends[0]), head := GrowTop(h.head, p, nb, ts),
               lasts := h.lasts[0 := p + nb])
    ensures TopCut(h, g, p, p + nb)
  {
    HeadFields(nb, true, PrevUsed(h, p));
    HeadFields(ts, false, true);
    hide ChunkSize, CInUse, PInUse, MkHead, SetPInUse;
  }

  lemma GrowTopOk(h: Layout, p: int, nb: nat, ts: nat)
    requires LayoutOk(h) && |h.lasts| > 0 && |h.ends| > 0 && Run(h, p, h.lasts[0])
    requires nb % 8 == 0 && ts % 8 == 0 && MIN_CHUNK_SIZE <= nb < TWO_32 && ts < TWO_32 && p + nb < h.ends[0]
    ensures var g := h.(chunks := TopChunks(h.chunks, p, p + nb, h.ends[0]), head := GrowTop(h.head, p, nb, ts),
              lasts := h.lasts[0 := p + nb]);
            LayoutOk(g) && TopRun(h, p) && TopCut(h, g, p, p + nb)
  {
    hide LayoutOk, Size, PrevUsed, Foot, TopCut, TopChunks, Run, TopRun, GrowTop;
    RunToTop(h, p);
    RunStart(h, p);
    var g := h.(chunks := TopChunks(h.chunks, p, p + nb, h.ends[0]), head := GrowTop(h.head, p, nb, ts),
        lasts := h.lasts[0 := p + nb]);
    GrowTopCut(h, g, p, nb, ts);
    TopCutOk(h, g, p, p + nb);
  }
}
