/** Memory obtained from the system: the first segment, a longer one, one with a new beginning, and a new one. */
module HeapGrowth {
  import opened Bytes
  import opened Words
  import opened TreeBins
  import opened Layouts
  import opened Writes
  import opened Segments
  import opened HeapState
  import opened HeapSteps
  import opened HeapFrees

  /** A block that no segment reaches into. */
  ghost predicate Fresh(segs: seq<Seg>, base: int, size: nat) {
    && base > 0 && base % 8 == 0 && size % 8 == 0 && TOP_FOOT_SIZE < size && base + size <= TWO_32
    && forall k :: 0 <= k < |segs| ==> End(segs[k]) <= base || base + size <= segs[k].base
  }

  /** Callers' chunks and their sizes are as they were. */
  ghost predicate Kept(h: Layout, g: Layout) {
    Allocated(g) == Allocated(h) && forall q :: q in Allocated(h) ==> Size(g, q) == Size(h, q)
  }

  /** Headers and footers agree at every chunk and at every end of a run. */
  ghost predicate Agreeing(h: Layout, g: Layout) {
    && (forall x :: x in h.chunks ==>
         Size(g, x) == Size(h, x) && (Used(g, x) <==> Used(h, x)) && (PrevUsed(g, x) <==> PrevUsed(h, x))
         && Foot(g, x) == Foot(h, x))
    && (forall x :: x in h.lasts ==> (PrevUsed(g, x) <==> PrevUsed(h, x)))
  }

  lemma AgreeAt(h: Layout, g: Layout, p: int)
    requires LayoutOk(h) && Agreeing(h, g) && p in h.chunks
    ensures Next(g, p) == Next(h, p) && p > 0 && p % 8 == 0 && Size(g, p) >= MIN_CHUNK_SIZE
    ensures Next(g, p) in h.chunks || Next(g, p) in h.lasts
    ensures PrevUsed(g, Next(g, p)) <==> Used(g, p)
  {
    hide LayoutOk, Size, Used, PrevUsed, Foot;
    AlignedAt(h, p);
    FollowedAt(h, p);
  }

  lemma AgreeLonelyAt(h: Layout, g: Layout, p: int)
    requires LayoutOk(h) && Agreeing(h, g) && p in h.chunks && !Used(g, p)
    ensures PrevUsed(g, p) && Next(g, p) in h.chunks && Used(g, Next(g, p)) && Foot(g, Next(g, p)) == Size(g, p)
  {
    hide LayoutOk, Size, Used, PrevUsed, Foot;
    LonelyAt(h, p);
  }

  lemma AgreeBackedAt(h: Layout, g: Layout, p: int)
    requires LayoutOk(h) && Agreeing(h, g) && p in h.chunks && !PrevUsed(g, p)
    ensures p - Foot(g, p) in h.chunks && Next(g, p - Foot(g, p)) == p && !Used(g, p - Foot(g, p))
  {
    hide LayoutOk, Size, Used, PrevUsed, Foot;
    BackedAt(h, p);
  }

  /** A layout with the same chunks and other ends is in order if the ends are. */
  lemma AgreeOk(h: Layout, g: Layout)
    requires LayoutOk(h) && Agreeing(h, g) && g.chunks == h.chunks && (forall x :: x in h.lasts ==> x in g.lasts)
    requires Bounded(g) && Fenced(g) && forall k :: 0 <= k < |g.lasts| ==> PrevUsed(g, g.lasts[k])
    ensures LayoutOk(g)
  {
    hide LayoutOk, Agreeing, Size, Used, PrevUsed, Foot, Fenced, Bounded;
    forall p | p in g.chunks
      ensures p > 0 && p % 8 == 0 && Size(g, p) >= MIN_CHUNK_SIZE && (Next(g, p) in g.chunks || Next(g, p) in g.lasts)
      ensures PrevUsed(g, Next(g, p)) <==> Used(g, p)
    {
      AgreeAt(h, g, p);
    }
    forall p, q | p in g.chunks && q in g.chunks && p < q
      ensures Next(g, p) <= q
    {
      AgreeAt(h, g, p);
      ApartAt(h, p, q);
    }
    forall p | p in g.chunks && !Used(g, p)
      ensures PrevUsed(g, p) && Next(g, p) in g.chunks && Used(g, Next(g, p)) && Foot(g, Next(g, p)) == Size(g, p)
    {
      AgreeLonelyAt(h, g, p);
    }
    forall p | p in g.chunks && !PrevUsed(g, p)
      ensures p - Foot(g, p) in g.chunks && Next(g, p - Foot(g, p)) == p && !Used(g, p - Foot(g, p))
    {
      AgreeBackedAt(h, g, p);
    }
    MakeOk(g);
  }

  /** What the bins and callers own depends only on the chunks. */
  lemma AgreeIndexed(h: Layout, g: Layout, b: map<int, nat>, dv: int, dvsize: nat)
    requires Agreeing(h, g) && g.chunks == h.chunks && Indexed(h, b, dv) && VictimOk(h, dv, dvsize)
    ensures Indexed(g, b, dv) && VictimOk(g, dv, dvsize)
    ensures g.pinned == h.pinned ==> Kept(h, g)
  {
    hide Size, Used, PrevUsed, Foot;
  }

  /** Chunks and ends of runs keep away from fresh memory. */
  lemma ChunkAway(segs: seq<Seg>, h: Layout, base: int, size: nat, p: int)
    requires LayoutOk(h) && SegsOk(segs, h) && Fresh(segs, base, size) && p in h.chunks
    ensures p < Next(h, p) < base || base + size <= p
  {
    hide LayoutOk, Size, PrevUsed;
    var k := HomeOf(segs, h, p);
    LastAt(h, k);
    AlignedAt(h, p);
  }

  lemma LastAway(segs: seq<Seg>, h: Layout, base: int, size: nat, k: nat)
    requires LayoutOk(h) && SegsOk(segs, h) && Fresh(segs, base, size) && k < |h.lasts|
    ensures |h.ends| == |h.lasts| == |segs| && h.lasts[k] < h.ends[k]
            && (h.ends[k] <= base || base + size <= segs[k].base <= h.lasts[k])
  {
    hide LayoutOk, Size, PrevUsed;
    LastAt(h, k);
  }

  // ---- the first segment: init_top ----

  function InitTop(head: map<int, word>, top: int, ts: nat): map<int, word>
    requires ts % 8 == 0 && ts < TWO_32
  {
    head[top := MkHead(ts, false, true)][top + ts := TOP_FOOT_SIZE]
  }

  lemma InitTopHead(head: map<int, word>, top: int, ts: nat)
    requires ts % 8 == 0 && 0 < ts < TWO_32
    ensures !CInUse(HeadAt(InitTop(head, top, ts), top)) && PInUse(HeadAt(InitTop(head, top, ts), top))
  {
    HeadFields(ts, false, true);
    hide CInUse, PInUse, MkHead, ChunkSize;
  }

  lemma FirstSegment(h: Layout, base: int, size: nat, ts: nat)
    requires h.chunks == {} && h.pinned == {} && Fresh([], base, size) && ts == size - TOP_FOOT_SIZE
    ensures ts % 8 == 0 && ts < TWO_32
    ensures var g := h.(head := InitTop(h.head, base, ts), lasts := [base], ends := [base + size]);
            HeapOk(g, map[], 0, 0, base, ts, [Seg(base, size)]) && Kept(h, g)
  {
    Multiples(TOP_FOOT_SIZE, size);
    Multiples(base, size);
    InitTopHead(h.head, base, ts);
    hide CInUse, PInUse, InitTop, ChunkSize;
  }

  // ---- the top segment grows ----

  ghost function Extended(h: Layout, top: int, ts: nat, more: nat): Layout
    requires ts % 8 == 0 && ts < TWO_32 && |h.ends| > 0
  {
    h.(head := InitTop(h.head, top, ts), ends := h.ends[0 := h.ends[0] + more])
  }

  lemma ExtendedAgrees(h: Layout, top: int, topsize: nat, segs: seq<Seg>, ts: nat, more: nat)
    requires LayoutOk(h) && TopOk(h, top, topsize) && SegsOk(segs, h) && Fresh(segs, h.ends[0], more)
             && ts == topsize + more && ts % 8 == 0 && ts < TWO_32
    ensures var g := Extended(h, top, ts, more);
            Agreeing(h, g) && !Used(g, top) && PrevUsed(g, top)
    ensures forall k :: 0 < k < |h.lasts| ==> (Used(Extended(h, top, ts, more), h.lasts[k]) <==> Used(h, h.lasts[k]))
  {
    hide LayoutOk, SegsOk, Fresh, CInUse, PInUse, ChunkSize, MkHead;
    InitTopHead(h.head, top, ts);
    LastAt(h, 0);
    forall p | p in h.chunks
      ensures p != top && p != top + ts
    {
      ChunkAway(segs, h, h.ends[0], more, p);
      BoundedAt(h, p, 0);
    }
    forall k | 0 < k < |h.lasts|
      ensures h.lasts[k] != top && h.lasts[k] != top + ts
    {
      LastAway(segs, h, h.ends[0], more, k);
      LastAway(segs, h, h.ends[0], more, 0);
      EndsApart(h, k);
    }
  }

  lemma ExtendedBounded(h: Layout, top: int, topsize: nat, segs: seq<Seg>, ts: nat, more: nat)
    requires LayoutOk(h) && TopOk(h, top, topsize) && SegsOk(segs, h) && Fresh(segs, h.ends[0], more)
             && ts == topsize + more && ts % 8 == 0 && ts < TWO_32
    ensures Bounded(Extended(h, top, ts, more))
  {
    hide LayoutOk, Fresh, SegsOk, Used, PrevUsed;
    var g := Extended(h, top, ts, more);
    ExtendedAgrees(h, top, topsize, segs, ts, more);
    forall k | 0 <= k < |g.lasts|
      ensures g.lasts[k] > 0 && g.lasts[k] % 8 == 0 && g.lasts[k] < g.ends[k] && (Used(g, g.lasts[k]) <==> k > 0)
    {
      LastAt(h, k);
    }
    forall j, k | 0 <= j < |g.lasts| && 0 <= k < |g.lasts| && j != k
      ensures g.ends[j] <= g.lasts[k] || g.ends[k] <= g.lasts[j]
    {
      LastAway(segs, h, h.ends[0], more, j);
      LastAway(segs, h, h.ends[0], more, k);
      LastsApart(h, j, k);
    }
    forall p, k | p in g.chunks && 0 <= k < |g.lasts|
      ensures Next(g, p) <= g.lasts[k] || g.ends[k] <= p
    {
      ChunkAway(segs, h, h.ends[0], more, p);
      BoundedAt(h, p, k);
    }
  }

  lemma FencedAgree(h: Layout, g: Layout)
    requires LayoutOk(h) && Agreeing(h, g) && g.chunks == h.chunks && g.lasts == h.lasts && g.pinned == h.pinned
    ensures Fenced(g) && forall k :: 0 <= k < |g.lasts| ==> PrevUsed(g, g.lasts[k])
  {
    hide LayoutOk, Size, Used, PrevUsed, Foot;
    forall p | p in g.pinned
      ensures p in g.chunks && Used(g, p)
    {
      PinnedIn(h, p);
      PinnedAt(h, p);
    }
    forall p, k | p in g.chunks && 1 <= k < |g.lasts| && Next(g, p) == g.lasts[k]
      ensures p in g.pinned
    {
      AgreeAt(h, g, p);
      PinnedAt(h, p);
      LastsApart(h, 0, k);
      LastAt(h, 0);
      LastAt(h, k);
    }
    forall k | 0 <= k < |g.lasts|
      ensures PrevUsed(g, g.lasts[k])
    {
      LastAt(h, k);
    }
  }

  lemma ExtendedSegs(h: Layout, top: int, topsize: nat, segs: seq<Seg>, ts: nat, more: nat)
    requires LayoutOk(h) && TopOk(h, top, topsize) && SegsOk(segs, h) && Fresh(segs, h.ends[0], more)
             && ts == topsize + more && ts % 8 == 0 && ts < TWO_32
    ensures |segs| > 0 && SegsOk(segs[0 := Seg(segs[0].base, segs[0].size + more)], Extended(h, top, ts, more))
  {
    hide LayoutOk, SegsOk, Used, PrevUsed, Size, Foot, Fresh;
    SegCount(segs, h);
    SegFacts(segs, h, 0);
    FreshFacts(segs, h.ends[0], more);
    Multiples(h.ends[0], more);
    ExtendedAgrees(h, top, topsize, segs, ts, more);
    var g := Extended(h, top, ts, more);
    var segs' := segs[0 := Seg(segs[0].base, segs[0].size + more)];
    forall k | 0 <= k < |segs'|
      ensures SegAt(segs'[k], g, k)
    {
      SegFacts(segs, h, k);
    }
    forall j, k | 0 <= j < |segs'| && 0 <= k < |segs'| && j != k
      ensures g.ends[j] <= segs'[k].base || g.ends[k] <= segs'[j].base
    {
      SegsApart(segs, h, j, k);
      LastAway(segs, h, h.ends[0], more, j);
      LastAway(segs, h, h.ends[0], more, k);
    }
    forall p | p in g.chunks
      ensures InSeg(segs', g.lasts, p, Next(g, p))
    {
      var k := HomeOf(segs, h, p);
      assert segs'[k].base <= p && Next(g, p) <= g.lasts[k];
    }
    MakeSegs(segs', g);
  }

  lemma ExtendedTop(h: Layout, top: int, topsize: nat, segs: seq<Seg>, ts: nat, more: nat)
    requires TopOk(h, top, topsize) && Fresh(segs, h.ends[0], more) && ts == topsize + more && ts % 8 == 0
             && ts < TWO_32
    ensures TopOk(Extended(h, top, ts, more), top, ts)
  {
  }

  /** init_top over the longer top. */
  lemma ExtendStep(h: Layout, b: map<int, nat>, dv: int, dvsize: nat, top: int, topsize: nat, segs: seq<Seg>, ts: nat,
          more: nat)
    requires HeapOk(h, b, dv, dvsize, top, topsize, segs) && Fresh(segs, h.ends[0], more) && ts == topsize + more
    ensures |segs| > 0 && |h.ends| > 0 && ts % 8 == 0 && ts < TWO_32
    ensures var g := Extended(h, top, ts, more);
            HeapOk(g, b, dv, dvsize, top, ts, segs[0 := Seg(segs[0].base, segs[0].size + more)]) && Kept(h, g)
  {
    hide LayoutOk, Indexed, VictimOk, TopOk, SegsOk, Size, Used, PrevUsed, Foot, Extended, Agreeing, Kept;
    ExtendFits(h, top, topsize, segs, ts, more);
    var g := Extended(h, top, ts, more);
    ExtendedAgrees(h, top, topsize, segs, ts, more);
    ExtendedBounded(h, top, topsize, segs, ts, more);
    ExtendedSame(h, top, ts, more);
    FencedAgree(h, g);
    AgreeOk(h, g);
    AgreeIndexed(h, g, b, dv, dvsize);
    ExtendedSegs(h, top, topsize, segs, ts, more);
    ExtendedTop(h, top, topsize, segs, ts, more);
  }

  lemma ExtendFits(h: Layout, top: int, topsize: nat, segs: seq<Seg>, ts: nat, more: nat)
    requires TopOk(h, top, topsize) && SegsOk(segs, h) && Fresh(segs, h.ends[0], more) && ts == topsize + more
    ensures |segs| > 0 && |h.ends| > 0 && ts % 8 == 0 && ts < TWO_32
  {
    hide SegsOk, PrevUsed;
    SegCount(segs, h);
    SegFacts(segs, h, 0);
    Multiples(topsize, more);
  }

  lemma ExtendedSame(h: Layout, top: int, ts: nat, more: nat)
    requires ts % 8 == 0 && ts < TWO_32 && |h.ends| > 0
    ensures var g := Extended(h, top, ts, more); g.chunks == h.chunks && g.lasts == h.lasts && g.pinned == h.pinned
  {
  }

  // ---- a segment gets a new beginning ----

  /** All of the new memory as one chunk in use. */
  ghost function Fronted(h: Layout, base: int, size: nat): Layout
    requires size % 8 == 0 && size < TWO_32
  {
    h.(chunks := h.chunks + {base}, head := h.head[base := MkHead(size, true, true)])
  }

  ghost predicate FrontSpot(h: Layout, segs: seq<Seg>, base: int, size: nat, k: nat) {
    LayoutOk(h) && SegsOk(segs, h) && Fresh(segs, base, size) && k < |segs| && segs[k].base == base + size
        && size < TWO_32
  }

  lemma FrontedFields(h: Layout, base: int, size: nat)
    requires size % 8 == 0 && size < TWO_32
    ensures var g := Fronted(h, base, size);
            && Size(g, base) == size && Used(g, base) && PrevUsed(g, base)
            && forall x :: x != base ==>
                 && Size(g, x) == Size(h, x) && (Used(g, x) <==> Used(h, x))
                 && (PrevUsed(g, x) <==> PrevUsed(h, x)) && Foot(g, x) == Foot(h, x)
  {
    HeadFields(size, true, true);
    hide CInUse, PInUse, ChunkSize, MkHead;
  }

  lemma FrontedAway(h: Layout, segs: seq<Seg>, base: int, size: nat, k: nat, p: int)
    requires FrontSpot(h, segs, base, size, k) && p in h.chunks
    ensures p != base && Next(h, p) != base && (Next(h, p) < base || base + size <= p) && p < Next(h, p)
  {
    hide LayoutOk, SegsOk, Fresh, Size;
    ChunkAway(segs, h, base, size, p);
    AlignedAt(h, p);
    FreshFacts(segs, base, size);
  }

  lemma FreshFacts(segs: seq<Seg>, base: int, size: nat)
    requires Fresh(segs, base, size)
    ensures base > 0 && base % 8 == 0 && size % 8 == 0 && TOP_FOOT_SIZE < size && base + size <= TWO_32
  {
  }

  lemma FrontedLasts(h: Layout, segs: seq<Seg>, base: int, size: nat, k: nat, j: nat)
    requires FrontSpot(h, segs, base, size, k) && j < |h.lasts|
    ensures |h.ends| == |h.lasts| && h.lasts[j] != base && (h.ends[j] <= base || base + size <= h.lasts[j])
  {
    hide LayoutOk, SegsOk, Fresh;
    LastAway(segs, h, base, size, j);
    FreshFacts(segs, base, size);
  }

  /** What follows the new chunk. */
  lemma FrontedNext(h: Layout, segs: seq<Seg>, base: int, size: nat, k: nat)
    requires FrontSpot(h, segs, base, size, k)
    ensures var n := base + size;
            && PrevUsed(h, n) && (n in h.chunks || (|h.lasts| > 0 && n == h.lasts[0])) && base > 0 && base % 8 == 0
            && size >= MIN_CHUNK_SIZE && size % 8 == 0
            && n != base
  {
    hide LayoutOk, SegsOk, Fresh, PrevUsed;
    SegFacts(segs, h, k);
    FreshFacts(segs, base, size);
  }

  lemma FrontedAt(h: Layout, segs: seq<Seg>, base: int, size: nat, k: nat, p: int)
    requires size % 8 == 0 && size < TWO_32 && FrontSpot(h, segs, base, size, k) && p in Fronted(h, base, size).chunks
    ensures var g := Fronted(h, base, size);
            && p > 0 && p % 8 == 0 && Size(g, p) >= MIN_CHUNK_SIZE && (Next(g, p) in g.chunks || Next(g, p) in g.lasts)
            && (PrevUsed(g, Next(g, p)) <==> Used(g, p))
  {
    hide LayoutOk, SegsOk, FrontSpot, Size, Used, PrevUsed, Foot;
    FrontedFields(h, base, size);
    FrontedNext(h, segs, base, size, k);
    if p != base {
      AlignedAt(h, p) by { SpotOk(h, segs, base, size, k); }
      FollowedAt(h, p) by { SpotOk(h, segs, base, size, k); }
      FrontedAway(h, segs, base, size, k, p);
    }
  }

  lemma FrontedSame(h: Layout, base: int, size: nat)
    requires size % 8 == 0 && size < TWO_32
    ensures var g := Fronted(h, base, size);
              g.lasts == h.lasts && g.ends == h.ends && g.pinned == h.pinned && g.chunks == h.chunks + {base}
  {
  }

  lemma SpotOk(h: Layout, segs: seq<Seg>, base: int, size: nat, k: nat)
    requires FrontSpot(h, segs, base, size, k)
    ensures LayoutOk(h) && SegsOk(segs, h)
  {
    hide LayoutOk, SegsOk;
  }

  lemma FrontedField(h: Layout, base: int, size: nat, x: int)
    requires size % 8 == 0 && size < TWO_32
    ensures var g := Fronted(h, base, size);
            && Foot(g, x) == Foot(h, x)
            && (x != base ==>
                  && Size(g, x) == Size(h, x) && Next(g, x) == Next(h, x)
                  && (Used(g, x) <==> Used(h, x)) && (PrevUsed(g, x) <==> PrevUsed(h, x)))
            && (x == base ==> Used(g, x) && PrevUsed(g, x))
  {
    FrontedFields(h, base, size);
  }

  lemma FrontedLonely(h: Layout, segs: seq<Seg>, base: int, size: nat, k: nat, p: int)
    requires size % 8 == 0 && size < TWO_32 && FrontSpot(h, segs, base, size, k) && p in Fronted(h, base, size).chunks
    requires !Used(Fronted(h, base, size), p)
    ensures var g := Fronted(h, base, size);
            PrevUsed(g, p) && Next(g, p) in g.chunks && Used(g, Next(g, p)) && Foot(g, Next(g, p)) == Size(g, p)
  {
    hide LayoutOk, SegsOk, FrontSpot, Size, Next, Used, PrevUsed, Foot, Fronted;
    FrontedSame(h, base, size);
    FrontedField(h, base, size, p);
    SpotOk(h, segs, base, size, k);
    FrontedAway(h, segs, base, size, k, p);
    LonelyAt(h, p);
    FrontedField(h, base, size, Next(h, p));
  }

  lemma FrontedBacked(h: Layout, segs: seq<Seg>, base: int, size: nat, k: nat, p: int)
    requires size % 8 == 0 && size < TWO_32 && FrontSpot(h, segs, base, size, k) && p in h.chunks && !PrevUsed(h, p)
    ensures var g := Fronted(h, base, size);
            var q := p - Foot(h, p);
            q in h.chunks && Next(g, q) == p && !Used(g, q)
  {
    hide LayoutOk, SegsOk, FrontSpot, Size, Next, Used, PrevUsed, Foot, Fronted;
    SpotOk(h, segs, base, size, k);
    BackedAt(h, p);
    var q := p - Foot(h, p);
    FrontedAway(h, segs, base, size, k, q);
    FrontedField(h, base, size, q);
  }

  lemma FrontedApart(h: Layout, segs: seq<Seg>, base: int, size: nat, k: nat, p: int, q: int)
    requires size % 8 == 0 && size < TWO_32 && FrontSpot(h, segs, base, size, k)
    requires p in Fronted(h, base, size).chunks && q in Fronted(h, base, size).chunks && p < q
    ensures Next(Fronted(h, base, size), p) <= q
  {
    hide LayoutOk, SegsOk, FrontSpot, Size, Used, PrevUsed, Foot;
    FrontedFields(h, base, size);
    SpotOk(h, segs, base, size, k);
    if p != base { FrontedAway(h, segs, base, size, k, p); }
    if q != base { FrontedAway(h, segs, base, size, k, q); }
    if p != base && q != base { ApartAt(h, p, q); }
  }

  lemma FrontedBounded(h: Layout, segs: seq<Seg>, base: int, size: nat, k: nat)
    requires size % 8 == 0 && size < TWO_32 && FrontSpot(h, segs, base, size, k)
    ensures Bounded(Fronted(h, base, size))
  {
    hide LayoutOk, SegsOk, FrontSpot, Size, Used, PrevUsed, Foot;
    FrontedFields(h, base, size);
    SpotOk(h, segs, base, size, k);
    var g := Fronted(h, base, size);
    LastAt0(h);
    forall j | 0 <= j < |g.lasts|
      ensures g.lasts[j] > 0 && g.lasts[j] % 8 == 0 && g.lasts[j] < g.ends[j] && (Used(g, g.lasts[j]) <==> j > 0)
    {
      LastAt(h, j);
      FrontedLasts(h, segs, base, size, k, j);
    }
    forall i, j | 0 <= i < |g.lasts| && 0 <= j < |g.lasts| && i != j
      ensures g.ends[i] <= g.lasts[j] || g.ends[j] <= g.lasts[i]
    {
      LastsApart(h, i, j);
    }
    forall p, j | p in g.chunks && 0 <= j < |g.lasts|
      ensures Next(g, p) <= g.lasts[j] || g.ends[j] <= p
    {
      FrontedLasts(h, segs, base, size, k, j);
      if p != base { BoundedAt(h, p, j); }
    }
  }

  lemma FrontedFenced(h: Layout, segs: seq<Seg>, base: int, size: nat, k: nat)
    requires size % 8 == 0 && size < TWO_32 && FrontSpot(h, segs, base, size, k)
    ensures Fenced(Fronted(h, base, size))
            && forall j :: 0 <= j < |h.lasts| ==> PrevUsed(Fronted(h, base, size), h.lasts[j])
  {
    hide LayoutOk, SegsOk, FrontSpot, Size, Used, PrevUsed, Foot;
    FrontedFields(h, base, size);
    SpotOk(h, segs, base, size, k);
    var g := Fronted(h, base, size);
    forall j | 0 <= j < |g.lasts|
      ensures PrevUsed(g, g.lasts[j])
    {
      LastAt(h, j);
      FrontedLasts(h, segs, base, size, k, j);
    }
    forall p, j | p in g.chunks && 1 <= j < |g.lasts| && Next(g, p) == g.lasts[j]
      ensures p in g.pinned
    {
      if p != base {
        FrontedFence(h, p, j);
      } else {
        FrontedFirst(h, segs, base, size, k, j);
      }
    }
    forall p | p in g.pinned
      ensures p in g.chunks && Used(g, p)
    {
      PinnedIn(h, p);
      PinnedAt(h, p);
      FrontedAway(h, segs, base, size, k, p);
    }
  }

  lemma FrontedFence(h: Layout, p: int, j: nat)
    requires LayoutOk(h) && p in h.chunks && j < |h.lasts|
    ensures 1 <= j && Next(h, p) == h.lasts[j] ==> p in h.pinned
  {
    hide LayoutOk, Size;
    if 1 <= j && Next(h, p) == h.lasts[j] {
      PinnedAt(h, p);
      LastsApart(h, 0, j);
      LastAt(h, 0);
      LastAt(h, j);
    }
  }

  lemma FrontedFirst(h: Layout, segs: seq<Seg>, base: int, size: nat, k: nat, j: nat)
    requires FrontSpot(h, segs, base, size, k) && j < |h.lasts|
    ensures 1 <= j ==> base + size != h.lasts[j]
  {
    hide LayoutOk, SegsOk, Fresh, PrevUsed;
    SegFacts(segs, h, k);
    if 1 <= j {
      LastAt(h, j);
      LastAt(h, 0);
      LastsApart(h, 0, j);
    }
  }

  lemma FrontedOk(h: Layout, segs: seq<Seg>, base: int, size: nat, k: nat)
    requires size % 8 == 0 && size < TWO_32 && FrontSpot(h, segs, base, size, k)
    ensures LayoutOk(Fronted(h, base, size))
  {
    hide LayoutOk, SegsOk, FrontSpot, Size, Used, PrevUsed, Foot, Fronted, Bounded, Fenced;
    var g := Fronted(h, base, size);
    FrontedSame(h, base, size);
    forall p | p in g.chunks
      ensures p > 0 && p % 8 == 0 && Size(g, p) >= MIN_CHUNK_SIZE && (Next(g, p) in g.chunks || Next(g, p) in g.lasts)
      ensures PrevUsed(g, Next(g, p)) <==> Used(g, p)
    {
      FrontedAt(h, segs, base, size, k, p);
    }
    forall p, q | p in g.chunks && q in g.chunks && p < q
      ensures Next(g, p) <= q
    {
      FrontedApart(h, segs, base, size, k, p, q);
    }
    forall p | p in g.chunks && !Used(g, p)
      ensures PrevUsed(g, p) && Next(g, p) in g.chunks && Used(g, Next(g, p)) && Foot(g, Next(g, p)) == Size(g, p)
    {
      FrontedLonely(h, segs, base, size, k, p);
    }
    forall p | p in g.chunks && !PrevUsed(g, p)
      ensures p - Foot(g, p) in g.chunks && Next(g, p - Foot(g, p)) == p && !Used(g, p - Foot(g, p))
    {
      FrontedField(h, base, size, p);
      FrontedBacked(h, segs, base, size, k, p);
    }
    FrontedBounded(h, segs, base, size, k);
    FrontedFenced(h, segs, base, size, k);
    MakeOk(g);
  }

  lemma FrontedSegs(h: Layout, segs: seq<Seg>, base: int, size: nat, k: nat)
    requires size % 8 == 0 && size < TWO_32 && FrontSpot(h, segs, base, size, k)
    ensures SegsOk(segs[k := Seg(base, segs[k].size + size)], Fronted(h, base, size))
  {
    hide LayoutOk, SegsOk, Used, PrevUsed, Size, Foot, Fresh, FrontSpot;
    SpotOk(h, segs, base, size, k);
    SegCount(segs, h);
    FrontedNext(h, segs, base, size, k);
    FrontedFields(h, base, size);
    var g := Fronted(h, base, size);
    SpotBase(h, segs, base, size, k);
    var segs' := segs[k := Seg(base, segs[k].size + size)];
    forall j | 0 <= j < |segs'|
      ensures SegAt(segs'[j], g, j)
    {
      SegFacts(segs, h, j);
      BaseNot(h, segs, base, size, k, j);
    }
    forall i, j | 0 <= i < |segs'| && 0 <= j < |segs'| && i != j
      ensures g.ends[i] <= segs'[j].base || g.ends[j] <= segs'[i].base
    {
      SegsApart(segs, h, i, j);
      BaseNot(h, segs, base, size, k, i);
      BaseNot(h, segs, base, size, k, j);
    }
    forall p | p in g.chunks
      ensures InSeg(segs', g.lasts, p, Next(g, p))
    {
      if p == base {
        SegFacts(segs, h, k);
        assert segs'[k].base <= p && Next(g, p) <= g.lasts[k];
      } else {
        var j := HomeOf(segs, h, p);
        assert segs'[j].base <= p && Next(g, p) <= g.lasts[j];
      }
    }
    MakeSegs(segs', g);
  }

  lemma SpotBase(h: Layout, segs: seq<Seg>, base: int, size: nat, k: nat)
    requires FrontSpot(h, segs, base, size, k)
    ensures k < |segs| && segs[k].base == base + size
  {
    hide LayoutOk, SegsOk, Fresh;
  }

  lemma BaseNot(h: Layout, segs: seq<Seg>, base: int, size: nat, k: nat, j: nat)
    requires FrontSpot(h, segs, base, size, k) && j < |segs|
    ensures segs[j].base != base && |segs| == |h.ends| && segs[j].base < h.ends[j]
            && (h.ends[j] <= base || base + size <= segs[j].base)
  {
    hide LayoutOk, PrevUsed, Size;
    SegFacts(segs, h, j);
    LastAt(h, j);
  }

  /** The new chunk is one more caller's chunk for the time being. */
  lemma FrontedStep(h: Layout, b: map<int, nat>, dv: int, dvsize: nat, top: int, topsize: nat, segs: seq<Seg>,
          base: int, size: nat, k: nat)
    requires HeapOk(h, b, dv, dvsize, top, topsize, segs) && size % 8 == 0 && size < TWO_32
             && FrontSpot(h, segs, base, size, k)
    ensures var g := Fronted(h, base, size);
            && HeapOk(g, b, dv, dvsize, top, topsize, segs[k := Seg(base, segs[k].size + size)])
            && base !in Allocated(h) && Allocated(g) == Allocated(h) + {base} && Size(g, base) == size
            && forall q :: q in Allocated(h) ==> Size(g, q) == Size(h, q)
  {
    hide LayoutOk, SegsOk, Size, Used, PrevUsed, Foot, FrontSpot;
    FrontedOk(h, segs, base, size, k);
    FrontedSegs(h, segs, base, size, k);
    FrontedFields(h, base, size);
    forall p | p in h.chunks
      ensures p != base
    {
      FrontedAway(h, segs, base, size, k, p);
    }
    forall p | p in h.pinned
      ensures p != base
    {
      PinnedIn(h, p);
    }
    FrontedTop(h, segs, base, size, k, top, topsize);
  }

  lemma FrontedTop(h: Layout, segs: seq<Seg>, base: int, size: nat, k: nat, top: int, topsize: nat)
    requires size % 8 == 0 && size < TWO_32 && FrontSpot(h, segs, base, size, k) && TopOk(h, top, topsize)
    ensures TopOk(Fronted(h, base, size), top, topsize)
  {
    hide FrontSpot;
  }

  // ---- a new segment: the old one is closed by a record chunk and fenceposts ----

  /** The unused end of the old segment becomes fenceposts, and top moves to the new memory. */
  ghost predicate Closed(h: Layout, g: Layout, sp: int, base: int, size: nat)
    requires |h.lasts| > 0 && |h.ends| > 0
  {
    && g.chunks == h.chunks && g.lasts == [base] + h.lasts && g.ends == [base + size] + h.ends
    && g.pinned == h.pinned + {sp} && g.foot == h.foot
    && (forall x :: (x < h.lasts[0] || h.ends[0] <= x) && (x < base || base + size <= x) ==>
         HeadAt(g.head, x) == HeadAt(h.head, x))
    && CInUse(HeadAt(g.head, h.lasts[0])) && PInUse(HeadAt(g.head, h.lasts[0]))
    && !CInUse(HeadAt(g.head, base)) && PInUse(HeadAt(g.head, base))
  }

  ghost predicate CloseSpot(h: Layout, segs: seq<Seg>, sp: int, base: int, size: nat) {
    && LayoutOk(h) && SegsOk(segs, h) && Fresh(segs, base, size) && |h.lasts| > 0 && |h.ends| > 0
    && sp in Allocated(h) && Next(h, sp) == h.lasts[0]
  }

  lemma CloseParts(h: Layout, segs: seq<Seg>, sp: int, base: int, size: nat)
    requires CloseSpot(h, segs, sp, base, size)
    ensures LayoutOk(h) && SegsOk(segs, h) && Fresh(segs, base, size) && |h.lasts| > 0 && |h.ends| > 0
            && sp in Allocated(h) && Next(h, sp) == h.lasts[0]
  {
    hide LayoutOk, SegsOk, Fresh, Allocated, Next;
  }

  lemma ClosedAt(h: Layout, g: Layout, segs: seq<Seg>, sp: int, base: int, size: nat, p: int)
    requires CloseSpot(h, segs, sp, base, size) && Closed(h, g, sp, base, size) && p in h.chunks
    ensures Size(g, p) == Size(h, p) && Next(g, p) == Next(h, p) && (Used(g, p) <==> Used(h, p))
            && (PrevUsed(g, p) <==> PrevUsed(h, p)) && Foot(g, p) == Foot(h, p)
    ensures Next(h, p) <= base || base + size <= p
  {
    hide LayoutOk, SegsOk, Fresh, ChunkSize, CInUse, PInUse;
    ChunkAway(segs, h, base, size, p);
    BoundedAt(h, p, 0);
    AlignedAt(h, p);
    FreshFacts(segs, base, size);
  }

  lemma ClosedLast(h: Layout, g: Layout, segs: seq<Seg>, sp: int, base: int, size: nat, k: nat)
    requires CloseSpot(h, segs, sp, base, size) && Closed(h, g, sp, base, size) && k < |h.lasts|
    ensures |h.ends| == |h.lasts| && PrevUsed(g, h.lasts[k]) && PrevUsed(h, h.lasts[k]) && Used(g, h.lasts[k])
    ensures h.lasts[k] > 0 && h.lasts[k] % 8 == 0 && h.lasts[k] < h.ends[k]
            && (h.ends[k] <= base || base + size <= h.lasts[k])
  {
    hide LayoutOk, SegsOk, Fresh, ChunkSize, CInUse, PInUse, Size;
    LastAt(h, k);
    LastAway(segs, h, base, size, k);
    FreshFacts(segs, base, size);
    if k > 0 { LastsApart(h, 0, k); LastAt(h, 0); }
  }

  lemma ClosedAgrees(h: Layout, g: Layout, segs: seq<Seg>, sp: int, base: int, size: nat)
    requires CloseSpot(h, segs, sp, base, size) && Closed(h, g, sp, base, size)
    ensures Agreeing(h, g) && (forall x :: x in h.lasts ==> x in g.lasts)
            && forall k :: 0 <= k < |g.lasts| ==> PrevUsed(g, g.lasts[k])
  {
    hide CloseSpot, LayoutOk, SegsOk, Fresh, Size, Used, PrevUsed, Foot;
    CloseParts(h, segs, sp, base, size);
    forall x | x in h.chunks
      ensures Size(g, x) == Size(h, x) && (Used(g, x) <==> Used(h, x)) && (PrevUsed(g, x) <==> PrevUsed(h, x))
              && Foot(g, x) == Foot(h, x)
    {
      ClosedAt(h, g, segs, sp, base, size, x);
    }
    forall k | 0 <= k < |h.lasts|
      ensures PrevUsed(g, h.lasts[k]) && PrevUsed(h, h.lasts[k])
    {
      ClosedLast(h, g, segs, sp, base, size, k);
    }
    ClosedTop(h, g, sp, base, size);
  }

  lemma ClosedTop(h: Layout, g: Layout, sp: int, base: int, size: nat)
    requires |h.lasts| > 0 && |h.ends| > 0 && Closed(h, g, sp, base, size)
    ensures PrevUsed(g, base) && !Used(g, base)
  {
  }

  lemma ClosedBounded(h: Layout, g: Layout, segs: seq<Seg>, sp: int, base: int, size: nat)
    requires CloseSpot(h, segs, sp, base, size) && Closed(h, g, sp, base, size)
    ensures Bounded(g)
  {
    hide LayoutOk, SegsOk, Fresh, CloseSpot, Size, Used, PrevUsed, Foot;
    CloseParts(h, segs, sp, base, size);
    ClosedTop(h, g, sp, base, size);
    FreshFacts(segs, base, size);
    LastAt0(h);
    forall k | 0 <= k < |g.lasts|
      ensures g.lasts[k] > 0 && g.lasts[k] % 8 == 0 && g.lasts[k] < g.ends[k] && (Used(g, g.lasts[k]) <==> k > 0)
    {
      if k > 0 { ClosedLast(h, g, segs, sp, base, size, k - 1); }
    }
    forall j, k | 0 <= j < |g.lasts| && 0 <= k < |g.lasts| && j != k
      ensures g.ends[j] <= g.lasts[k] || g.ends[k] <= g.lasts[j]
    {
      if j > 0 { ClosedLast(h, g, segs, sp, base, size, j - 1); }
      if k > 0 { ClosedLast(h, g, segs, sp, base, size, k - 1); }
      if j > 0 && k > 0 { LastsApart(h, j - 1, k - 1); }
    }
    forall p, k | p in g.chunks && 0 <= k < |g.lasts|
      ensures Next(g, p) <= g.lasts[k] || g.ends[k] <= p
    {
      ClosedAt(h, g, segs, sp, base, size, p);
      if k > 0 { BoundedAt(h, p, k - 1); }
    }
  }

  lemma ClosedFenced(h: Layout, g: Layout, segs: seq<Seg>, sp: int, base: int, size: nat)
    requires CloseSpot(h, segs, sp, base, size) && Closed(h, g, sp, base, size)
    ensures Fenced(g)
  {
    hide LayoutOk, SegsOk, Fresh, CloseSpot, Size, Used, PrevUsed, Foot;
    CloseParts(h, segs, sp, base, size);
    forall p | p in g.pinned
      ensures p in g.chunks && Used(g, p)
    {
      if p != sp { PinnedIn(h, p); PinnedAt(h, p); }
      ClosedAt(h, g, segs, sp, base, size, p);
    }
    forall p, k | p in g.chunks && 1 <= k < |g.lasts| && Next(g, p) == g.lasts[k]
      ensures p in g.pinned
    {
      ClosedAt(h, g, segs, sp, base, size, p);
      FrontedFence(h, p, k - 1);
      if k == 1 { OneBefore(h, p, sp); }
    }
  }

  lemma OneBefore(h: Layout, p: int, q: int)
    requires LayoutOk(h) && p in h.chunks && q in h.chunks && Next(h, p) == Next(h, q)
    ensures p == q
  {
    hide LayoutOk, Size;
    ApartAt(h, p, q);
    ApartAt(h, q, p);
    AlignedAt(h, p);
    AlignedAt(h, q);
  }

  lemma ClosedSegs(h: Layout, g: Layout, segs: seq<Seg>, sp: int, base: int, size: nat)
    requires CloseSpot(h, segs, sp, base, size) && Closed(h, g, sp, base, size)
    ensures SegsOk([Seg(base, size)] + segs, g)
  {
    hide LayoutOk, SegsOk, Fresh, CloseSpot, Size, Used, PrevUsed, Foot;
    CloseParts(h, segs, sp, base, size);
    SegCount(segs, h);
    FreshFacts(segs, base, size);
    Multiples(base, size);
    ClosedTop(h, g, sp, base, size);
    var segs' := [Seg(base, size)] + segs;
    forall k | 0 <= k < |segs'|
      ensures SegAt(segs'[k], g, k)
    {
      if k > 0 {
        SegFacts(segs, h, k - 1);
        BaseIn(h, segs, sp, k - 1);
        ClosedAt(h, g, segs, sp, base, size, segs[k - 1].base);
      }
    }
    forall i, j | 0 <= i < |segs'| && 0 <= j < |segs'| && i != j
      ensures g.ends[i] <= segs'[j].base || g.ends[j] <= segs'[i].base
    {
      if i > 0 { FreshAt(segs, h, base, size, i - 1); }
      if j > 0 { FreshAt(segs, h, base, size, j - 1); }
      if i > 0 && j > 0 { SegsApart(segs, h, i - 1, j - 1); }
    }
    forall p | p in g.chunks
      ensures InSeg(segs', g.lasts, p, Next(g, p))
    {
      ClosedAt(h, g, segs, sp, base, size, p);
      var j := HomeOf(segs, h, p);
      assert segs'[j + 1].base <= p && Next(g, p) <= g.lasts[j + 1];
    }
    MakeSegs(segs', g);
  }

  lemma FreshAt(segs: seq<Seg>, h: Layout, base: int, size: nat, k: nat)
    requires SegsOk(segs, h) && Fresh(segs, base, size) && k < |segs|
    ensures |segs| == |h.ends| && (h.ends[k] <= base || base + size <= segs[k].base)
  {
  }

  /** A segment about to be closed begins with a chunk. */
  lemma BaseIn(h: Layout, segs: seq<Seg>, sp: int, k: nat)
    requires LayoutOk(h) && SegsOk(segs, h) && k < |segs| && sp in h.chunks && |h.lasts| > 0
             && Next(h, sp) == h.lasts[0]
    ensures segs[k].base in h.chunks
  {
    hide LayoutOk, SegsOk, Size, PrevUsed;
    SegFacts(segs, h, k);
    if k == 0 {
      var j := HomeOf(segs, h, sp);
      LastAt(h, j);
      AlignedAt(h, sp);
      if j != 0 { LastsApart(h, 0, j); LastAt(h, 0); SegFacts(segs, h, j); SegsApart(segs, h, 0, j); }
    }
  }

  lemma ClosedStep(h: Layout, g: Layout, b: map<int, nat>, dv: int, dvsize: nat, segs: seq<Seg>, sp: int, base: int,
          size: nat, ts: nat)
    requires CloseSpot(h, segs, sp, base, size) && Closed(h, g, sp, base, size) && ts + TOP_FOOT_SIZE == size
    requires Indexed(h, b, dv) && VictimOk(h, dv, dvsize) && forall k :: 0 <= k < |h.ends| ==> h.ends[k] <= TWO_32
    ensures HeapOk(g, b, dv, dvsize, base, ts, [Seg(base, size)] + segs)
    ensures Allocated(g) == Allocated(h) - {sp} && forall q :: q in Allocated(h) ==> Size(g, q) == Size(h, q)
  {
    hide LayoutOk, SegsOk, Fresh, CloseSpot, Size, Used, PrevUsed, Foot, Agreeing, Indexed, VictimOk, Fenced, Bounded;
    CloseParts(h, segs, sp, base, size);
    ClosedAgrees(h, g, segs, sp, base, size);
    ClosedBounded(h, g, segs, sp, base, size);
    ClosedFenced(h, g, segs, sp, base, size);
    AgreeOk(h, g);
    AgreeIndexed(h, g, b, dv, dvsize);
    ClosedSegs(h, g, segs, sp, base, size);
    FreshFacts(segs, base, size);
    LastAt0(h);
    ClosedOwned(h, g, segs, sp, base, size);
  }

  lemma ClosedOwned(h: Layout, g: Layout, segs: seq<Seg>, sp: int, base: int, size: nat)
    requires CloseSpot(h, segs, sp, base, size) && Closed(h, g, sp, base, size)
    ensures Allocated(g) == Allocated(h) - {sp} && forall q :: q in Allocated(h) ==> Size(g, q) == Size(h, q)
  {
    hide CloseSpot, Size, Used;
    forall x | x in h.chunks
      ensures (Used(g, x) <==> Used(h, x)) && Size(g, x) == Size(h, x)
    {
      ClosedAt(h, g, segs, sp, base, size, x);
    }
  }
}
