/** The segments obtained from the system, and how chunks fill them. */
module Segments {
  import opened Words
  import opened TreeBins
  import opened Layouts

  datatype Seg = Seg(base: int, size: nat)

  function End(s: Seg): int { s.base + s.size }

  /** Each segment begins with a chunk (or, the first one, with top) whose pinuse bit is set, and every chunk lies in
      one segment. */
  ghost predicate SegsOk(segs: seq<Seg>, h: Layout) {
    && |segs| == |h.lasts| && |h.ends| == |h.lasts|
    && (forall k :: 0 <= k < |segs| ==>
          End(segs[k]) == h.ends[k] && h.ends[k] % 8 == 0 && 0 < segs[k].base <= h.lasts[k] && segs[k].base % 8 == 0
          && (segs[k].base in h.chunks || (k == 0 && segs[k].base == h.lasts[k])) && PrevUsed(h, segs[k].base))
    && (forall j, k :: 0 <= j < |segs| && 0 <= k < |segs| && j != k ==>
         h.ends[j] <= segs[k].base || h.ends[k] <= segs[j].base)
    && forall p :: p in h.chunks ==> InSeg(segs, h.lasts, p, Next(h, p))
  }

  ghost predicate InSeg(segs: seq<Seg>, lasts: seq<int>, p: int, n: int)
    requires |segs| == |lasts|
  {
    exists k :: 0 <= k < |segs| && segs[k].base <= p && n <= lasts[k]
  }

  /** The conditions on one segment. */
  ghost predicate SegAt(s: Seg, h: Layout, k: nat)
    requires k < |h.lasts| && k < |h.ends|
  {
    && End(s) == h.ends[k] && h.ends[k] % 8 == 0 && 0 < s.base <= h.lasts[k] && s.base % 8 == 0
    && (s.base in h.chunks || (k == 0 && s.base == h.lasts[k])) && PrevUsed(h, s.base)
  }

  lemma SegFacts(segs: seq<Seg>, h: Layout, k: nat)
    requires SegsOk(segs, h) && k < |segs|
    ensures |segs| == |h.lasts| && |h.ends| == |h.lasts| && SegAt(segs[k], h, k)
  {
    hide PrevUsed;
  }

  lemma SegsApart(segs: seq<Seg>, h: Layout, j: nat, k: nat)
    requires SegsOk(segs, h) && j < |segs| && k < |segs| && j != k
    ensures |segs| == |h.ends| && (h.ends[j] <= segs[k].base || h.ends[k] <= segs[j].base)
  {
    hide PrevUsed, Size;
  }

  lemma SegCount(segs: seq<Seg>, h: Layout)
    requires SegsOk(segs, h)
    ensures |segs| == |h.lasts| == |h.ends|
  {
  }

  lemma MakeSegs(segs: seq<Seg>, h: Layout)
    requires |segs| == |h.lasts| == |h.ends| && (forall k :: 0 <= k < |segs| ==> SegAt(segs[k], h, k))
    requires forall j, k :: 0 <= j < |segs| && 0 <= k < |segs| && j != k ==>
               h.ends[j] <= segs[k].base || h.ends[k] <= segs[j].base
    requires forall p :: p in h.chunks ==> InSeg(segs, h.lasts, p, Next(h, p))
    ensures SegsOk(segs, h)
  {
    hide PrevUsed, Size;
  }

  lemma HomeOf(segs: seq<Seg>, h: Layout, p: int) returns (k: nat)
    requires SegsOk(segs, h) && p in h.chunks
    ensures k < |segs| && segs[k].base <= p && Next(h, p) <= h.lasts[k]
  {
    assert InSeg(segs, h.lasts, p, Next(h, p));
    k :| 0 <= k < |segs| && segs[k].base <= p && Next(h, p) <= h.lasts[k];
  }

  /** A run lies inside one segment, and no segment begins in it or right after it. */
  lemma RunHome(segs: seq<Seg>, h: Layout, lo: int, hi: int) returns (k0: nat)
    requires LayoutOk(h) && SegsOk(segs, h) && Run(h, lo, hi)
    ensures k0 < |segs| && segs[k0].base <= lo && hi <= h.lasts[k0]
    ensures forall k :: 0 <= k < |segs| ==> segs[k].base <= lo || hi < segs[k].base
  {
    hide LayoutOk, Size, PrevUsed;
    k0 := HomeOf(segs, h, lo);
    LastAt(h, k0);
    AlignedAt(h, lo);
    forall k | 0 <= k < |segs|
      ensures segs[k].base <= lo || hi < segs[k].base
    {
      LastAt(h, k);
    }
  }

  lemma SegsRecut(segs: seq<Seg>, h: Layout, g: Layout, lo: int, mid: int, hi: int, u1: bool, u2: bool)
    requires LayoutOk(h) && SegsOk(segs, h) && Run(h, lo, hi) && Recut(h, g, lo, mid, hi, u1, u2) && lo < mid <= hi
    ensures SegsOk(segs, g)
  {
    hide LayoutOk, Size, Used, PrevUsed, Foot, Run;
    var k0 := RunHome(segs, h, lo, hi);
    forall p | p in g.chunks
      ensures InSeg(segs, g.lasts, p, Next(g, p))
    {
      if p == lo || (p == mid && mid < hi) {
        assert Next(g, p) <= hi;
      } else {
        assert Next(g, p) == Next(h, p);
        assert InSeg(segs, h.lasts, p, Next(h, p));
      }
    }
  }

  lemma TopCutBase(segs: seq<Seg>, h: Layout, g: Layout, lo: int, mid: int, k: nat)
    requires LayoutOk(h) && SegsOk(segs, h) && TopRun(h, lo) && TopCut(h, g, lo, mid) && segs[0].base <= lo
    requires k < |segs|
    ensures segs[k].base <= g.lasts[k] && (segs[k].base in g.chunks || (k == 0 && segs[k].base == g.lasts[k]))
            && PrevUsed(g, segs[k].base)
  {
    SegFacts(segs, h, k);
    SegFacts(segs, h, 0);
    if k != 0 { SegsApart(segs, h, 0, k); }
    hide LayoutOk, SegsOk, Size, Used, PrevUsed, Foot;
    LastAt(h, k);
    LastAt(h, 0);
    assert k != 0 ==> segs[k].base < lo || h.ends[0] <= segs[k].base;
  }

  lemma MakeInSeg(segs: seq<Seg>, lasts: seq<int>, p: int, n: int, k: nat)
    requires |segs| == |lasts| && k < |segs| && segs[k].base <= p && n <= lasts[k]
    ensures InSeg(segs, lasts, p, n)
  {
  }

  lemma TopCutInside(segs: seq<Seg>, h: Layout, g: Layout, lo: int, mid: int, p: int)
    requires LayoutOk(h) && SegsOk(segs, h) && TopRun(h, lo) && TopCut(h, g, lo, mid) && segs[0].base <= lo
    requires p in g.chunks
    ensures |segs| == |g.lasts| && InSeg(segs, g.lasts, p, Next(g, p))
  {
    LastAt(h, 0);
    SegFacts(segs, h, 0);
    TopChunk(h, g, lo, mid, p);
    hide LayoutOk, SegsOk, Size, Used, PrevUsed, Foot, SegAt, InSeg;
    if p == lo && lo < mid && Next(g, lo) == mid {
      MakeInSeg(segs, g.lasts, p, Next(g, p), 0);
    } else {
      assert Next(g, p) == Next(h, p);
      var k := HomeOf(segs, h, p);
      hide Next;
      MakeInSeg(segs, g.lasts, p, Next(g, p), k);
    }
  }

  lemma SegsTopCut(segs: seq<Seg>, h: Layout, g: Layout, lo: int, mid: int)
    requires LayoutOk(h) && SegsOk(segs, h) && TopRun(h, lo) && TopCut(h, g, lo, mid) && segs[0].base <= lo
    ensures SegsOk(segs, g)
  {
    assert g.lasts == h.lasts[0 := mid] && g.ends == h.ends;
    hide LayoutOk, TopRun, TopCut, Size, Used, PrevUsed, Foot, Next, InSeg;
    forall k | 0 <= k < |segs|
      ensures segs[k].base <= g.lasts[k] && (segs[k].base in g.chunks || (k == 0 && segs[k].base == g.lasts[k]))
              && PrevUsed(g, segs[k].base)
    {
      TopCutBase(segs, h, g, lo, mid, k);
    }
    forall p | p in g.chunks
      ensures InSeg(segs, g.lasts, p, Next(g, p))
    {
      TopCutInside(segs, h, g, lo, mid, p);
    }
  }

  /** The part of a segment before its run ends is covered by chunks without a gap. */
  lemma {:induction false} Covered(segs: seq<Seg>, h: Layout, k: nat, a: int, from: int) returns (p: int)
    requires LayoutOk(h) && SegsOk(segs, h) && k < |segs| && segs[k].base <= from <= a < h.lasts[k]
    requires from in h.chunks
    ensures p in h.chunks && p <= a < Next(h, p)
    decreases a - from
  {
    hide LayoutOk, Size, Used, PrevUsed, Foot;
    AlignedAt(h, from);
    if a < Next(h, from) {
      p := from;
    } else {
      FollowedAt(h, from);
      NotALast(segs, h, k, Next(h, from));
      p := Covered(segs, h, k, a, Next(h, from));
    }
  }

  /** No other segment's run ends inside segment k before its own run does. */
  lemma NotALast(segs: seq<Seg>, h: Layout, k: nat, x: int)
    requires LayoutOk(h) && SegsOk(segs, h) && k < |segs| && segs[k].base <= x < h.lasts[k]
    ensures x !in h.lasts
  {
    hide LayoutOk, Size, Used, PrevUsed, Foot;
    if x in h.lasts {
      var j :| 0 <= j < |h.lasts| && h.lasts[j] == x;
      LastAt(h, j);
      LastAt(h, k);
    }
  }

  /** Chunks tile every segment: each byte before the end of the run belongs to exactly one chunk. */
  lemma Tiling(segs: seq<Seg>, h: Layout, k: nat, a: int)
    requires LayoutOk(h) && SegsOk(segs, h) && k < |segs| && segs[k].base <= a < h.lasts[k]
    ensures exists p :: p in h.chunks && p <= a < Next(h, p)
    ensures forall p, q :: p in h.chunks && q in h.chunks && p <= a < Next(h, p) && q <= a < Next(h, q) ==> p == q
  {
    hide LayoutOk, Size, Used, PrevUsed, Foot;
    var p := Covered(segs, h, k, a, segs[k].base);
    forall p, q | p in h.chunks && q in h.chunks && p <= a < Next(h, p) && q <= a < Next(h, q)
      ensures p == q
    {
      ApartAt(h, p, q);
      ApartAt(h, q, p);
    }
  }

  /** Where a chunk is free, what footers have to say about it is the same without the footer word at b. */
  lemma FooterAlike(h: Layout, g: Layout, b: int, x: int)
    requires LayoutOk(h) && g.chunks == h.chunks && g.head == h.head && x in h.chunks && PrevUsed(h, b)
    requires forall a :: a != b ==> Foot(g, a) == Foot(h, a)
    ensures !Used(g, x) ==>
              PrevUsed(g, x) && Next(g, x) in g.chunks && Used(g, Next(g, x)) && Foot(g, Next(g, x)) == Size(g, x)
    ensures !PrevUsed(g, x) ==>
              x - Foot(g, x) in g.chunks && Next(g, x - Foot(g, x)) == x && !Used(g, x - Foot(g, x))
  {
    hide LayoutOk, ChunkSize, CInUse, PInUse, Foot;
    if !Used(h, x) {
      LonelyAt(h, x);
      FollowedAt(h, x);
    }
    if !PrevUsed(h, x) {
      BackedAt(h, x);
    }
  }

  lemma OneFooter(h: Layout, g: Layout, b: int, w: nat)
    requires g == h.(foot := h.foot[b := w])
    ensures forall x :: Size(g, x) == Size(h, x) && (Used(g, x) <==> Used(h, x)) && (PrevUsed(g, x) <==>
              PrevUsed(h, x))
    ensures forall a :: a != b ==> Foot(g, a) == Foot(h, a)
  {
    hide ChunkSize, CInUse, PInUse;
  }

  /** The footer word of a chunk in use belongs to its owner, who may write anything there. */
  lemma FooterOfUsed(h: Layout, p: int, w: nat)
    requires LayoutOk(h) && p in h.chunks && Used(h, p)
    ensures LayoutOk(h.(foot := h.foot[Next(h, p) := w]))
  {
    hide LayoutOk, Size, Used, PrevUsed, Foot;
    var b := Next(h, p);
    var g := h.(foot := h.foot[b := w]);
    FollowedAt(h, p);
    OneFooter(h, g, b, w);
    forall x | x in h.chunks
      ensures !Used(g, x) ==>
                PrevUsed(g, x) && Next(g, x) in g.chunks && Used(g, Next(g, x)) && Foot(g, Next(g, x)) == Size(g, x)
      ensures !PrevUsed(g, x) ==>
                x - Foot(g, x) in g.chunks && Next(g, x - Foot(g, x)) == x && !Used(g, x - Foot(g, x))
    {
      FooterAlike(h, g, b, x);
    }
    FooterDone(h, g);
  }

  lemma FooterDone(h: Layout, g: Layout)
    requires LayoutOk(h) && g.chunks == h.chunks && g.lasts == h.lasts && g.ends == h.ends && g.pinned == h.pinned
    requires forall x :: Size(g, x) == Size(h, x) && (Used(g, x) <==> Used(h, x)) && (PrevUsed(g, x) <==>
               PrevUsed(h, x))
    requires Lonely(g)
    requires forall p :: p in g.chunks && !PrevUsed(g, p) ==>
          p - Foot(g, p) in g.chunks && Next(g, p - Foot(g, p)) == p && !Used(g, p - Foot(g, p))
    ensures LayoutOk(g)
  {
    hide Size, Used, PrevUsed, Foot, Lonely, LayoutOk, Bounded, Fenced;
    forall p | p in g.chunks
      ensures p > 0 && p % 8 == 0 && Size(g, p) >= MIN_CHUNK_SIZE && (Next(g, p) in g.chunks || Next(g, p) in g.lasts)
      ensures PrevUsed(g, Next(g, p)) <==> Used(g, p)
    {
      AlignedAt(h, p);
      FollowedAt(h, p);
      assert Next(g, p) == Next(h, p);
    }
    forall p, q | p in g.chunks && q in g.chunks && p < q
      ensures Next(g, p) <= q
    {
      ApartAt(h, p, q);
      assert Next(g, p) == Next(h, p);
    }
    FooterEnds(h, g);
    MakeOk(g);
  }

  lemma FooterEnds(h: Layout, g: Layout)
    requires LayoutOk(h) && g.chunks == h.chunks && g.lasts == h.lasts && g.ends == h.ends && g.pinned == h.pinned
    requires forall x :: Size(g, x) == Size(h, x) && (Used(g, x) <==> Used(h, x)) && (PrevUsed(g, x) <==>
               PrevUsed(h, x))
    ensures Bounded(g) && Fenced(g) && forall k :: 0 <= k < |g.lasts| ==> PrevUsed(g, g.lasts[k])
  {
    hide Size, Used, PrevUsed, Foot, Lonely, Aligned, Followed, Apart, Tagged;
    assert forall x :: Next(g, x) == Next(h, x);
  }
}
