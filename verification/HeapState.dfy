/** What the bins, the designated victim and the callers own, in terms of the physical layout. */
module HeapState {
  import opened Bytes
  import opened Words
  import opened TreeBins
  import opened Layouts
  import opened Writes

  /** The bins hold exactly the free chunks other than dv, each under its size. */
  ghost predicate Indexed(h: Layout, binned: map<int, nat>, dv: int) {
    && (forall p :: p in binned <==> p in h.chunks && !Used(h, p) && p != dv)
    && forall p :: p in binned ==> binned[p] == Size(h, p)
  }

  ghost predicate VictimOk(h: Layout, dv: int, dvsize: nat) {
    && (dv == 0 <==> dvsize == 0)
    && (dv != 0 ==> dv in h.chunks && !Used(h, dv) && Size(h, dv) == dvsize)
  }

  ghost predicate TopOk(h: Layout, top: int, topsize: nat) {
    && |h.lasts| > 0 && |h.ends| == |h.lasts| && top == h.lasts[0]
    && topsize > 0 && topsize % 8 == 0 && top + topsize + TOP_FOOT_SIZE == h.ends[0]
    && forall k :: 0 <= k < |h.ends| ==> h.ends[k] <= TWO_32
  }

  /** Chunks handed out to callers. */
  ghost function Allocated(h: Layout): set<int> {
    set p | p in h.chunks && Used(h, p) && p !in h.pinned
  }

  /** p was handed out for a chunk of nb bytes, and no caller's chunk was touched. */
  ghost predicate Handed(h: Layout, g: Layout, p: int, nb: nat) {
    && p !in Allocated(h) && Allocated(g) == Allocated(h) + {p}
    && nb <= Size(g, p) < nb + MIN_CHUNK_SIZE
    && (forall q :: q in Allocated(h) ==> Size(g, q) == Size(h, q))
  }

  /** The chunk p was given back, and no other caller's chunk was touched. */
  ghost predicate Returned(h: Layout, g: Layout, p: int) {
    && p in Allocated(h) && Allocated(g) == Allocated(h) - {p}
    && (forall q :: q in Allocated(g) ==> Size(g, q) == Size(h, q))
  }

  // ---- bins after a new cut ----

  /** As Indexed, with the chunks of [lo, hi) out of the bins. */
  ghost predicate IndexedOutside(h: Layout, b: map<int, nat>, dv: int, lo: int, hi: int) {
    && (forall p :: p in b <==> p in h.chunks && !Used(h, p) && p != dv && (p < lo || hi <= p))
    && forall p :: p in b ==> b[p] == Size(h, p)
  }

  lemma IndexRecut(h: Layout, g: Layout, lo: int, mid: int, hi: int, u1: bool, u2: bool,
                   b: map<int, nat>, c: map<int, nat>, dv: int, dv': int)
    requires LayoutOk(h) && Run(h, lo, hi) && Recut(h, g, lo, mid, hi, u1, u2) && lo < mid <= hi
    requires IndexedOutside(h, b, dv, lo, hi)
    requires dv' == dv || ((lo <= dv < hi || dv == 0) && (lo <= dv' < hi || dv' == 0))
    requires forall x :: x in c <==> x in b || (x != dv' && ((x == lo && !u1) || (x == mid && mid < hi && !u2)))
    requires forall x :: x in b ==> c[x] == b[x]
    requires lo in c ==> c[lo] == mid - lo
    requires mid < hi && mid in c ==> c[mid] == hi - mid
    ensures Indexed(g, c, dv')
  {
    hide LayoutOk, Size, Used, PrevUsed, Foot;
    AlignedAt(h, lo);
    forall x
      ensures x in c <==> x in g.chunks && !Used(g, x) && x != dv'
      ensures x in c ==> c[x] == Size(g, x)
    {
      if lo <= x < hi {
        assert x in g.chunks <==> x == lo || (x == mid && mid < hi);
      } else {
        assert x in g.chunks <==> x in h.chunks;
        if x in h.chunks { AlignedAt(h, x); }
      }
    }
  }

  /** The sizes of chunks elsewhere in the bins still agree with their headers. */
  lemma MatchesRecut(h: Layout, g: Layout, lo: int, mid: int, hi: int, u1: bool, u2: bool, b: map<int, nat>,
          v: map<int, nat>, dv: int)
    requires lo < hi && Recut(h, g, lo, mid, hi, u1, u2) && IndexedOutside(h, b, dv, lo, hi)
    requires forall a :: a in v ==> a in b && v[a] == b[a]
    ensures Matches(g.head, v)
  {
    forall a | a in v
      ensures ChunkSize(HeadAt(g.head, a)) == v[a]
    {
      assert Size(g, a) == Size(h, a);
    }
  }

  lemma MatchesNow(h: Layout, b: map<int, nat>, v: map<int, nat>, dv: int)
    requires Indexed(h, b, dv) && forall a :: a in v ==> a in b && v[a] == b[a]
    ensures Matches(h.head, v)
  {
    forall a | a in v
      ensures ChunkSize(HeadAt(h.head, a)) == v[a]
    {
      assert Size(h, a) == b[a];
    }
  }

  lemma VictimRecut(h: Layout, g: Layout, lo: int, mid: int, hi: int, u1: bool, u2: bool, dv: int, dvsize: nat)
    requires LayoutOk(h) && Recut(h, g, lo, mid, hi, u1, u2) && VictimOk(h, dv, dvsize) && (dv < lo || hi <= dv)
             && lo < hi
    ensures VictimOk(g, dv, dvsize)
  {
    hide LayoutOk, Size, Used, PrevUsed, Foot;
  }

  /** What callers own after a run that held no caller's chunk is cut so that its first part is in use. */
  lemma HandedRecut(h: Layout, g: Layout, lo: int, mid: int, hi: int, u2: bool, nb: nat)
    requires LayoutOk(h) && Run(h, lo, hi) && Recut(h, g, lo, mid, hi, true, u2) && lo < mid <= hi && (mid < hi ==> !u2)
    requires forall x :: x in h.chunks && lo <= x < hi ==> !Used(h, x)
    requires nb <= mid - lo < nb + MIN_CHUNK_SIZE
    ensures Handed(h, g, lo, nb)
  {
    hide LayoutOk, Size, Used, PrevUsed, Foot;
    forall x
      ensures x in Allocated(g) <==> x in Allocated(h) || x == lo
    {
      assert lo <= x < hi ==> x !in h.pinned;
    }
  }

  /** What callers own after a run with one caller's chunk becomes one free chunk. */
  lemma ReturnedRecut(h: Layout, g: Layout, lo: int, hi: int, p: int)
    requires LayoutOk(h) && Run(h, lo, hi) && Recut(h, g, lo, hi, hi, false, false)
    requires p in Allocated(h) && lo <= p < hi && forall x :: x in h.chunks && lo <= x < hi && x != p ==> !Used(h, x)
    ensures Returned(h, g, p)
  {
    hide LayoutOk, Size, Used, PrevUsed, Foot;
    forall x
      ensures x in Allocated(g) <==> x in Allocated(h) && x != p
    {
      assert lo <= x < hi ==> x !in h.pinned;
    }
  }

  // ---- bins after top has moved ----

  lemma IndexTopCut(h: Layout, g: Layout, lo: int, mid: int, b: map<int, nat>, dv: int, dv': int)
    requires LayoutOk(h) && TopRun(h, lo) && TopCut(h, g, lo, mid)
    requires IndexedOutside(h, b, dv, lo, h.ends[0]) && (dv' == dv || (dv' == 0 && lo <= dv < h.ends[0]))
    ensures Indexed(g, b, dv')
  {
    hide LayoutOk, Size, Used, PrevUsed, Foot;
    forall x
      ensures x in b <==> x in g.chunks && !Used(g, x) && x != dv'
      ensures x in b ==> b[x] == Size(g, x)
    {
      if x in h.chunks { AlignedAt(h, x); }
    }
  }

  lemma VictimTopCut(h: Layout, g: Layout, lo: int, mid: int, dv: int, dvsize: nat)
    requires LayoutOk(h) && TopRun(h, lo) && TopCut(h, g, lo, mid) && VictimOk(h, dv, dvsize)
             && (dv < lo || h.ends[0] <= dv)
    ensures VictimOk(g, dv, dvsize)
  {
    hide LayoutOk, Size, Used, PrevUsed, Foot;
  }

  lemma HandedTopCut(h: Layout, g: Layout, mid: int)
    requires LayoutOk(h) && |h.lasts| > 0 && TopRun(h, h.lasts[0]) && TopCut(h, g, h.lasts[0], mid) && h.lasts[0] < mid
    ensures Handed(h, g, h.lasts[0], mid - h.lasts[0])
  {
    hide LayoutOk, Size, Used, PrevUsed, Foot;
    LastAt(h, 0);
    forall x
      ensures x in Allocated(g) <==> x in Allocated(h) || x == h.lasts[0]
    {
      if x in h.chunks { BoundedAt(h, x, 0); AlignedAt(h, x); }
    }
  }

  lemma ReturnedTopCut(h: Layout, g: Layout, lo: int, p: int)
    requires LayoutOk(h) && TopRun(h, lo) && TopCut(h, g, lo, lo)
    requires p in Allocated(h) && lo <= p < h.ends[0] && forall x :: x in h.chunks && lo <= x < h.ends[0] && x != p ==>
               !Used(h, x)
    ensures Returned(h, g, p)
  {
    hide LayoutOk, Size, Used, PrevUsed, Foot;
    forall x
      ensures x in Allocated(g) <==> x in Allocated(h) && x != p
    {
    }
  }
}
