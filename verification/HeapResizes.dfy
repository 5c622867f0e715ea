/** Resizing a chunk where it is keeps the whole heap state in order. */
module HeapResizes {
  import opened Bytes
  import opened Words
  import opened TreeBins
  import opened Layouts
  import opened Writes
  import opened Segments
  import opened HeapState
  import opened HeapSteps
  import opened HeapFrees

  /** p alone of all callers' chunks changed its size, to nb or a little more. */
  ghost predicate Resized(h: Layout, g: Layout, p: int, nb: nat) {
    && p in Allocated(h) && Allocated(g) == Allocated(h) && nb <= Size(g, p) < nb + MIN_CHUNK_SIZE
    && forall q :: q in Allocated(h) && q != p ==> Size(g, q) == Size(h, q)
  }

  /** p was cut: its rest r is a chunk in use of its own for now. */
  ghost predicate SplitOff(h: Layout, g: Layout, p: int, nb: nat, r: int, rs: nat) {
    && p in Allocated(h) && r !in Allocated(h) && Allocated(g) == Allocated(h) + {r} && Size(g, p) == nb
    && Size(g, r) == rs
    && forall q :: q in Allocated(h) && q != p ==> Size(g, q) == Size(h, q)
  }

  lemma SplitThenReturned(h: Layout, g: Layout, k: Layout, p: int, nb: nat, r: int, rs: nat)
    requires SplitOff(h, g, p, nb, r, rs) && Returned(g, k, r)
    ensures Resized(h, k, p, nb)
  {
    hide Size, Allocated;
  }

  lemma AllocatedRecut(h: Layout, g: Layout, p: int, mid: int, hi: int, u2: bool)
    requires Run(h, p, hi) && Recut(h, g, p, mid, hi, true, u2) && p < mid <= hi && Lone(h, p, p, hi)
    ensures Allocated(g) == Allocated(h) + (if mid < hi && u2 then {mid} else {})
    ensures Size(g, p) == mid - p && forall q :: q in Allocated(h) && q != p ==> Size(g, q) == Size(h, q)
    ensures mid < hi ==> mid !in Allocated(h)
  {
    hide Size, Used, PrevUsed, Foot;
    forall x
      ensures x in Allocated(g) <==> x in Allocated(h) || (mid < hi && u2 && x == mid)
    {
      assert p <= x < hi ==> x !in h.pinned;
    }
  }

  lemma ResizedRecut(h: Layout, g: Layout, p: int, mid: int, hi: int, nb: nat)
    requires Run(h, p, hi) && Recut(h, g, p, mid, hi, true, false) && p < mid <= hi && Lone(h, p, p, hi)
    requires nb <= mid - p < nb + MIN_CHUNK_SIZE
    ensures Resized(h, g, p, nb)
  {
    hide Size, Recut, Run;
    AllocatedRecut(h, g, p, mid, hi, false);
  }

  ghost function Grown(h: Layout, p: int, s: nat): Layout
    requires s % 8 == 0 && s < TWO_32
  {
    h.(chunks := Cut(h.chunks, p, p + s, p + s), head := SetInUse(h.head, p, s))
  }

  lemma SameRecut(h: Layout, g: Layout, p: int, hi: int)
    requires p < hi
    ensures Recut(h, g, p, hi, hi, true, true) <==> Recut(h, g, p, hi, hi, true, false)
  {
    hide Size, Used, PrevUsed, Foot;
  }

  /** The whole run becomes p. */
  lemma GrowDone(h: Layout, b: map<int, nat>, dv: int, dvsize: nat, top: int, topsize: nat, segs: seq<Seg>, p: int,
          hi: int, s: nat, nb: nat)
    requires Open(h, b, dv, dvsize, top, topsize, segs, p, p, hi) && hi == p + s && nb <= s < nb + MIN_CHUNK_SIZE
    ensures s % 8 == 0 && s < TWO_32
    ensures var g := Grown(h, p, s);
            && Resized(h, g, p, nb)
            && if p <= dv < hi then HeapOk(g, b, 0, 0, top, topsize, segs)
                 else HeapOk(g, b, dv, dvsize, top, topsize, segs)
  {
    hide LayoutOk, Size, Used, PrevUsed, Foot, VictimOk, TopOk, SegsOk, Run, IndexedOutside, Recut, SetInUse, HeapOk,
         Resized, Cut, Lone;
    RunSize(h, top, topsize, segs, p, hi);
    GrowOk(h, p, hi, s);
    var g := Grown(h, p, s);
    SameRecut(h, g, p, hi);
    ResizedRecut(h, g, p, hi, hi, nb);
    if p <= dv < hi {
      NoVictim(g);
      RecutStep(h, g, p, hi, hi, true, true, b, b, dv, 0, 0, top, topsize, segs) by { NotRecorded(h, b, dv, p, hi, p); }
    } else {
      VictimRecut(h, g, p, hi, hi, true, true, dv, dvsize);
      RecutStep(h, g, p, hi, hi, true, true, b, b, dv, dv, dvsize, top, topsize, segs) by {
        NotRecorded(h, b, dv, p, hi, p); }
    }
  }

  ghost function SplitMade(h: Layout, p: int, nb: nat, rs: nat): Layout
    requires nb % 8 == 0 && rs % 8 == 0 && nb + rs < TWO_32
  {
    h.(chunks := Cut(h.chunks, p, p + nb, p + nb + rs), head := SetInUse(SetInUse(h.head, p, nb), p + nb, rs))
  }

  /** The run becomes p and a chunk in use after it. */
  lemma SplitDone(h: Layout, b: map<int, nat>, dv: int, dvsize: nat, top: int, topsize: nat, segs: seq<Seg>, p: int,
          hi: int, nb: nat, rs: nat)
    requires Open(h, b, dv, dvsize, top, topsize, segs, p, p, hi) && hi == p + nb + rs && Parts(nb, rs)
             && (dv < p || hi <= dv)
    ensures var g := SplitMade(h, p, nb, rs);
            SplitOff(h, g, p, nb, p + nb, rs) && HeapOk(g, b, dv, dvsize, top, topsize, segs)
  {
    hide LayoutOk, Size, Used, PrevUsed, Foot, VictimOk, TopOk, SegsOk, Run, IndexedOutside, Recut, SetInUse, HeapOk,
         Cut;
    SplitUsedOk(h, p, nb, rs, hi);
    var g := SplitMade(h, p, nb, rs);
    AllocatedRecut(h, g, p, p + nb, hi, true);
    RestSize(h, g, p, p + nb, hi, true);
    VictimRecut(h, g, p, p + nb, hi, true, true, dv, dvsize);
    NotRecorded(h, b, dv, p, hi, p);
    NotRecorded(h, b, dv, p, hi, p + nb);
    RecutStep(h, g, p, p + nb, hi, true, true, b, b, dv, dv, dvsize, top, topsize, segs);
  }

  lemma RestSize(h: Layout, g: Layout, p: int, mid: int, hi: int, u2: bool)
    requires Recut(h, g, p, mid, hi, true, u2) && p < mid < hi
    ensures Size(g, mid) == hi - mid && mid in g.chunks && (Used(g, mid) <==> u2)
  {
    hide Size, Used, PrevUsed, Foot;
  }

  ghost function VictimCut(h: Layout, p: int, nb: nat, rs: nat): Layout
    requires nb % 8 == 0 && rs % 8 == 0 && nb + rs < TWO_32
  {
    h.(chunks := Cut(h.chunks, p, p + nb, p + nb + rs), head := GrowFront(h.head, p, nb, rs),
        foot := h.foot[p + nb + rs := rs])
  }

  /** p grows into the victim, whose rest stays the victim. */
  lemma GrowVictim(h: Layout, b: map<int, nat>, dv: int, dvsize: nat, top: int, topsize: nat, segs: seq<Seg>, p: int,
          hi: int, nb: nat, rs: nat)
    requires Open(h, b, dv, dvsize, top, topsize, segs, p, p, hi) && hi == p + nb + rs && Parts(nb, rs) && p <= dv < hi
    requires hi in h.chunks && Used(h, hi)
    ensures var g := VictimCut(h, p, nb, rs);
            Resized(h, g, p, nb) && HeapOk(g, b, p + nb, rs, top, topsize, segs)
  {
    hide LayoutOk, Size, Used, PrevUsed, Foot, VictimOk, TopOk, SegsOk, Run, IndexedOutside, Recut, GrowFront, HeapOk,
         Cut, Resized, Lone;
    GrowFrontOk(h, p, nb, rs, hi);
    var g := VictimCut(h, p, nb, rs);
    ResizedRecut(h, g, p, p + nb, hi, nb);
    RunLong(h, p, hi);
    RestVictim(h, g, p, p + nb, hi);
    NotRecorded(h, b, dv, p, hi, p);
    NotRecorded(h, b, dv, p, hi, p + nb);
    RecutStep(h, g, p, p + nb, hi, true, false, b, b, dv, p + nb, rs, top, topsize, segs);
  }

  lemma RestVictim(h: Layout, g: Layout, p: int, mid: int, hi: int)
    requires Recut(h, g, p, mid, hi, true, false) && 0 < p < mid < hi
    ensures VictimOk(g, mid, hi - mid)
  {
    hide Size, Used, PrevUsed, Foot;
  }

  ghost function TopCutOff(h: Layout, p: int, nb: nat, ts: nat): Layout
    requires |h.lasts| > 0 && |h.ends| > 0 && nb % 8 == 0 && ts % 8 == 0 && nb < TWO_32 && ts < TWO_32
  {
    h.(chunks := TopChunks(h.chunks, p, p + nb, h.ends[0]), head := GrowTop(h.head, p, nb, ts),
        lasts := h.lasts[0 := p + nb])
  }

  lemma GrowTopFacts(h: Layout, b: map<int, nat>, dv: int, dvsize: nat, top: int, topsize: nat, segs: seq<Seg>, p: int,
          nb: nat, ts: nat)
    requires Open(h, b, dv, dvsize, top, topsize, segs, p, p, top) && p + nb + ts == top + topsize
    requires nb % 8 == 0 && MIN_CHUNK_SIZE <= nb && 0 < ts
    ensures |h.lasts| > 0 && |h.ends| > 0 && ts % 8 == 0 && nb < TWO_32 && ts < TWO_32 && |segs| > 0
            && segs[0].base <= p && 0 < p
    ensures p + nb + ts + TOP_FOOT_SIZE == h.ends[0]
    ensures IndexedOutside(h, b, dv, p, h.ends[0]) && |h.lasts| == |h.ends|
    ensures var g := TopCutOff(h, p, nb, ts); LayoutOk(g) && TopRun(h, p) && TopCut(h, g, p, p + nb)
    ensures forall x :: x in h.chunks && p < x < h.ends[0] ==> !Used(h, x)
  {
    hide LayoutOk, Size, Next, Used, PrevUsed, Foot, VictimOk, TopOk, SegsOk, Run, IndexedOutside, TopCut, TopRun,
         TopChunks, GrowTop, Lone, Open;
    OpenParts(h, b, dv, dvsize, top, topsize, segs, p, p, top);
    TopFacts(h, top, topsize, segs);
    LastAt0(h);
    RunSize(h, top, topsize, segs, p, top);
    Multiples(top - p, topsize);
    Multiples(nb, top - p + topsize);
    GrowTopOk(h, p, nb, ts);
    LoneTop(h, p, p, top, topsize);
    OutsideTop(h, b, dv, p, top);
    BaseBefore(h, segs, p, top, topsize);
  }

  /** p grows into top. */
  lemma GrowTopDone(h: Layout, b: map<int, nat>, dv: int, dvsize: nat, top: int, topsize: nat, segs: seq<Seg>, p: int,
          nb: nat, ts: nat)
    requires Open(h, b, dv, dvsize, top, topsize, segs, p, p, top) && p + nb + ts == top + topsize && p != dv
    requires nb % 8 == 0 && MIN_CHUNK_SIZE <= nb && 0 < ts
    ensures |h.lasts| > 0 && |h.ends| > 0 && ts % 8 == 0 && nb < TWO_32 && ts < TWO_32
    ensures var g := TopCutOff(h, p, nb, ts);
            Resized(h, g, p, nb) && HeapOk(g, b, dv, dvsize, p + nb, ts, segs)
  {
    hide LayoutOk, Size, Used, PrevUsed, Foot, VictimOk, TopOk, SegsOk, Run, IndexedOutside, TopCut, TopRun, TopChunks,
         HeapOk, Lone, TopCutOff, Resized;
    GrowTopFacts(h, b, dv, dvsize, top, topsize, segs, p, nb, ts);
    var g := TopCutOff(h, p, nb, ts);
    VictimApartTop(h, dv, dvsize, top, topsize, p, p);
    VictimTopCut(h, g, p, p + nb, dv, dvsize);
    TopCutStep(h, g, p, p + nb, b, dv, dv, dvsize, top, topsize, ts, segs);
    ResizedTopCut(h, g, p, p + nb) by { OpenIn(h, b, dv, dvsize, top, topsize, segs, p, p, top); }
  }

  lemma OpenIn(h: Layout, b: map<int, nat>, dv: int, dvsize: nat, top: int, topsize: nat, segs: seq<Seg>, p: int,
          lo: int, hi: int)
    requires Open(h, b, dv, dvsize, top, topsize, segs, p, lo, hi)
    ensures p in Allocated(h)
  {
  }

  lemma ResizedTopCut(h: Layout, g: Layout, p: int, mid: int)
    requires LayoutOk(h) && TopRun(h, p) && TopCut(h, g, p, mid) && p < mid && p in Allocated(h)
    requires forall x :: x in h.chunks && p < x < h.ends[0] ==> !Used(h, x)
    ensures Resized(h, g, p, mid - p)
  {
    hide LayoutOk, Size, Used, PrevUsed, Foot;
    forall x
      ensures x in Allocated(g) <==> x in Allocated(h)
    {
    }
  }
}
