/** Chunk headers and the physical layout of dlmalloc's heap. */
module Layouts {
  import opened Bytes
  import opened Words
  import opened TreeBins

  const MIN_CHUNK_SIZE := 16
  const TOP_FOOT_SIZE := 40

  // ---- header words ----

  predicate CInUse(w: word) { w / 2 % 2 == 1 }

  predicate PInUse(w: word) { w % 2 == 1 }

  function MkHead(size: nat, cinuse: bool, pinuse: bool): word
    requires size % 8 == 0 && size < TWO_32
  {
    size + (if cinuse then 2 else 0) + (if pinuse then 1 else 0)
  }

  function SetPInUse(w: word): word { if PInUse(w) then w else w + 1 }

  function ClearPInUse(w: word): word { if PInUse(w) then w - 1 else w }

  lemma FlagBits(q: nat, f: nat)
    requires f < 8
    ensures (8 * q + f) % 8 == f && (8 * q + f) % 2 == f % 2
  {
    Eighth(q, f);
    Halve(4 * q + f / 2, f % 2);
  }

  lemma SecondBit(q: nat, f: nat)
    requires f < 8
    ensures (8 * q + f) / 2 % 2 == f / 2 % 2
  {
    Halve(4 * q + f / 2, f % 2);
    Halve(2 * q + f / 4, f / 2 % 2);
  }

  /** A header word taken apart into its size and its three low bits. */
  lemma WordFields(w: word, q: nat, f: nat)
    requires f < 8 && w == 8 * q + f
    ensures ChunkSize(w) == 8 * q && (CInUse(w) <==> f / 2 % 2 == 1) && (PInUse(w) <==> f % 2 == 1)
  {
    FlagBits(q, f);
    SecondBit(q, f);
  }

  lemma HeadFields(size: nat, cinuse: bool, pinuse: bool)
    requires size % 8 == 0 && size < TWO_32
    ensures var w := MkHead(size, cinuse, pinuse);
            ChunkSize(w) == size && (CInUse(w) <==> cinuse) && (PInUse(w) <==> pinuse)
  {
    hide ChunkSize, CInUse, PInUse;
    WordFields(MkHead(size, cinuse, pinuse), size / 8, (if cinuse then 2 else 0) + (if pinuse then 1 else 0));
  }

  lemma SetPInUseFields(w: word)
    ensures ChunkSize(SetPInUse(w)) == ChunkSize(w) && (CInUse(SetPInUse(w)) <==> CInUse(w)) && PInUse(SetPInUse(w))
    ensures PInUse(w) ==> SetPInUse(w) == w
  {
    hide ChunkSize, CInUse, PInUse;
    WordFields(w, w / 8, w % 8);
    if !PInUse(w) { WordFields(w + 1, w / 8, w % 8 + 1); }
  }

  lemma ClearPInUseFields(w: word)
    ensures ChunkSize(ClearPInUse(w)) == ChunkSize(w) && (CInUse(ClearPInUse(w)) <==> CInUse(w))
            && !PInUse(ClearPInUse(w))
    ensures !PInUse(w) ==> ClearPInUse(w) == w
  {
    hide ChunkSize, CInUse, PInUse;
    WordFields(w, w / 8, w % 8);
    if PInUse(w) { WordFields(w - 1, w / 8, w % 8 - 1); }
  }

  lemma SizeFacts(w: word)
    ensures ChunkSize(w) % 8 == 0 && ChunkSize(w) < TWO_32
  {
  }

  // ---- layout ----

  /** The physical heap: chunk addresses, header and footer words, and for each segment where its run of
      chunks ends (the top chunk for the first segment, the first fencepost for the others) and where the
      segment itself ends. Pinned chunks hold segment records. */
  datatype Layout = Layout(chunks: set<int>, head: map<int, word>, foot: map<int, nat>, lasts: seq<int>,
          ends: seq<int>, pinned: set<int>)

  function Head(h: Layout, p: int): word { HeadAt(h.head, p) }

  function Size(h: Layout, p: int): nat { ChunkSize(Head(h, p)) }

  function Next(h: Layout, p: int): int { p + Size(h, p) }

  predicate Used(h: Layout, p: int) { CInUse(Head(h, p)) }

  predicate PrevUsed(h: Layout, p: int) { PInUse(Head(h, p)) }

  function Foot(h: Layout, p: int): nat { if p in h.foot then h.foot[p] else 0 }

  ghost predicate Aligned(h: Layout) {
    forall p :: p in h.chunks ==> p > 0 && p % 8 == 0 && Size(h, p) >= MIN_CHUNK_SIZE
  }

  /** Every chunk is followed by a chunk or by the end of its segment's run. */
  ghost predicate Followed(h: Layout) {
    forall p {:trigger Next(h, p)} :: p in h.chunks ==> Next(h, p) in h.chunks || Next(h, p) in h.lasts
  }

  /** Chunks do not overlap. */
  ghost predicate Apart(h: Layout) {
    forall p, q {:trigger Next(h, p), q in h.chunks} :: p in h.chunks && q in h.chunks && p < q ==> Next(h, p) <= q
  }

  /** Nor do they reach into the ends of segments. */
  ghost predicate Bounded(h: Layout) {
    && |h.lasts| == |h.ends| && |h.lasts| > 0
    && (forall k :: 0 <= k < |h.lasts| ==>
         h.lasts[k] > 0 && h.lasts[k] % 8 == 0 && h.lasts[k] < h.ends[k] && (Used(h, h.lasts[k]) <==> k > 0))
    && (forall j, k :: 0 <= j < |h.lasts| && 0 <= k < |h.lasts| && j != k ==>
         h.ends[j] <= h.lasts[k] || h.ends[k] <= h.lasts[j])
    && forall p, k :: p in h.chunks && 0 <= k < |h.lasts| ==> Next(h, p) <= h.lasts[k] || h.ends[k] <= p
  }

  /** The pinuse bit of what follows a chunk agrees with the chunk's cinuse bit. */
  ghost predicate Tagged(h: Layout) {
    forall p {:trigger Next(h, p)} :: p in h.chunks ==> (PrevUsed(h, Next(h, p)) <==> Used(h, p))
  }

  /** A free chunk lies between chunks in use, and its size is repeated in its footer. */
  ghost predicate Lonely(h: Layout) {
    forall p {:trigger Next(h, p), Used(h, p)} :: p in h.chunks && !Used(h, p) ==>
      PrevUsed(h, p) && Next(h, p) in h.chunks && Used(h, Next(h, p)) && Foot(h, Next(h, p)) == Size(h, p)
  }

  /** A clear pinuse bit leads back to a free chunk. */
  ghost predicate Backed(h: Layout) {
    && (forall p {:trigger PrevUsed(h, p), Foot(h, p)} :: p in h.chunks && !PrevUsed(h, p) ==>
          p - Foot(h, p) in h.chunks && Next(h, p - Foot(h, p)) == p && !Used(h, p - Foot(h, p)))
    && forall k :: 0 <= k < |h.lasts| ==> PrevUsed(h, h.lasts[k])
  }

  /** Only a segment record borders on a fencepost. */
  ghost predicate Fenced(h: Layout) {
    && (forall p :: p in h.pinned ==> p in h.chunks && Used(h, p))
    && forall p, k :: p in h.chunks && 1 <= k < |h.lasts| && Next(h, p) == h.lasts[k] ==> p in h.pinned
  }

  ghost predicate LayoutOk(h: Layout) {
    Aligned(h) && Followed(h) && Apart(h) && Bounded(h) && Tagged(h) && Lonely(h) && Backed(h) && Fenced(h)
  }

  // ---- the layout conditions, one chunk at a time ----

  lemma AlignedAt(h: Layout, p: int)
    requires LayoutOk(h) && p in h.chunks
    ensures p > 0 && p % 8 == 0 && Size(h, p) >= MIN_CHUNK_SIZE
  {
    hide Size, Followed, Apart, Bounded, Tagged, Lonely, Backed, Fenced;
  }

  lemma FollowedAt(h: Layout, p: int)
    requires LayoutOk(h) && p in h.chunks
    ensures Next(h, p) in h.chunks || Next(h, p) in h.lasts
    ensures PrevUsed(h, Next(h, p)) <==> Used(h, p)
  {
    hide Next, Used, PrevUsed, Aligned, Apart, Bounded, Lonely, Backed, Fenced;
  }

  lemma ApartAt(h: Layout, p: int, q: int)
    requires LayoutOk(h) && p in h.chunks && q in h.chunks
    ensures p < q ==> Next(h, p) <= q
  {
    hide Next, Aligned, Followed, Bounded, Tagged, Lonely, Backed, Fenced;
  }

  lemma BoundedAt(h: Layout, p: int, k: nat)
    requires LayoutOk(h) && p in h.chunks && k < |h.lasts|
    ensures |h.ends| == |h.lasts| && (Next(h, p) <= h.lasts[k] || h.ends[k] <= p)
  {
    hide Next, Aligned, Followed, Apart, Tagged, Lonely, Backed, Fenced;
  }

  lemma LastAt(h: Layout, k: nat)
    requires LayoutOk(h) && k < |h.lasts|
    ensures |h.ends| == |h.lasts| && h.lasts[k] > 0 && h.lasts[k] % 8 == 0 && h.lasts[k] < h.ends[k]
    ensures (Used(h, h.lasts[k]) <==> k > 0) && PrevUsed(h, h.lasts[k])
    ensures h.lasts[k] !in h.chunks
  {
    hide Size, Used, PrevUsed, Foot, Followed, Apart, Tagged, Lonely, Fenced;
  }

  lemma LonelyAt(h: Layout, p: int)
    requires LayoutOk(h) && p in h.chunks && !Used(h, p)
    ensures PrevUsed(h, p) && Next(h, p) in h.chunks && Used(h, Next(h, p)) && Foot(h, Next(h, p)) == Size(h, p)
  {
    hide Size, Used, PrevUsed, Foot, Aligned, Followed, Apart, Bounded, Tagged, Backed, Fenced;
  }

  lemma BackedAt(h: Layout, p: int)
    requires LayoutOk(h) && p in h.chunks && !PrevUsed(h, p)
    ensures p - Foot(h, p) in h.chunks && Next(h, p - Foot(h, p)) == p && !Used(h, p - Foot(h, p))
  {
    hide Size, Used, PrevUsed, Foot, Aligned, Followed, Apart, Bounded, Tagged, Lonely, Fenced;
  }

  lemma PinnedAt(h: Layout, p: int)
    requires LayoutOk(h) && p in h.chunks
    ensures p in h.pinned ==> Used(h, p)
    ensures p !in h.pinned && Next(h, p) in h.lasts ==> Next(h, p) == h.lasts[0]
  {
    hide Next, Used, Aligned, Followed, Apart, Bounded, Tagged, Lonely, Backed;
  }

  // ---- changing the chunks of one run ----

  /** [lo, hi) is a run of whole chunks, none of them pinned, reaching no segment end. */
  ghost predicate Run(h: Layout, lo: int, hi: int) {
    && |h.lasts| == |h.ends| && |h.lasts| > 0
    && lo in h.chunks && lo < hi && hi % 8 == 0
    && (hi in h.chunks || hi == h.lasts[0])
    && (forall x :: x in h.chunks && lo <= x < hi ==> Next(h, x) <= hi)
    && (forall k :: 0 <= k < |h.lasts| ==> hi <= h.lasts[k] || h.ends[k] <= lo)
    && (forall x :: x in h.pinned ==> x < lo || hi <= x)
  }

  /** The chunks from lo to mid and, unless mid is hi, from mid to hi replace the run; u1 and u2 say which are in
      use. */
  ghost predicate Recut(h: Layout, g: Layout, lo: int, mid: int, hi: int, u1: bool, u2: bool) {
    && g.chunks == (set x | x in h.chunks && (x < lo || hi <= x)) + {lo} + (if mid < hi then {mid} else {})
    && g.lasts == h.lasts && g.ends == h.ends && g.pinned == h.pinned
    && Size(g, lo) == mid - lo && (Used(g, lo) <==> u1) && (PrevUsed(g, lo) <==> PrevUsed(h, lo))
         && Foot(g, lo) == Foot(h, lo)
    && (mid < hi ==>
          && Size(g, mid) == hi - mid && (Used(g, mid) <==> u2) && (PrevUsed(g, mid) <==> u1)
          && (!u1 ==> Foot(g, mid) == mid - lo))
    && Size(g, hi) == Size(h, hi) && (Used(g, hi) <==> Used(h, hi))
    && (PrevUsed(g, hi) <==> if mid < hi then u2 else u1)
    && (!PrevUsed(g, hi) ==> Foot(g, hi) == if mid < hi then hi - mid else hi - lo)
    && forall x :: x != lo && x != hi && !(lo < x < hi) ==>
      Size(g, x) == Size(h, x) && (Used(g, x) <==> Used(h, x)) && (PrevUsed(g, x) <==> PrevUsed(h, x))
          && Foot(g, x) == Foot(h, x)
  }

  /** Free chunks of the new cut must lie between chunks in use. */
  ghost predicate CutOk(h: Layout, lo: int, mid: int, hi: int, u1: bool, u2: bool) {
    && lo + MIN_CHUNK_SIZE <= mid && (mid == hi || mid + MIN_CHUNK_SIZE <= hi) && mid % 8 == 0
    && (!u1 ==> PrevUsed(h, lo))
    && (mid < hi && !u1 ==> u2)
    && (!(if mid < hi then u2 else u1) ==> hi in h.chunks && Used(h, hi))
  }

  /** A chunk after the cut: one of the new ones, or an old one beside the run. */
  lemma RecutChunk(h: Layout, g: Layout, lo: int, mid: int, hi: int, u1: bool, u2: bool, p: int)
    requires LayoutOk(h) && Run(h, lo, hi) && Recut(h, g, lo, mid, hi, u1, u2) && CutOk(h, lo, mid, hi, u1, u2)
    requires p in g.chunks
    ensures p == lo || (p == mid && mid < hi) || Beside(h, g, lo, hi, p)
    ensures Next(g, lo) == mid && (mid < hi ==> Next(g, mid) == hi) && 0 < lo < mid <= hi
  {
    hide LayoutOk, Size, Used, PrevUsed, Foot;
    AlignedAt(h, lo);
    if p in h.chunks && p != lo && !(p == mid && mid < hi) {
      AlignedAt(h, p);
      ApartAt(h, p, lo);
    }
  }

  /** p is an old chunk outside the run whose own fields did not change. */
  ghost predicate Beside(h: Layout, g: Layout, lo: int, hi: int, p: int) {
    && p in h.chunks && (p < lo || hi <= p) && Size(g, p) == Size(h, p) && (Used(g, p) <==> Used(h, p))
    && 0 < p < Next(h, p) && (Next(h, p) <= lo || hi <= p)
    && (p != hi ==> (PrevUsed(g, p) <==> PrevUsed(h, p)) && Foot(g, p) == Foot(h, p))
  }

  lemma RecutAlignedAt(h: Layout, g: Layout, lo: int, mid: int, hi: int, u1: bool, u2: bool, p: int)
    requires LayoutOk(h) && Run(h, lo, hi) && Recut(h, g, lo, mid, hi, u1, u2) && CutOk(h, lo, mid, hi, u1, u2)
    requires p in g.chunks
    ensures p > 0 && p % 8 == 0 && Size(g, p) >= MIN_CHUNK_SIZE
    ensures Next(g, p) in g.chunks || Next(g, p) in g.lasts
    ensures PrevUsed(g, Next(g, p)) <==> Used(g, p)
  {
    hide LayoutOk, Size, Used, PrevUsed, Foot;
    RecutChunk(h, g, lo, mid, hi, u1, u2, p);
    AlignedAt(h, lo);
    if Beside(h, g, lo, hi, p) {
      AlignedAt(h, p);
      FollowedAt(h, p);
    }
    assert hi in g.chunks || hi in g.lasts;
  }

  lemma RecutApartAt(h: Layout, g: Layout, lo: int, mid: int, hi: int, u1: bool, u2: bool, p: int, q: int)
    requires LayoutOk(h) && Run(h, lo, hi) && Recut(h, g, lo, mid, hi, u1, u2) && CutOk(h, lo, mid, hi, u1, u2)
    requires p in g.chunks && q in g.chunks && p < q
    ensures Next(g, p) <= q
  {
    hide LayoutOk, Size, Used, PrevUsed, Foot;
    RecutChunk(h, g, lo, mid, hi, u1, u2, p);
    RecutChunk(h, g, lo, mid, hi, u1, u2, q);
    if Beside(h, g, lo, hi, p) && Beside(h, g, lo, hi, q) {
      ApartAt(h, p, q);
    }
  }

  lemma RecutBounded(h: Layout, g: Layout, lo: int, mid: int, hi: int, u1: bool, u2: bool)
    requires LayoutOk(h) && Run(h, lo, hi) && Recut(h, g, lo, mid, hi, u1, u2) && CutOk(h, lo, mid, hi, u1, u2)
    ensures Bounded(g)
  {
    hide Size, Used, PrevUsed, Foot, Tagged, Lonely, Backed, Fenced, Followed;
  }

  lemma RecutLonelyAt(h: Layout, g: Layout, lo: int, mid: int, hi: int, u1: bool, u2: bool, p: int)
    requires LayoutOk(h) && Run(h, lo, hi) && Recut(h, g, lo, mid, hi, u1, u2) && CutOk(h, lo, mid, hi, u1, u2)
    requires p in g.chunks && !Used(g, p)
    ensures PrevUsed(g, p) && Next(g, p) in g.chunks && Used(g, Next(g, p)) && Foot(g, Next(g, p)) == Size(g, p)
  {
    hide LayoutOk, Size, Used, PrevUsed, Foot;
    RecutChunk(h, g, lo, mid, hi, u1, u2, p);
    RecutAlignedAt(h, g, lo, mid, hi, u1, u2, p);
    if Beside(h, g, lo, hi, p) {
      LonelyAt(h, p);
      FollowedAt(h, p);
      if Next(h, p) == lo { RecutFirst(h, g, lo, mid, hi, u1, u2, p); }
    }
  }

  /** If the chunk before the run is free, the first new chunk is in use. */
  lemma RecutFirst(h: Layout, g: Layout, lo: int, mid: int, hi: int, u1: bool, u2: bool, p: int)
    requires LayoutOk(h) && Run(h, lo, hi) && Recut(h, g, lo, mid, hi, u1, u2) && CutOk(h, lo, mid, hi, u1, u2)
    requires p in h.chunks && !Used(h, p) && Next(h, p) == lo
    ensures u1 && !PrevUsed(h, lo) && Foot(h, lo) == Size(h, p)
  {
    hide LayoutOk, Size, Used, PrevUsed, Foot;
    FollowedAt(h, p);
    LonelyAt(h, p);
  }

  lemma RecutBackedAt(h: Layout, g: Layout, lo: int, mid: int, hi: int, u1: bool, u2: bool, p: int)
    requires LayoutOk(h) && Run(h, lo, hi) && Recut(h, g, lo, mid, hi, u1, u2) && CutOk(h, lo, mid, hi, u1, u2)
    requires p in g.chunks && !PrevUsed(g, p)
    ensures p - Foot(g, p) in g.chunks && Next(g, p - Foot(g, p)) == p && !Used(g, p - Foot(g, p))
  {
    hide LayoutOk, Size, Used, PrevUsed, Foot;
    RecutChunk(h, g, lo, mid, hi, u1, u2, p);
    if p == lo || (p != hi && Beside(h, g, lo, hi, p)) {
      BackedAt(h, p);
      var q := p - Foot(h, p);
      AlignedAt(h, q);
      ApartAt(h, q, lo);
      ApartAt(h, lo, q);
      RunCovers(h, lo, hi, q);
    }
  }

  /** A chunk that ends behind the run starts behind it. */
  lemma RunCovers(h: Layout, lo: int, hi: int, q: int)
    requires LayoutOk(h) && Run(h, lo, hi) && q in h.chunks
    ensures Next(h, q) > hi ==> hi <= q
    ensures q < lo ==> Next(h, q) <= lo
  {
    hide LayoutOk, Size, Used, PrevUsed, Foot;
    ApartAt(h, q, lo);
  }

  lemma PinnedThere(h: Layout, p: int)
    requires LayoutOk(h) && p in h.pinned
    ensures p in h.chunks && Used(h, p)
  {
    hide Next, Used, Aligned, Followed, Apart, Bounded, Tagged, Lonely, Backed;
  }

  /** A run does not end at a fencepost. */
  lemma RunEnd(h: Layout, lo: int, hi: int, k: nat)
    requires LayoutOk(h) && Run(h, lo, hi) && k < |h.lasts| && lo < h.lasts[k] <= hi
    ensures k == 0
  {
    hide LayoutOk;
    LastAt(h, k);
    LastAt(h, 0);
  }

  lemma RecutFence(h: Layout, g: Layout, lo: int, mid: int, hi: int, u1: bool, u2: bool, p: int, k: nat)
    requires LayoutOk(h) && Run(h, lo, hi) && Recut(h, g, lo, mid, hi, u1, u2) && CutOk(h, lo, mid, hi, u1, u2)
    requires p in g.chunks && 1 <= k < |h.lasts| && Next(g, p) == h.lasts[k]
    ensures p in g.pinned
  {
    RecutChunk(h, g, lo, mid, hi, u1, u2, p);
    hide LayoutOk, Size, Used, PrevUsed, Foot, CutOk;
    if Beside(h, g, lo, hi, p) {
      PinnedAt(h, p);
      LastAt(h, k);
      LastAt(h, 0);
    } else {
      RunEnd(h, lo, hi, k);
    }
  }

  lemma RecutLast(h: Layout, g: Layout, lo: int, mid: int, hi: int, u1: bool, u2: bool, k: nat)
    requires LayoutOk(h) && Run(h, lo, hi) && Recut(h, g, lo, mid, hi, u1, u2) && CutOk(h, lo, mid, hi, u1, u2)
    requires k < |g.lasts|
    ensures PrevUsed(g, g.lasts[k])
  {
    hide LayoutOk, Size, Used, PrevUsed, Foot;
    LastAt(h, k);
    AlignedAt(h, lo);
  }

  lemma RecutPinned(h: Layout, g: Layout, lo: int, mid: int, hi: int, u1: bool, u2: bool, p: int)
    requires LayoutOk(h) && Run(h, lo, hi) && Recut(h, g, lo, mid, hi, u1, u2) && p in g.pinned
    ensures p in g.chunks && Used(g, p)
  {
    hide LayoutOk, Size, Used, PrevUsed, Foot;
    PinnedThere(h, p);
  }

  lemma RecutFenced(h: Layout, g: Layout, lo: int, mid: int, hi: int, u1: bool, u2: bool)
    requires LayoutOk(h) && Run(h, lo, hi) && Recut(h, g, lo, mid, hi, u1, u2) && CutOk(h, lo, mid, hi, u1, u2)
    ensures Fenced(g) && forall k :: 0 <= k < |g.lasts| ==> PrevUsed(g, g.lasts[k])
  {
    assert g.lasts == h.lasts;
    hide LayoutOk, Run, Recut, CutOk, Size, Used, PrevUsed, Foot, Next;
    forall p | p in g.pinned
      ensures p in g.chunks && Used(g, p)
    {
      RecutPinned(h, g, lo, mid, hi, u1, u2, p);
    }
    forall p, k | p in g.chunks && 1 <= k < |g.lasts| && Next(g, p) == g.lasts[k]
      ensures p in g.pinned
    {
      RecutFence(h, g, lo, mid, hi, u1, u2, p, k);
    }
    forall k | 0 <= k < |g.lasts|
      ensures PrevUsed(g, g.lasts[k])
    {
      RecutLast(h, g, lo, mid, hi, u1, u2, k);
    }
  }

  /** Any such new cut of a run keeps the whole layout in order. */
  lemma RecutOk(h: Layout, g: Layout, lo: int, mid: int, hi: int, u1: bool, u2: bool)
    requires LayoutOk(h) && Run(h, lo, hi) && Recut(h, g, lo, mid, hi, u1, u2) && CutOk(h, lo, mid, hi, u1, u2)
    ensures LayoutOk(g)
  {
    hide LayoutOk, Run, Recut, CutOk, Size, Used, PrevUsed, Foot, Fenced, Bounded;
    forall p | p in g.chunks
      ensures p > 0 && p % 8 == 0 && Size(g, p) >= MIN_CHUNK_SIZE && (Next(g, p) in g.chunks || Next(g, p) in g.lasts)
      ensures PrevUsed(g, Next(g, p)) <==> Used(g, p)
    {
      RecutAlignedAt(h, g, lo, mid, hi, u1, u2, p);
    }
    forall p, q | p in g.chunks && q in g.chunks && p < q
      ensures Next(g, p) <= q
    {
      RecutApartAt(h, g, lo, mid, hi, u1, u2, p, q);
    }
    forall p | p in g.chunks && !Used(g, p)
      ensures PrevUsed(g, p) && Next(g, p) in g.chunks && Used(g, Next(g, p)) && Foot(g, Next(g, p)) == Size(g, p)
    {
      RecutLonelyAt(h, g, lo, mid, hi, u1, u2, p);
    }
    forall p | p in g.chunks && !PrevUsed(g, p)
      ensures p - Foot(g, p) in g.chunks && Next(g, p - Foot(g, p)) == p && !Used(g, p - Foot(g, p))
    {
      RecutBackedAt(h, g, lo, mid, hi, u1, u2, p);
    }
    RecutBounded(h, g, lo, mid, hi, u1, u2);
    RecutFenced(h, g, lo, mid, hi, u1, u2);
    MakeOk(g);
  }

  lemma MakeOk(g: Layout)
    requires Aligned(g) && Followed(g) && Apart(g) && Bounded(g) && Tagged(g) && Lonely(g) && Fenced(g)
    requires forall p :: p in g.chunks && !PrevUsed(g, p) ==>
          p - Foot(g, p) in g.chunks && Next(g, p - Foot(g, p)) == p && !Used(g, p - Foot(g, p))
    requires forall k :: 0 <= k < |g.lasts| ==> PrevUsed(g, g.lasts[k])
    ensures LayoutOk(g)
  {
    hide Size, Used, PrevUsed, Foot;
  }

  // ---- moving the top chunk ----

  /** Everything from lo to the end of the first segment can become top: lo is top itself or begins a run that ends
      there. */
  ghost predicate TopRun(h: Layout, lo: int) {
    && |h.lasts| == |h.ends| && |h.lasts| > 0 && lo > 0 && lo % 8 == 0 && lo <= h.lasts[0]
    && (lo == h.lasts[0] || lo in h.chunks)
    && (forall x :: x in h.chunks && lo <= x < h.ends[0] ==> Next(h, x) <= h.lasts[0])
    && (forall k :: 1 <= k < |h.lasts| ==> h.ends[k] <= lo || h.ends[0] <= h.lasts[k])
    && (forall x :: x in h.pinned ==> x < lo || h.ends[0] <= x)
  }

  /** Top now begins at mid; a chunk in use lies between lo and mid unless they are the same. */
  ghost predicate TopCut(h: Layout, g: Layout, lo: int, mid: int)
    requires |h.lasts| > 0 && |h.ends| > 0
  {
    && g.chunks == (set x | x in h.chunks && (x < lo || h.ends[0] <= x)) + (if lo < mid then {lo} else {})
    && g.lasts == h.lasts[0 := mid] && g.ends == h.ends && g.pinned == h.pinned
    && (lo == mid || lo + MIN_CHUNK_SIZE <= mid) && mid % 8 == 0 && mid < h.ends[0]
    && (lo < mid ==>
         Size(g, lo) == mid - lo && Used(g, lo) && (PrevUsed(g, lo) <==> PrevUsed(h, lo)) && Foot(g, lo) == Foot(h, lo))
    && (lo == mid ==> PrevUsed(h, lo))
    && !Used(g, mid) && PrevUsed(g, mid)
    && forall x :: x != lo && x != mid && !(lo < x < h.ends[0]) ==>
      Size(g, x) == Size(h, x) && (Used(g, x) <==> Used(h, x)) && (PrevUsed(g, x) <==> PrevUsed(h, x))
          && Foot(g, x) == Foot(h, x)
  }

  ghost predicate Aside(h: Layout, g: Layout, lo: int, hi: int, p: int) {
    && p in h.chunks && (p < lo || hi <= p) && Size(g, p) == Size(h, p) && (Used(g, p) <==> Used(h, p))
    && 0 < p < Next(h, p) && (Next(h, p) <= lo || hi <= p)
    && (PrevUsed(g, p) <==> PrevUsed(h, p)) && Foot(g, p) == Foot(h, p)
  }

  lemma TopRunCovers(h: Layout, lo: int, q: int)
    requires LayoutOk(h) && TopRun(h, lo) && q in h.chunks
    ensures q < lo ==> Next(h, q) <= lo
    ensures q < lo || q >= h.ends[0] || Next(h, q) <= h.lasts[0]
    ensures 0 < q < Next(h, q)
  {
    hide LayoutOk, Size, Used, PrevUsed, Foot;
    AlignedAt(h, q);
    if lo in h.chunks {
      ApartAt(h, q, lo);
    } else {
      BoundedAt(h, q, 0);
      LastAt(h, 0);
    }
  }

  lemma TopChunk(h: Layout, g: Layout, lo: int, mid: int, p: int)
    requires LayoutOk(h) && TopRun(h, lo) && TopCut(h, g, lo, mid)
    requires p in g.chunks
    ensures (p == lo && lo < mid && Next(g, lo) == mid) || Aside(h, g, lo, h.ends[0], p)
  {
    hide LayoutOk, Size, Used, PrevUsed, Foot;
    if p in h.chunks { TopRunCovers(h, lo, p); }
  }

  lemma TopAlignedAt(h: Layout, g: Layout, lo: int, mid: int, p: int)
    requires LayoutOk(h) && TopRun(h, lo) && TopCut(h, g, lo, mid)
    requires p in g.chunks
    ensures p > 0 && p % 8 == 0 && Size(g, p) >= MIN_CHUNK_SIZE
    ensures Next(g, p) in g.chunks || Next(g, p) in g.lasts
    ensures PrevUsed(g, Next(g, p)) <==> Used(g, p)
  {
    hide LayoutOk, Size, Used, PrevUsed, Foot;
    TopChunk(h, g, lo, mid, p);
    assert mid == g.lasts[0];
    if Aside(h, g, lo, h.ends[0], p) {
      AlignedAt(h, p);
      FollowedAt(h, p);
      TopNext(h, lo, p);
      if Next(h, p) in h.lasts {
        var k :| 0 <= k < |h.lasts| && h.lasts[k] == Next(h, p);
        assert k > 0 ==> g.lasts[k] == Next(h, p);
      }
    }
  }

  /** What follows a chunk beside the run is outside the run too. */
  lemma TopNext(h: Layout, lo: int, p: int)
    requires LayoutOk(h) && TopRun(h, lo) && p in h.chunks && (p < lo || h.ends[0] <= p)
    ensures Next(h, p) <= lo || h.ends[0] < Next(h, p)
    ensures Next(h, p) == h.lasts[0] ==> lo == h.lasts[0]
    ensures Next(h, p) == lo && lo != h.lasts[0] ==> lo in h.chunks
  {
    hide LayoutOk, Size, Used, PrevUsed, Foot;
    TopRunCovers(h, lo, p);
    LastAt(h, 0);
  }

  lemma TopApartAt(h: Layout, g: Layout, lo: int, mid: int, p: int, q: int)
    requires LayoutOk(h) && TopRun(h, lo) && TopCut(h, g, lo, mid)
    requires p in g.chunks && q in g.chunks && p < q
    ensures Next(g, p) <= q
  {
    hide LayoutOk, Size, Used, PrevUsed, Foot;
    TopChunk(h, g, lo, mid, p);
    TopChunk(h, g, lo, mid, q);
    if Aside(h, g, lo, h.ends[0], p) && Aside(h, g, lo, h.ends[0], q) {
      ApartAt(h, p, q);
    }
  }

  lemma TopBoundedAt(h: Layout, g: Layout, lo: int, mid: int, p: int, k: nat)
    requires LayoutOk(h) && TopRun(h, lo) && TopCut(h, g, lo, mid) && p in g.chunks && k < |g.lasts|
    ensures Next(g, p) <= g.lasts[k] || g.ends[k] <= p
  {
    TopChunk(h, g, lo, mid, p);
    hide LayoutOk, Size, Used, PrevUsed, Foot;
    LastAt(h, k);
    LastAt(h, 0);
    if p in h.chunks { BoundedAt(h, p, k); }
  }

  lemma TopEndAt(h: Layout, g: Layout, lo: int, mid: int, k: nat)
    requires LayoutOk(h) && TopRun(h, lo) && TopCut(h, g, lo, mid) && k < |g.lasts|
    ensures g.lasts[k] > 0 && g.lasts[k] % 8 == 0 && g.lasts[k] < g.ends[k] && (Used(g, g.lasts[k]) <==> k > 0)
    ensures k > 0 ==> g.ends[0] <= g.lasts[k] || g.ends[k] <= g.lasts[0]
  {
    hide LayoutOk, Size, Used, PrevUsed, Foot;
    LastAt(h, k);
    LastAt(h, 0);
  }

  lemma LastsApart(h: Layout, j: nat, k: nat)
    requires LayoutOk(h) && j < |h.lasts| && k < |h.lasts| && j != k
    ensures |h.ends| == |h.lasts| && (h.ends[j] <= h.lasts[k] || h.ends[k] <= h.lasts[j])
  {
    hide Next, Used, Aligned, Followed, Apart, Tagged, Lonely, Backed, Fenced;
  }

  lemma TopEnds(h: Layout, g: Layout, lo: int, mid: int)
    requires LayoutOk(h) && TopRun(h, lo) && TopCut(h, g, lo, mid)
    ensures |g.lasts| == |g.ends| && |g.lasts| > 0
    ensures forall k :: 0 <= k < |g.lasts| ==>
              g.lasts[k] > 0 && g.lasts[k] % 8 == 0 && g.lasts[k] < g.ends[k] && (Used(g, g.lasts[k]) <==> k > 0)
  {
    assert g.lasts == h.lasts[0 := mid] && g.ends == h.ends && |h.lasts| == |h.ends|;
    hide LayoutOk, TopRun, TopCut, Size, Used, PrevUsed, Foot, Next;
    forall k | 0 <= k < |g.lasts|
      ensures g.lasts[k] > 0 && g.lasts[k] % 8 == 0 && g.lasts[k] < g.ends[k] && (Used(g, g.lasts[k]) <==> k > 0)
    {
      TopEndAt(h, g, lo, mid, k);
    }
  }

  lemma TopApartEnds(h: Layout, g: Layout, lo: int, mid: int)
    requires LayoutOk(h) && TopRun(h, lo) && TopCut(h, g, lo, mid)
    ensures |g.lasts| == |g.ends|
    ensures forall j, k :: 0 <= j < |g.lasts| && 0 <= k < |g.lasts| && j != k ==>
              g.ends[j] <= g.lasts[k] || g.ends[k] <= g.lasts[j]
  {
    assert g.lasts == h.lasts[0 := mid] && g.ends == h.ends && |h.lasts| == |h.ends|;
    hide LayoutOk, TopRun, TopCut, Size, Used, PrevUsed, Foot, Next;
    forall j, k | 0 <= j < |g.lasts| && 0 <= k < |g.lasts| && j != k
      ensures g.ends[j] <= g.lasts[k] || g.ends[k] <= g.lasts[j]
    {
      TopEndAt(h, g, lo, mid, j);
      TopEndAt(h, g, lo, mid, k);
      LastsApart(h, j, k);
    }
  }

  lemma TopInside(h: Layout, g: Layout, lo: int, mid: int)
    requires LayoutOk(h) && TopRun(h, lo) && TopCut(h, g, lo, mid)
    ensures |g.lasts| == |g.ends|
    ensures forall p, k :: p in g.chunks && 0 <= k < |g.lasts| ==> Next(g, p) <= g.lasts[k] || g.ends[k] <= p
  {
    assert g.lasts == h.lasts[0 := mid] && g.ends == h.ends && |h.lasts| == |h.ends|;
    hide LayoutOk, TopRun, TopCut, Size, Used, PrevUsed, Foot, Next;
    forall p, k | p in g.chunks && 0 <= k < |g.lasts|
      ensures Next(g, p) <= g.lasts[k] || g.ends[k] <= p
    {
      TopBoundedAt(h, g, lo, mid, p, k);
    }
  }

  lemma TopBounded(h: Layout, g: Layout, lo: int, mid: int)
    requires LayoutOk(h) && TopRun(h, lo) && TopCut(h, g, lo, mid)
    ensures Bounded(g)
  {
    hide LayoutOk, TopRun, TopCut, Size, Used, PrevUsed, Foot, Next;
    TopEnds(h, g, lo, mid);
    TopApartEnds(h, g, lo, mid);
    TopInside(h, g, lo, mid);
  }

  lemma TopLonelyAt(h: Layout, g: Layout, lo: int, mid: int, p: int)
    requires LayoutOk(h) && TopRun(h, lo) && TopCut(h, g, lo, mid)
    requires p in g.chunks && !Used(g, p)
    ensures PrevUsed(g, p) && Next(g, p) in g.chunks && Used(g, Next(g, p)) && Foot(g, Next(g, p)) == Size(g, p)
  {
    hide LayoutOk, Size, Used, PrevUsed, Foot;
    TopChunk(h, g, lo, mid, p);
    LonelyAt(h, p);
    FollowedAt(h, p);
    TopNext(h, lo, p);
    LastAt(h, 0);
    TopRunCovers(h, lo, Next(h, p));
  }

  lemma TopBackedAt(h: Layout, g: Layout, lo: int, mid: int, p: int)
    requires LayoutOk(h) && TopRun(h, lo) && TopCut(h, g, lo, mid)
    requires p in g.chunks && !PrevUsed(g, p)
    ensures p - Foot(g, p) in g.chunks && Next(g, p - Foot(g, p)) == p && !Used(g, p - Foot(g, p))
  {
    hide LayoutOk, Size, Used, PrevUsed, Foot;
    TopChunk(h, g, lo, mid, p);
    LastAt(h, 0);
    BackedAt(h, p);
    var q := p - Foot(h, p);
    AlignedAt(h, q);
    TopRunCovers(h, lo, q);
  }

  lemma TopFenced(h: Layout, g: Layout, lo: int, mid: int)
    requires LayoutOk(h) && TopRun(h, lo) && TopCut(h, g, lo, mid)
    ensures Fenced(g) && forall k :: 0 <= k < |g.lasts| ==> PrevUsed(g, g.lasts[k])
  {
    hide Size, Used, PrevUsed, Foot, Lonely, Tagged, Followed;
  }

  /** Moving top, with or without a chunk cut off in front of it, keeps the layout in order. */
  lemma TopCutOk(h: Layout, g: Layout, lo: int, mid: int)
    requires LayoutOk(h) && TopRun(h, lo) && TopCut(h, g, lo, mid)
    ensures LayoutOk(g)
  {
    hide LayoutOk, TopRun, TopCut, Size, Used, PrevUsed, Foot, Fenced, Bounded;
    forall p | p in g.chunks
      ensures p > 0 && p % 8 == 0 && Size(g, p) >= MIN_CHUNK_SIZE && (Next(g, p) in g.chunks || Next(g, p) in g.lasts)
      ensures PrevUsed(g, Next(g, p)) <==> Used(g, p)
    {
      TopAlignedAt(h, g, lo, mid, p);
    }
    forall p, q | p in g.chunks && q in g.chunks && p < q
      ensures Next(g, p) <= q
    {
      TopApartAt(h, g, lo, mid, p, q);
    }
    forall p | p in g.chunks && !Used(g, p)
      ensures PrevUsed(g, p) && Next(g, p) in g.chunks && Used(g, Next(g, p)) && Foot(g, Next(g, p)) == Size(g, p)
    {
      TopLonelyAt(h, g, lo, mid, p);
    }
    forall p | p in g.chunks && !PrevUsed(g, p)
      ensures p - Foot(g, p) in g.chunks && Next(g, p - Foot(g, p)) == p && !Used(g, p - Foot(g, p))
    {
      TopBackedAt(h, g, lo, mid, p);
    }
    TopBounded(h, g, lo, mid);
    TopFenced(h, g, lo, mid);
    MakeOk(g);
  }
}
