/** tmalloc's search for the best-fitting chunk over all tree bins. */
module TreeFit {
  import opened Bytes
  import opened Words
  import opened BinMaps
  import opened TreeIndex
  import opened TrieKeys
  import opened Tries
  import opened TreeLinks
  import opened TreeSearch
  import opened TreeBins

  ghost predicate Within(u: Tree, t: Tree) {
    forall a :: a in View(u) ==> a in View(t) && View(t)[a] == View(u)[a]
  }

  lemma ChildWithin(u: Tree, right: bool)
    requires Proper(u) && u.Node?
    ensures Within(ChildTree(u, right), u)
  {
    ViewKeys(u.left);
    ViewKeys(u.right);
    RingKeys(u.ring, u.size);
    hide Elems, GoodRing, RingView;
  }

  lemma SubProper(u: Tree, cur: int, lo: nat, w: nat, l: Links, heads: map<int, word>)
    requires Subtree(u, cur, lo, w, l, heads)
    ensures Proper(u) && Trie(u, lo, w)
  {
  }

  /** v is a chunk of t that exceeds nb by rsize. */
  ghost predicate FitIn(t: Tree, v: int, nb: nat, rsize: nat) {
    v in View(t) && View(t)[v] == nb + rsize
  }

  /** Facts at one visited node, for both loops. */
  lemma WithinAt(u: Tree, t: Tree, a: int)
    requires Within(u, t) && a in View(u)
    ensures a in View(t) && View(t)[a] == View(u)[a]
  {
    hide View;
  }

  lemma Visit(t: Tree, u: Tree, cur: int, lo: nat, w: nat, l: Links, heads: map<int, word>, nb: word, rsize: nat)
    requires Subtree(u, cur, lo, w, l, heads) && u.Node? && Within(u, t) && 0 < nb && rsize <= TWO_32 - nb
    ensures ChunkSize(HeadAt(heads, cur)) == u.size < TWO_32
    ensures var trem := Sub(u.size, nb);
            if trem < rsize then trem == u.size - nb && FitIn(t, cur, nb, trem)
            else nb <= u.size ==> nb + rsize <= u.size
  {
    hide Subtree, Within, View;
    SubSize(u, cur, lo, w, l, heads);
    SizeInWord(HeadAt(heads, cur));
    hide ChunkSize, HeadAt;
    WithinAt(u, t, cur);
    Remainder(u.size, nb, rsize);
  }

  lemma SizeInWord(head: word)
    ensures ChunkSize(head) < TWO_32
  {
  }

  lemma LeftmostChild(t: Tree, u: Tree, cur: int, lo: nat, w: nat, l: Links, heads: map<int, word>)
    returns (lo': nat, w': nat)
    requires Subtree(u, cur, lo, w, l, heads) && u.Node? && Within(u, t)
    ensures var v := if u.left.Node? then u.left else u.right;
            var c := if Child(l, cur, false) != 0 then Child(l, cur, false) else Child(l, cur, true);
            Subtree(v, c, lo', w', l, heads) && Within(v, t) && (c != 0 <==> v.Node?)
  {
    hide Child, Subtree, Within, Proper, Trie, Half, View;
    if w > 0 {
      SubChild(u, cur, lo, w, l, heads, false);
      SubSize(u.left, Child(l, cur, false), Half(lo, w, false), w - 1, l, heads);
      SubProper(u, cur, lo, w, l, heads);
      var right := u.left.Leaf?;
      SubChild(u, cur, lo, w, l, heads, right);
      ChildWithin(u, right);
      WithinBoth(ChildTree(u, right), u, t);
      lo', w' := Half(lo, w, right), w - 1;
      SubSize(ChildTree(u, right), Child(l, cur, right), lo', w', l, heads);
    } else {
      NoChildren(u, cur, lo, w, l, heads);
      WithinNone(t);
      lo', w' := lo, w;
    }
  }

  lemma WithinBoth(v: Tree, u: Tree, t: Tree)
    requires Within(v, u) && Within(u, t)
    ensures Within(v, t)
  {
    hide View;
  }

  lemma WithinNone(t: Tree)
    ensures Within(Leaf, t)
  {
  }

  lemma NoChildren(u: Tree, cur: int, lo: nat, w: nat, l: Links, heads: map<int, word>)
    requires Subtree(u, cur, lo, w, l, heads) && u.Node? && w == 0
    ensures u.left.Leaf? && u.right.Leaf? && Child(l, cur, false) == 0 && Child(l, cur, true) == 0
    ensures forall lo0, w0 :: w0 <= 32 ==> Subtree(Leaf, 0, lo0, w0, l, heads)
  {
    assert Shape(Leaf, 0, l);
  }

  /** Finds the smallest chunk of a tree or subtree along its leftmost path. */
  method LeastBelow(heads: map<int, word>, l: Links, t0: int, nb: word, v0: int, r0: nat,
                    ghost all: set<nat>, ghost t: Tree, ghost lo0: nat, ghost w0: nat)
    returns (v: int, rsize: nat)
    requires Subtree(t, t0, lo0, w0, l, heads) && 0 < nb && r0 <= TWO_32 - nb
    requires Narrowed(all, t, nb, r0) && (r0 == 0 || AllAtLeast(t, nb))
    ensures (v == v0 && rsize == r0) || FitIn(t, v, nb, rsize)
    ensures rsize <= r0 && forall s :: s in all && nb <= s ==> nb + rsize <= s
  {
    hide Subtree, HeadAt, ChunkSize, Child, View, Within, FitIn, Narrowed, AllAtLeast, Sub;
    v, rsize := v0, r0;
    var cur := t0;
    ghost var u, lo: nat, w: nat := t, lo0, w0;
    WithinSelf(t);
    SubSize(t, t0, lo0, w0, l, heads);
    while cur != 0
      invariant Subtree(u, cur, lo, w, l, heads) && Within(u, t) && (cur != 0 <==> u.Node?)
      invariant rsize <= r0 && ((v == v0 && rsize == r0) || FitIn(t, v, nb, rsize))
      invariant Narrowed(all, u, nb, rsize) && (rsize == 0 || AllAtLeast(u, nb))
      decreases u
    {
      Visit(t, u, cur, lo, w, l, heads, nb, rsize);
      ghost var before := rsize;
      var trem := Sub(ChunkSize(HeadAt(heads, cur)), nb);
      if trem < rsize {
        rsize := trem;
        v := cur;
      }
      SubProper(u, cur, lo, w, l, heads);
      LeftmostStep(all, u, nb, before, rsize, lo, w);
      ghost var lo', w' := LeftmostChild(t, u, cur, lo, w, l, heads);
      cur := if Child(l, cur, false) != 0 then Child(l, cur, false) else Child(l, cur, true);
      u, lo, w := if u.left.Node? then u.left else u.right, lo', w';
    }
    NarrowedEnd(all, u, nb, rsize);
  }

  lemma WithinSelf(t: Tree)
    ensures Within(t, t)
  {
  }

  lemma NarrowedEnd(all: set<nat>, u: Tree, nb: nat, rsize: nat)
    requires Narrowed(all, u, nb, rsize) && u.Leaf?
    ensures forall s :: s in all && nb <= s ==> nb + rsize <= s
  {
  }

  /** Going down: what is passed by on the left is too small, what is passed by on the right is kept in mind. */
  lemma DescendStep(all: set<nat>, u: Tree, rst: Tree, nb: nat, rsize: nat, rsize': nat, lo: nat, w: nat, right: bool)
    requires u.Node? && 0 < w && Trie(u, lo, w) && lo <= nb < lo + Pow2(w)
    requires Descending(all, u, rst, nb, rsize, lo + Pow2(w)) && rsize' <= rsize
    requires nb <= u.size ==> nb + rsize' <= u.size
    requires right <==> nb >= lo + Pow2(w - 1)
    ensures Descending(all, ChildTree(u, right), if !right && u.right.Node? then u.right else rst, nb, rsize',
                       Half(lo, w, right) + Pow2(w - 1))
  {
    hide Descending, Trie;
    PowHalf(w);
    if right {
      DescendRight(all, u, rst, nb, rsize, rsize', lo, w);
    } else {
      DescendLeft(all, u, rst, nb, rsize, rsize', lo, w);
    }
  }

  lemma DescendStart(t: Tree, nb: nat, rsize: nat, hi: nat)
    ensures Descending(Sizes(t), t, Leaf, nb, rsize, hi)
  {
  }

  lemma ExactFit(all: set<nat>, u: Tree, nb: nat)
    ensures Narrowed(all, u, nb, 0)
  {
  }

  lemma PathParts(u: Tree, cur: int, lo: nat, w: nat, l: Links, heads: map<int, word>, s: nat, k: word)
    requires OnPath(u, cur, lo, w, l, heads, s, k)
    ensures Subtree(u, cur, lo, w, l, heads) && lo <= s < lo + Pow2(w) && Proper(u) && Trie(u, lo, w)
    ensures cur != 0 <==> u.Node?
  {
    SubSize(u, cur, lo, w, l, heads);
  }

  /** The right child differs from the child on the path exactly when the path goes left and there is one. */
  lemma OtherChild(u: Tree, cur: int, lo: nat, w: nat, l: Links, heads: map<int, word>, right: bool)
    requires Subtree(u, cur, lo, w, l, heads) && u.Node? && 0 < w
    ensures Child(l, cur, true) != 0 && Child(l, cur, true) != Child(l, cur, right) <==> !right && u.right.Node?
    ensures Subtree(u.right, Child(l, cur, true), Half(lo, w, true), w - 1, l, heads)
  {
    SubChild(u, cur, lo, w, l, heads, false);
    SubChild(u, cur, lo, w, l, heads, true);
    hide Child;
    RootsDiffer(u, cur, lo, w, l, heads);
  }

  lemma RootsDiffer(u: Tree, cur: int, lo: nat, w: nat, l: Links, heads: map<int, word>)
    requires Subtree(u, cur, lo, w, l, heads) && u.Node? && 0 < w
    requires Subtree(u.left, Child(l, cur, false), Half(lo, w, false), w - 1, l, heads)
    requires Subtree(u.right, Child(l, cur, true), Half(lo, w, true), w - 1, l, heads)
    ensures Child(l, cur, true) != 0 <==> u.right.Node?
    ensures u.right.Node? ==> Child(l, cur, true) != Child(l, cur, false)
  {
    hide Child, Sized, Shape;
    TreeUnlink.RootOf(u.left);
    TreeUnlink.RootOf(u.right);
  }

  /** The walk of tmalloc_large through the bin of nb itself. */
  method DescendBin(heads: map<int, word>, l: Links, root: int, nb: word, i: nat, ghost t: Tree)
    returns (v: int, rsize: nat, next: int, ghost n: Tree, ghost nlo: nat, ghost nw: nat)
    requires InBin(nb, i) && i < NTREEBINS && t.Node? && Subtree(t, root, BinLow(i), BinBits(i), l, heads)
    ensures rsize <= TWO_32 - nb
    ensures (v == 0 && rsize == TWO_32 - nb) || FitIn(t, v, nb, rsize)
    ensures Subtree(n, next, nlo, nw, l, heads) && Within(n, t)
    ensures Narrowed(Sizes(t), n, nb, rsize) && (rsize == 0 || AllAtLeast(n, nb))
  {
    hide InBin, BinLow, BinBits, Subtree, Key, GoesRight, Shl, ComputeTreeIndex, ChunkSize, HeadAt, Pow2, Child, OnPath,
      Within, FitIn, View, Narrowed, AllAtLeast, Descending, Sub, Proper, Trie, Half;
    PathStart(t, root, l, heads, nb, i);
    v, rsize := 0, TWO_32 - nb;
    var cur := root;
    var k := Shl(nb, LeftShift(i));
    var rst := 0;
    ghost var u, lo: nat, w: nat := t, BinLow(i), BinBits(i);
    ghost var r, rlo: nat, rw: nat := Leaf, 0, 0;
    WithinSelf(t);
    LeafSubtree(t, l, heads);
    DescendStart(t, nb, rsize, lo + Pow2(w));
    BigEnough(nb, i);
    while true
      invariant u.Node? && OnPath(u, cur, lo, w, l, heads, nb, k) && Within(u, t)
      invariant Subtree(r, rst, rlo, rw, l, heads) && Within(r, t)
      invariant Descending(Sizes(t), u, r, nb, rsize, lo + Pow2(w))
      invariant 0 < rsize <= TWO_32 - nb && ((v == 0 && rsize == TWO_32 - nb) || FitIn(t, v, nb, rsize))
      decreases u
    {
      PathParts(u, cur, lo, w, l, heads, nb, k);
      Visit(t, u, cur, lo, w, l, heads, nb, rsize);
      ghost var before := rsize;
      var trem := Sub(ChunkSize(HeadAt(heads, cur)), nb);
      if trem < rsize {
        v := cur;
        rsize := trem;
        if rsize == 0 {
          ExactFit(Sizes(t), u, nb);
          return v, rsize, cur, u, lo, w;
        }
      }
      PathStep(u, cur, lo, w, l, heads, nb, k);
      var right := GoesRight(k);
      ghost var c := ChildTree(u, right);
      OtherChild(u, cur, lo, w, l, heads, right);
      DescendStep(Sizes(t), u, r, nb, before, rsize, lo, w, right);
      ChildWithin(u, right);
      ChildWithin(u, true);
      WithinTrans(c, u, t);
      WithinTrans(u.right, u, t);
      var rt := Child(l, cur, true);
      cur := Child(l, cur, right);
      if rt != 0 && rt != cur {
        rst := rt;
        r, rlo, rw := u.right, Half(lo, w, true), w - 1;
      }
      PathParts(c, cur, Half(lo, w, right), w - 1, l, heads, nb, Shl(k, 1));
      if cur == 0 {
        DescendEnd(Sizes(t), r, nb, rsize, Half(lo, w, right) + Pow2(w - 1));
        return v, rsize, rst, r, rlo, rw;
      }
      k := Shl(k, 1);
      u, lo, w := c, Half(lo, w, right), w - 1;
    }
  }

  lemma WithinTrans(a: Tree, b: Tree, c: Tree)
    requires Within(a, b) && Within(b, c)
    ensures Within(a, c)
  {
  }

  lemma LeafSubtree(t: Tree, l: Links, heads: map<int, word>)
    ensures Subtree(Leaf, 0, 0, 0, l, heads) && Within(Leaf, t)
  {
    assert Shape(Leaf, 0, l);
  }

  lemma BigEnough(nb: nat, i: nat)
    requires InBin(nb, i)
    ensures 0 < nb
  {
  }

  // ---- over all bins ----

  lemma {:induction false} MinSizeMonotone(i: nat, j: nat)
    requires i <= j
    ensures MinSize(i) <= MinSize(j)
  {
    hide MinSize;
    if i < j {
      MinSizeMonotone(i, j - 1);
      MinSizeSum(j - 1);
      MinSizeSum(j);
    }
  }

  /** Bins are ordered by size. */
  lemma BinsOrdered(s: nat, i: nat, s': nat, j: nat)
    requires InBin(s, i) && InBin(s', j) && i < j
    ensures s < s'
  {
    hide ComputeTreeIndex, MinSize;
    IndexBracketsSize(s);
    IndexBracketsSize(s');
    MinSizeMonotone(i + 1, j);
  }

  /** v is the best fit for nb among all recorded chunks, or 0 when none is large enough. */
  ghost predicate BestFit(view: map<int, nat>, v: int, nb: nat, rsize: nat) {
    if v == 0 then forall a :: a in view ==> view[a] < nb
    else v in view && view[v] == nb + rsize && forall a :: a in view && nb <= view[a] ==> view[v] <= view[a]
  }

  lemma ChunkInBin(trees: seq<Tree>, treemap: word, roots: seq<int>, l: Links, index: map<int, int>, a: int)
          returns (j: nat)
    requires BinsOk(trees, treemap, roots, l, index) && a in Views(trees)
    ensures j < NTREEBINS && a in View(trees[j]) && View(trees[j])[a] == Views(trees)[a]
    ensures Views(trees)[a] in Sizes(trees[j]) && InBin(Views(trees)[a], j) && Marked(treemap, j)
  {
    hide Shape, Trie, Marked, InBin, Proper;
    j := ViewsFind(trees, a);
    assert BinOk(trees[j], j, Marked(treemap, j), roots[j], l, index);
    ViewSizes(trees[j], a);
    ViewKeys(trees[j]);
  }

  lemma BinAt(trees: seq<Tree>, treemap: word, roots: seq<int>, l: Links, index: map<int, int>, i: nat, s: nat)
    requires BinsOk(trees, treemap, roots, l, index) && i < NTREEBINS && s in Sizes(trees[i])
    ensures |trees| == NTREEBINS && InBin(s, i)
  {
    hide Shape, Trie, Marked, InBin, Proper;
    assert BinOk(trees[i], i, Marked(treemap, i), roots[i], l, index);
  }

  lemma FitInViews(trees: seq<Tree>, treemap: word, roots: seq<int>, l: Links, index: map<int, int>, i: nat, v: int,
          nb: nat, rsize: nat)
    requires BinsOk(trees, treemap, roots, l, index) && i < NTREEBINS && FitIn(trees[i], v, nb, rsize)
    ensures v > 0 && v in Views(trees) && Views(trees)[v] == nb + rsize
    ensures nb + rsize in Sizes(trees[i]) && InBin(nb + rsize, i)
  {
    hide BinsOk, Views, View, Chunks, Sizes, InBin;
    BinCount(trees, treemap, roots, l, index);
    ViewKeys(trees[i]);
    ViewSizes(trees[i], v);
    BinAt(trees, treemap, roots, l, index, i, nb + rsize);
    OneBinOnly(trees, treemap, roots, l, index, i, v);
    ViewsAt(trees, i, v);
  }

  lemma NotBeaten(trees: seq<Tree>, treemap: word, roots: seq<int>, l: Links, index: map<int, int>,
                  nb: nat, idx: nat, i: nat, rsize: nat, a: int)
    requires BinsOk(trees, treemap, roots, l, index) && InBin(nb, idx) && idx <= i < NTREEBINS && |trees| == NTREEBINS
    requires InBin(nb + rsize, i)
    requires forall s :: s in Sizes(trees[i]) && nb <= s ==> nb + rsize <= s
    requires forall j :: idx <= j < i ==> AllBelow(trees[j], nb)
    requires a in Views(trees) && nb <= Views(trees)[a]
    ensures nb + rsize <= Views(trees)[a]
  {
    hide InBin, BinsOk, Marked, AllBelow, Views, View, Sizes;
    var j := ChunkInBin(trees, treemap, roots, l, index, a);
    var s := Views(trees)[a];
    if j < idx {
      BinsOrdered(s, j, nb, idx);
    } else if i < j {
      BinsOrdered(nb + rsize, i, s, j);
    } else if j < i {
      BelowAll(trees[j], nb, s);
    }
  }

  /** The least fit of one bin is the best fit of all, when no earlier bin from nb's own on holds a fit. */
  lemma BestOfBin(trees: seq<Tree>, treemap: word, roots: seq<int>, l: Links, index: map<int, int>,
                  nb: nat, idx: nat, i: nat, v: int, rsize: nat)
    requires BinsOk(trees, treemap, roots, l, index) && InBin(nb, idx) && idx <= i < NTREEBINS
    requires FitIn(trees[i], v, nb, rsize)
    requires forall s :: s in Sizes(trees[i]) && nb <= s ==> nb + rsize <= s
    requires forall j :: idx <= j < i ==> AllBelow(trees[j], nb)
    ensures BestFit(Views(trees), v, nb, rsize)
  {
    BinCount(trees, treemap, roots, l, index);
    hide InBin, BinsOk, Marked, FitIn, AllBelow, Views, View, Sizes;
    FitInViews(trees, treemap, roots, l, index, i, v, nb, rsize);
    forall a | a in Views(trees) && nb <= Views(trees)[a]
      ensures nb + rsize <= Views(trees)[a]
    {
      NotBeaten(trees, treemap, roots, l, index, nb, idx, i, rsize, a);
    }
  }

  ghost predicate AllBelow(t: Tree, nb: nat) { forall s :: s in Sizes(t) ==> s < nb }

  lemma BelowAll(t: Tree, nb: nat, s: nat)
    requires AllBelow(t, nb) && s in Sizes(t)
    ensures s < nb
  {
  }

  lemma NoFit(trees: seq<Tree>, treemap: word, roots: seq<int>, l: Links, index: map<int, int>, nb: nat, idx: nat,
          rsize: nat)
    requires BinsOk(trees, treemap, roots, l, index) && InBin(nb, idx) && idx < NTREEBINS
    requires AllBelow(trees[idx], nb)
    requires forall j :: idx < j < NTREEBINS ==> !Marked(treemap, j)
    ensures BestFit(Views(trees), 0, nb, rsize)
  {
    hide InBin, BinsOk, Marked;
    forall a | a in Views(trees)
      ensures Views(trees)[a] < nb
    {
      var j := ChunkInBin(trees, treemap, roots, l, index, a);
      if j < idx {
        BinsOrdered(Views(trees)[a], j, nb, idx);
      }
    }
  }

  /** Facts about bin i that the searches use. */
  lemma BinFacts(trees: seq<Tree>, treemap: word, roots: seq<int>, l: Links, index: map<int, int>, heads: map<int,
          word>, i: nat)
    requires BinsOk(trees, treemap, roots, l, index) && Matches(heads, Views(trees)) && i < NTREEBINS
    ensures Subtree(trees[i], roots[i], BinLow(i), BinBits(i), l, heads)
    ensures (roots[i] != 0 <==> trees[i].Node?) && (Marked(treemap, i) <==> trees[i].Node?)
    ensures forall s :: s in Sizes(trees[i]) ==> InBin(s, i) && 256 <= s < TWO_32
  {
    BinSized(trees, treemap, roots, l, index, heads, i);
    assert BinOk(trees[i], i, Marked(treemap, i), roots[i], l, index);
    hide Trie, Proper, Shape, Sized, Marked;
    TreeUnlink.RootOf(trees[i]);
  }

  lemma NothingLeft(t: Tree, nb: nat, rsize: nat)
    requires rsize == TWO_32 - nb && nb <= TWO_32
    requires forall s :: s in Sizes(t) && nb <= s ==> nb + rsize <= s
    requires forall s :: s in Sizes(t) ==> s < TWO_32
    ensures AllBelow(t, nb)
  {
  }

  lemma LeafLeft(all: set<nat>, nb: nat, rsize: nat)
    requires Narrowed(all, Leaf, nb, rsize)
    ensures forall s :: s in all && nb <= s ==> nb + rsize <= s
  {
  }

  /** All of a bin above nb's own is large enough. */
  lemma LaterBin(t: Tree, nb: nat, idx: nat, i: nat, rsize: nat)
    requires InBin(nb, idx) && idx < i && forall s :: s in Sizes(t) ==> InBin(s, i)
    ensures Narrowed(Sizes(t), t, nb, rsize) && AllAtLeast(t, nb)
  {
    hide InBin;
    forall s | s in Sizes(t)
      ensures nb <= s
    {
      BinsOrdered(nb, idx, s, i);
    }
  }

  lemma FoundOne(t: Tree, n: Tree, nb: nat, rsize: nat)
    requires n.Node? && Within(n, t) && Proper(n) && AllAtLeast(n, nb)
    requires forall s :: s in Sizes(t) && nb <= s ==> nb + rsize <= s
    requires forall s :: s in Sizes(t) ==> s < TWO_32
    ensures nb + rsize < TWO_32
  {
    var a := SizeSeen(n, n.size);
    assert n.size in Sizes(n);
    ViewSizes(t, a);
  }

  lemma IsInBin(nb: word)
    requires 256 <= nb
    ensures 0 <= ComputeTreeIndex(nb) < NTREEBINS && InBin(nb, ComputeTreeIndex(nb))
  {
    IndexBracketsSize(nb);
  }

  lemma BinCount(trees: seq<Tree>, treemap: word, roots: seq<int>, l: Links, index: map<int, int>)
    requires BinsOk(trees, treemap, roots, l, index)
    ensures |trees| == NTREEBINS && |roots| == NTREEBINS
  {
  }

  lemma NarrowedSelf(t: Tree, nb: nat, rsize: nat)
    ensures Narrowed(Sizes(t), t, nb, rsize)
  {
  }

  /** A walk that ends with nothing in hand and nothing left to look at has seen only smaller sizes. */
  lemma OwnBinEmpty(trees: seq<Tree>, treemap: word, roots: seq<int>, l: Links, index: map<int, int>,
                    idx: nat, n: Tree, nb: nat, rsize: nat)
    requires BinsOk(trees, treemap, roots, l, index) && idx < NTREEBINS
    requires (rsize == TWO_32 - nb && nb <= TWO_32) || FitIn(trees[idx], 0, nb, rsize)
    requires n.Leaf? && Narrowed(Sizes(trees[idx]), n, nb, rsize)
    requires forall s :: s in Sizes(trees[idx]) ==> s < TWO_32
    ensures AllBelow(trees[idx], nb) && rsize == TWO_32 - nb
  {
    BinCount(trees, treemap, roots, l, index);
    hide BinsOk;
    LeafLeft(Sizes(trees[idx]), nb, rsize);
    if rsize == TWO_32 - nb && nb <= TWO_32 {
      NothingLeft(trees[idx], nb, rsize);
    } else {
      FitInViews(trees, treemap, roots, l, index, idx, 0, nb, rsize);
    }
  }

  /** Bins between nb's own and the next marked one are empty. */
  lemma BinsBetween(trees: seq<Tree>, treemap: word, roots: seq<int>, l: Links, index: map<int, int>, nb: nat,
          idx: nat, i: nat)
    requires BinsOk(trees, treemap, roots, l, index) && idx < i < NTREEBINS && AllBelow(trees[idx], nb)
    requires forall j :: idx < j < i ==> !Marked(treemap, j)
    ensures forall j :: idx <= j < i ==> AllBelow(trees[j], nb)
  {
    hide Shape, Trie, Marked, InBin, Proper;
    forall j | idx < j < i
      ensures AllBelow(trees[j], nb)
    {
      assert BinOk(trees[j], j, Marked(treemap, j), roots[j], l, index);
    }
  }

  lemma Finish(t: Tree, nb: nat, n: Tree, v1: int, r1: nat, v: int, rsize: nat)
    requires (v1 == 0 && r1 == TWO_32 - nb && nb < TWO_32) || FitIn(t, v1, nb, r1)
    requires (v == v1 && rsize == r1) || FitIn(n, v, nb, rsize)
    requires Within(n, t) && Proper(n) && (r1 == 0 || AllAtLeast(n, nb)) && (v1 == 0 ==> n.Node?)
    requires forall s :: s in Sizes(t) && nb <= s ==> nb + rsize <= s
    requires forall s :: s in Sizes(t) ==> s < TWO_32
    ensures FitIn(t, v, nb, rsize)
  {
    if v == v1 && rsize == r1 && !FitIn(t, v1, nb, r1) {
      FoundOne(t, n, nb, rsize);
    }
  }

  /** The search of tmalloc_large, up to its comparison with dv. */
  method FindLarge(heads: map<int, word>, l: Links, treemap: word, treebins: seq<int>, nb: word,
                   ghost trees: seq<Tree>, ghost index: map<int, int>)
    returns (v: int, rsize: nat)
    requires BinsOk(trees, treemap, treebins, l, index) && Matches(heads, Views(trees)) && 256 <= nb
    ensures BestFit(Views(trees), v, nb, rsize)
  {
    hide BinsOk, Matches, Subtree, BinLow, BinBits, InBin, ComputeTreeIndex, Marked, NextBits, LeastBit, Bit2Idx,
         Within, FitIn,
      Narrowed, AllAtLeast, AllBelow, BestFit, Sizes, View, Views, Proper;
    IsInBin(nb);
    BinCount(trees, treemap, treebins, l, index);
    var idx := ComputeTreeIndex(nb);
    BinFacts(trees, treemap, treebins, l, index, heads, idx);
    var t := treebins[idx];
    v, rsize := 0, TWO_32 - nb;
    ghost var i: nat, n, nlo: nat, nw: nat := idx, trees[idx], BinLow(idx), BinBits(idx);
    WithinSelf(n);
    NarrowedSelf(n, nb, rsize);
    if t != 0 {
      v, rsize, t, n, nlo, nw := DescendBin(heads, l, t, nb, idx, trees[idx]);
      SubSize(n, t, nlo, nw, l, heads);
    }
    if t == 0 && v == 0 {
      OwnBinEmpty(trees, treemap, treebins, l, index, idx, n, nb, rsize);
      NextIsLowest(treemap, idx);
      var left := NextBits(treemap, idx);
      if left == 0 {
        NoFit(trees, treemap, treebins, l, index, nb, idx, rsize);
        return;
      }
      i := Bit2Idx(LeastBit(left));
      BinFacts(trees, treemap, treebins, l, index, heads, i);
      BinsBetween(trees, treemap, treebins, l, index, nb, idx, i);
      t := treebins[Bit2Idx(LeastBit(left))];
      n, nlo, nw := trees[i], BinLow(i), BinBits(i);
      LaterBin(n, nb, idx, i, rsize);
      WithinSelf(n);
    }
    ghost var v1, r1 := v, rsize;
    v, rsize := LeastBelow(heads, l, t, nb, v, rsize, Sizes(trees[i]), n, nlo, nw);
    SubProper(n, t, nlo, nw, l, heads);
    Finish(trees[i], nb, n, v1, r1, v, rsize);
    BestOfBin(trees, treemap, treebins, l, index, nb, idx, i, v, rsize);
  }

  /** The search of tmalloc_small: the smallest chunk of the lowest marked bin. */
  method FindSmall(heads: map<int, word>, l: Links, treemap: word, treebins: seq<int>, nb: word,
                   ghost trees: seq<Tree>, ghost index: map<int, int>)
    returns (v: int, rsize: nat)
    requires BinsOk(trees, treemap, treebins, l, index) && Matches(heads, Views(trees)) && 0 < nb < 256 && treemap != 0
    ensures v != 0 && BestFit(Views(trees), v, nb, rsize)
  {
    hide BinsOk, Matches, Subtree, BinLow, BinBits, InBin, ComputeTreeIndex, Marked, LeastBit, Bit2Idx, Within, FitIn,
      Narrowed, AllAtLeast, AllBelow, BestFit, Sizes, View, Views, Proper, ChunkSize, HeadAt, Child;
    LeastIsLowest(treemap);
    BinCount(trees, treemap, treebins, l, index);
    var i := Bit2Idx(LeastBit(treemap));
    BinFacts(trees, treemap, treebins, l, index, heads, i);
    var t := treebins[i];
    v := t;
    ghost var n := trees[i];
    SubSize(n, t, BinLow(i), BinBits(i), l, heads);
    WithinSelf(n);
    Visit(n, n, t, BinLow(i), BinBits(i), l, heads, nb, TWO_32 - nb);
    rsize := ChunkSize(HeadAt(heads, t)) - nb;
    LargeBin(n, nb, rsize, t);
    ghost var lo, w := LeftmostChild(n, n, t, BinLow(i), BinBits(i), l, heads);
    SubProper(n, t, BinLow(i), BinBits(i), l, heads);
    NarrowedSelf(n, nb, rsize);
    LeftmostStep(Sizes(n), n, nb, rsize, rsize, BinLow(i), BinBits(i));
    ghost var c := if n.left.Node? then n.left else n.right;
    t := if Child(l, t, false) != 0 then Child(l, t, false) else Child(l, t, true);
    ghost var v1, r1 := v, rsize;
    v, rsize := LeastBelow(heads, l, t, nb, v, rsize, Sizes(n), c, lo, w);
    SubProper(c, t, lo, w, l, heads);
    Finish(n, nb, c, v1, r1, v, rsize);
    BestOfLeast(trees, treemap, treebins, l, index, nb, i, v, rsize);
  }

  lemma LargeBin(t: Tree, nb: nat, rsize: nat, v: int)
    requires t.Node? && v in View(t) && View(t)[v] == t.size && nb < 256 && forall s :: s in Sizes(t) ==> 256 <= s
    requires rsize == t.size - nb
    ensures t.size in Sizes(t) && AllAtLeast(t, nb) && FitIn(t, v, nb, rsize)
  {
  }

  lemma BestOfLeast(trees: seq<Tree>, treemap: word, roots: seq<int>, l: Links, index: map<int, int>,
                    nb: nat, i: nat, v: int, rsize: nat)
    requires BinsOk(trees, treemap, roots, l, index) && i < NTREEBINS
    requires FitIn(trees[i], v, nb, rsize)
    requires forall s :: s in Sizes(trees[i]) && nb <= s ==> nb + rsize <= s
    requires forall j :: 0 <= j < i ==> !Marked(treemap, j)
    ensures v != 0 && BestFit(Views(trees), v, nb, rsize)
  {
    hide InBin, BinsOk, Marked, FitIn, Views, View;
    FitInViews(trees, treemap, roots, l, index, i, v, nb, rsize);
    forall a | a in Views(trees) && nb <= Views(trees)[a]
      ensures nb + rsize <= Views(trees)[a]
    {
      var j := ChunkInBin(trees, treemap, roots, l, index, a);
      if i < j {
        BinsOrdered(nb + rsize, i, Views(trees)[a], j);
      }
    }
  }
}
