/** The tree bins of malloc_state: 32 tries of free chunks with a bit map of the non-empty ones. */
module TreeBins {
  import opened Bytes
  import opened Words
  import opened Maps
  import opened BinMaps
  import opened TreeIndex
  import opened TrieKeys
  import opened Tries
  import opened TreeLinks
  import opened TreeUnlink
  import opened TreeSearch

  /** Size part of a chunk header: the word without its three flag bits. */
  function ChunkSize(head: word): nat { head - head % 8 }

  function HeadAt(heads: map<int, word>, a: int): word { if a in heads then heads[a] else 0 }

  /** The headers agree with the sizes on record. */
  ghost predicate Matches(heads: map<int, word>, view: map<int, nat>) {
    forall a :: a in view ==> ChunkSize(HeadAt(heads, a)) == view[a]
  }

  ghost predicate Sized(t: Tree, heads: map<int, word>) {
    t.Node? ==>
      && (forall a :: a in t.ring ==> ChunkSize(HeadAt(heads, a)) == t.size)
      && Sized(t.left, heads) && Sized(t.right, heads)
  }

  /** A treebin's own address, used as the parent of its root; never a chunk. */
  function BinAddr(i: nat): int { -1 - i }

  ghost predicate BinOk(t: Tree, i: nat, marked: bool, root: int, l: Links, index: map<int, int>) {
    && Trie(t, BinLow(i), BinBits(i)) && Proper(t) && Shape(t, BinAddr(i), l)
    && root == Root(t) && (marked <==> t.Node?)
    && (forall a :: a in Chunks(t) ==> a > 0 && At(index, a) == i)
    && forall s :: s in Sizes(t) ==> InBin(s, i)
  }

  ghost predicate BinsOk(trees: seq<Tree>, treemap: word, roots: seq<int>, l: Links, index: map<int, int>) {
    && |trees| == NTREEBINS && |roots| == NTREEBINS
    && forall i :: 0 <= i < NTREEBINS ==> BinOk(trees[i], i, Marked(treemap, i), roots[i], l, index)
  }

  /** All chunks of a list of tries with their sizes. */
  ghost function Views(trees: seq<Tree>): map<int, nat> {
    if trees == [] then map[] else Views(trees[..|trees| - 1]) + View(trees[|trees| - 1])
  }

  // ---- views ----

  lemma {:induction false} ViewsFind(trees: seq<Tree>, a: int) returns (i: nat)
    requires a in Views(trees)
    ensures i < |trees| && a in Chunks(trees[i]) && a in View(trees[i]) && Views(trees)[a] == View(trees[i])[a]
  {
    var n := |trees| - 1;
    ViewKeys(trees[n]);
    if a in View(trees[n]) {
      i := n;
    } else {
      i := ViewsFind(trees[..n], a);
    }
  }

  lemma ViewsStep(trees: seq<Tree>)
    requires trees != []
    ensures Views(trees) == Views(trees[..|trees| - 1]) + View(trees[|trees| - 1])
  {
    hide View;
  }

  lemma {:induction false} ViewsAt(trees: seq<Tree>, i: nat, a: int)
    requires i < |trees| && a in Chunks(trees[i])
    requires forall j :: 0 <= j < |trees| && j != i ==> a !in Chunks(trees[j])
    ensures a in View(trees[i]) && a in Views(trees) && Views(trees)[a] == View(trees[i])[a]
  {
    hide View, Chunks, Views;
    var n := |trees| - 1;
    ViewsStep(trees);
    ViewKeys(trees[n]);
    ViewKeys(trees[i]);
    if i < n {
      ViewsAt(trees[..n], i, a);
    }
  }

  lemma {:induction false} ViewsInsert(trees: seq<Tree>, i: nat, t': Tree, x: int, s: nat)
    requires i < |trees| && View(t') == View(trees[i])[x := s]
    requires forall j :: 0 <= j < |trees| && j != i ==> x !in Chunks(trees[j])
    ensures Views(trees[i := t']) == Views(trees)[x := s]
  {
    hide View, Chunks;
    var n := |trees| - 1;
    ViewKeys(trees[n]);
    if i < n {
      ViewsInsert(trees[..n], i, t', x, s);
      assert trees[i := t'][..n] == trees[..n][i := t'];
      assert trees[i := t'][n] == trees[n];
      EarlierInsert(Views(trees[..n]), View(trees[n]), x, s);
    } else {
      assert trees[i := t'][..n] == trees[..n];
      LaterInsert(Views(trees[..n]), View(trees[n]), x, s);
    }
  }

  lemma {:induction false} ViewsRemove(trees: seq<Tree>, i: nat, t': Tree, x: int)
    requires i < |trees| && View(t') == View(trees[i]) - {x}
    requires forall j :: 0 <= j < |trees| && j != i ==> x !in Chunks(trees[j])
    ensures Views(trees[i := t']) == Views(trees) - {x}
  {
    hide View, Chunks, Views;
    var n := |trees| - 1;
    ViewsStep(trees);
    ViewsStep(trees[i := t']);
    if i < n {
      ViewKeys(trees[n]);
      ViewsRemove(trees[..n], i, t', x);
      assert trees[i := t'][..n] == trees[..n][i := t'];
      EarlierRemove(Views(trees[..n]), View(trees[n]), x);
    } else {
      assert trees[i := t'][..n] == trees[..n];
      NotInViews(trees[..n], x);
      LaterRemove(Views(trees[..n]), View(trees[n]), x);
    }
  }

  lemma NotInViews(trees: seq<Tree>, x: int)
    requires forall j :: 0 <= j < |trees| ==> x !in Chunks(trees[j])
    ensures x !in Views(trees)
  {
    if x in Views(trees) {
      var i := ViewsFind(trees, x);
    }
  }

  // ---- headers ----

  lemma {:induction false} SizedFromView(t: Tree, heads: map<int, word>, view: map<int, nat>)
    requires Proper(t) && Matches(heads, view)
    requires forall a :: a in View(t) ==> a in view && view[a] == View(t)[a]
    ensures Sized(t, heads)
  {
    if t.Node? {
      ViewKeys(t.left);
      ViewKeys(t.right);
      RingKeys(t.ring, t.size);
      SizedFromView(t.left, heads, view) by {
        forall a | a in View(t.left)
          ensures a in view && view[a] == View(t.left)[a]
        {
          assert a !in View(t.right) && a !in RingView(t.ring, t.size);
        }
      }
      SizedFromView(t.right, heads, view);
      forall a | a in t.ring
        ensures ChunkSize(HeadAt(heads, a)) == t.size
      {
        assert View(t)[a] == t.size;
      }
    }
  }

  lemma BinSized(trees: seq<Tree>, treemap: word, roots: seq<int>, l: Links, index: map<int, int>, heads: map<int,
          word>, i: nat)
    requires BinsOk(trees, treemap, roots, l, index) && Matches(heads, Views(trees)) && i < NTREEBINS
    ensures Sized(trees[i], heads)
  {
    hide Shape, Trie, Marked, InBin;
    assert BinOk(trees[i], i, Marked(treemap, i), roots[i], l, index);
    ViewKeys(trees[i]);
    forall a | a in View(trees[i])
      ensures a in Views(trees) && Views(trees)[a] == View(trees[i])[a]
    {
      OneBinOnly(trees, treemap, roots, l, index, i, a);
      ViewsAt(trees, i, a);
    }
    SizedFromView(trees[i], heads, Views(trees));
  }

  /** A chunk is in one bin only, the one its index field names. */
  lemma OneBinOnly(trees: seq<Tree>, treemap: word, roots: seq<int>, l: Links, index: map<int, int>, i: nat, a: int)
    requires BinsOk(trees, treemap, roots, l, index) && i < NTREEBINS && a in Chunks(trees[i])
    ensures forall j :: 0 <= j < NTREEBINS && j != i ==> a !in Chunks(trees[j])
    ensures At(index, a) == i && a > 0
  {
    hide Shape, Trie, Marked, InBin, Proper;
    assert BinOk(trees[i], i, Marked(treemap, i), roots[i], l, index);
    forall j | 0 <= j < NTREEBINS && j != i
      ensures a !in Chunks(trees[j])
    {
      assert BinOk(trees[j], j, Marked(treemap, j), roots[j], l, index);
    }
  }

  lemma BinKept(t: Tree, i: nat, marked: bool, root: int, l: Links, index: map<int, int>, m: Links, index': map<int,
          int>)
    requires BinOk(t, i, marked, root, l, index)
    requires forall a :: a in Chunks(t) ==> SameAt(a, l, m) && At(index', a) == At(index, a)
    ensures BinOk(t, i, marked, root, m, index')
  {
    hide Trie, Proper, InBin;
    Frame(t, BinAddr(i), l, m);
  }

  /** Replacing the trie of one bin: the other bins do not notice. */
  lemma BinReplaced(trees: seq<Tree>, treemap: word, roots: seq<int>, l: Links, index: map<int, int>,
                    i: nat, x: int, t': Tree, treemap': word, root': int, m: Links, index': map<int, int>)
    requires BinsOk(trees, treemap, roots, l, index) && i < NTREEBINS
    requires forall j :: 0 <= j < NTREEBINS && j != i ==> x !in Chunks(trees[j])
    requires forall a :: a !in Chunks(trees[i]) && a != x ==> SameAt(a, l, m) && At(index', a) == At(index, a)
    requires forall j :: 0 <= j < NTREEBINS && j != i ==> (Marked(treemap', j) <==> Marked(treemap, j))
    requires BinOk(t', i, Marked(treemap', i), root', m, index')
    ensures BinsOk(trees[i := t'], treemap', roots[i := root'], m, index')
  {
    forall j | 0 <= j < NTREEBINS && j != i
      ensures BinOk(trees[j], j, Marked(treemap', j), roots[j], m, index')
    {
      assert BinOk(trees[j], j, Marked(treemap, j), roots[j], l, index);
      forall a | a in Chunks(trees[j])
        ensures SameAt(a, l, m) && At(index', a) == At(index, a)
      {
        hide BinOk;
        OneBinOnly(trees, treemap, roots, l, index, j, a);
      }
      BinKept(trees[j], j, Marked(treemap, j), roots[j], l, index, m, index');
    }
  }

  // ---- insert_large_chunk ----

  /** The bin an inserted chunk ends up in is a bin with the chunk added. */
  lemma InsertedBin(t: Tree, i: nat, l: Links, index: map<int, int>, x: int, s: nat)
    requires BinOk(t, i, t.Node?, Root(t), l, index) && t.Node? && InBin(s, i) && i < NTREEBINS
    requires x > 0 && x !in Chunks(t) && At(l.left, x) == 0 && At(l.right, x) == 0
    ensures BinLow(i) <= s < BinLow(i) + Pow2(BinBits(i))
    ensures var p := Walk(t, s, BinLow(i), BinBits(i));
            var t' := Insert(t, x, s, BinLow(i), BinBits(i));
            && BinOk(t', i, true, Root(t), Attach(l, p, x), index[x := i])
            && View(t') == View(t)[x := s]
            && forall a :: a !in Chunks(t) && a != x ==> SameAt(a, l, Attach(l, p, x))
  {
    hide InBin, BinLow, BinBits, Shape, Trie, Attach, Walk, SameAt, Insert, Chunks, Sizes, View, Proper, Pow2, Root;
    assert t.ring != [] by { ProperRing(t); }
    BinRange(s, i);
    var lo, w := BinLow(i), BinBits(i);
    InsertKeepsTrie(t, x, s, lo, w);
    InsertProper(t, x, s, lo, w);
    InsertView(t, x, s, lo, w);
    InsertShape(t, BinAddr(i), l, x, s, lo, w);
    AttachFrame(t, BinAddr(i), l, x, s, lo, w);
    InsertRoot(t, x, s, lo, w);
  }

  /** A chunk alone in its bin. */
  lemma FirstInBin(i: nat, l: Links, index: map<int, int>, x: int, s: nat)
    requires InBin(s, i) && i < NTREEBINS && x > 0
    requires At(l.left, x) == 0 && At(l.right, x) == 0 && At(l.parent, x) == BinAddr(i) && At(l.fd, x) == x
             && At(l.bk, x) == x
    ensures var t := Node([x], s, Leaf, Leaf);
            BinOk(t, i, true, x, l, index[x := i]) && View(t) == View(Leaf)[x := s]
  {
    hide InBin, BinLow, BinBits, Pow2;
    BinRange(s, i);
    var t := Node([x], s, Leaf, Leaf);
    NewRing(x);
    assert Chunks(t) == {x} by {
      assert t.ring == [x] && Chunks(t.left) == {} && Chunks(t.right) == {};
    }
    assert Sizes(t) == {s};
    assert Trie(t, BinLow(i), BinBits(i));
    assert Proper(t);
    assert Shape(t, BinAddr(i), l);
  }

  lemma ProperRing(t: Tree)
    requires Proper(t) && t.Node?
    ensures t.ring != []
  {
  }

  // ---- walks ----

  /** A subtree met on a walk: cur is its root, and its sizes lie in [lo, lo + 2^w). */
  ghost predicate Subtree(u: Tree, cur: int, lo: nat, w: nat, l: Links, heads: map<int, word>) {
    && cur == Root(u) && Proper(u) && Trie(u, lo, w) && w <= 32 && Sized(u, heads) && exists up :: Shape(u, up, l)
  }

  lemma SubSize(u: Tree, cur: int, lo: nat, w: nat, l: Links, heads: map<int, word>)
    requires Subtree(u, cur, lo, w, l, heads)
    ensures cur != 0 <==> u.Node?
    ensures u.Node? ==> ChunkSize(HeadAt(heads, cur)) == u.size && u.size in Sizes(u)
    ensures u.Node? ==> cur in View(u) && View(u)[cur] == u.size
  {
    RootOf(u);
  }

  lemma ShapeChild(u: Tree, up: int, l: Links, right: bool)
    requires Shape(u, up, l) && u.Node?
    ensures u.ring != [] && Shape(ChildTree(u, right), u.ring[0], l)
    ensures Child(l, Root(u), right) == Root(ChildTree(u, right))
  {
    hide Ring, Chained;
  }

  lemma SizedChild(u: Tree, heads: map<int, word>, right: bool)
    requires Sized(u, heads) && u.Node?
    ensures Sized(ChildTree(u, right), heads)
  {
    hide HeadAt, ChunkSize;
  }

  lemma SubChild(u: Tree, cur: int, lo: nat, w: nat, l: Links, heads: map<int, word>, right: bool)
    requires Subtree(u, cur, lo, w, l, heads) && u.Node? && 0 < w
    ensures Subtree(ChildTree(u, right), Child(l, cur, right), Half(lo, w, right), w - 1, l, heads)
  {
    hide Proper, Trie, Pow2, Shape, Sized, Child, Root;
    var up :| Shape(u, up, l);
    ShapeChild(u, up, l, right);
    SizedChild(u, heads, right);
    TrieParts(u, lo, w);
  }

  ghost function ChildTree(u: Tree, right: bool): Tree
    requires u.Node?
  {
    if right then u.right else u.left
  }

  /** Where the lower or upper half of [lo, lo + 2^w) begins. */
  ghost function Half(lo: nat, w: nat, right: bool): nat
    requires 0 < w
  {
    if right then lo + Pow2(w - 1) else lo
  }

  lemma TrieParts(u: Tree, lo: nat, w: nat)
    requires u.Node? && 0 < w && Trie(u, lo, w)
    ensures Trie(u.left, lo, w - 1) && Trie(u.right, lo + Pow2(w - 1), w - 1)
    ensures Proper(u) ==> Proper(u.left) && Proper(u.right)
  {
  }

  /** State of a walk that follows the bits of s: k holds the bits still to be used. */
  ghost predicate OnPath(u: Tree, cur: int, lo: nat, w: nat, l: Links, heads: map<int, word>, s: nat, k: word) {
    Subtree(u, cur, lo, w, l, heads) && lo <= s < lo + Pow2(w) && k == Key(s, lo, w)
  }

  lemma PathStart(t: Tree, root: int, l: Links, heads: map<int, word>, s: nat, i: nat)
    requires InBin(s, i) && i < NTREEBINS && Subtree(t, root, BinLow(i), BinBits(i), l, heads)
    ensures s < TWO_32 && OnPath(t, root, BinLow(i), BinBits(i), l, heads, s, Shl(s, LeftShift(i)))
  {
    BinRange(s, i);
    KeyStart(s, i);
  }

  /** One step down the path of s. */
  lemma PathStep(u: Tree, cur: int, lo: nat, w: nat, l: Links, heads: map<int, word>, s: nat, k: word)
    requires OnPath(u, cur, lo, w, l, heads, s, k) && u.Node? && u.size != s
    ensures 0 < w
    ensures GoesRight(k) <==> s >= lo + Pow2(w - 1)
    ensures var right := GoesRight(k);
            OnPath(ChildTree(u, right), Child(l, cur, right), Half(lo, w, right), w - 1, l, heads, s, Shl(k, 1))
  {
    hide GoesRight, Shl, Key, Child, Sized;
    SubRange(u, cur, lo, w, l, heads);
    PowHalf(w);
    KeyStep(s, lo, w);
    SubChild(u, cur, lo, w, l, heads, GoesRight(k));
  }

  lemma PowHalf(w: nat)
    ensures w > 0 ==> Pow2(w) == 2 * Pow2(w - 1)
    ensures w == 0 ==> Pow2(w) == 1
  {
  }

  lemma SubRange(u: Tree, cur: int, lo: nat, w: nat, l: Links, heads: map<int, word>)
    requires Subtree(u, cur, lo, w, l, heads) && u.Node?
    ensures lo <= u.size < lo + Pow2(w) && w <= 32
  {
  }

  /** The search of insert_large_chunk for the place of size s. */
  method FindStop(heads: map<int, word>, l: Links, root: int, s: nat, i: nat, ghost t: Tree) returns (p: Stop)
    requires InBin(s, i) && i < NTREEBINS && t.Node?
    requires Subtree(t, root, BinLow(i), BinBits(i), l, heads)
    ensures p == Walk(t, s, BinLow(i), BinBits(i))
  {
    hide InBin, BinLow, BinBits, Subtree, Key, GoesRight, Shl, ComputeTreeIndex, ChunkSize, HeadAt, Pow2, Child,
         OnPath, Walk;
    PathStart(t, root, l, heads, s, i);
    var cur := root;
    var k := Shl(s, LeftShift(i));
    ghost var u, lo: nat, w: nat := t, BinLow(i), BinBits(i);
    while true
      invariant u.Node? && OnPath(u, cur, lo, w, l, heads, s, k)
      invariant Walk(u, s, lo, w) == Walk(t, s, BinLow(i), BinBits(i))
      decreases u
    {
      PathHere(u, cur, lo, w, l, heads, s, k);
      if ChunkSize(HeadAt(heads, cur)) != s {
        PathStep(u, cur, lo, w, l, heads, s, k);
        var right := GoesRight(k);
        var c := Child(l, cur, right);
        WalkStep(u, cur, lo, w, l, heads, s, k);
        k := Shl(k, 1);
        if c != 0 {
          cur := c;
          u, lo, w := ChildTree(u, right), Half(lo, w, right), w - 1;
        } else {
          return Stop(cur, false, right);
        }
      } else {
        return Stop(cur, true, false);
      }
    }
  }

  lemma PathHere(u: Tree, cur: int, lo: nat, w: nat, l: Links, heads: map<int, word>, s: nat, k: word)
    requires OnPath(u, cur, lo, w, l, heads, s, k) && u.Node?
    ensures ChunkSize(HeadAt(heads, cur)) == u.size
    ensures u.size == s ==> Walk(u, s, lo, w) == Stop(cur, true, false)
  {
    SubSize(u, cur, lo, w, l, heads);
  }

  lemma WalkStep(u: Tree, cur: int, lo: nat, w: nat, l: Links, heads: map<int, word>, s: nat, k: word)
    requires OnPath(u, cur, lo, w, l, heads, s, k) && u.Node? && u.size != s && 0 < w
    requires GoesRight(k) <==> s >= lo + Pow2(w - 1)
    requires OnPath(ChildTree(u, GoesRight(k)), Child(l, cur, GoesRight(k)), Half(lo, w, GoesRight(k)), w - 1, l,
               heads, s, Shl(k, 1))
    ensures var right := GoesRight(k);
            var v := ChildTree(u, right);
            && (Child(l, cur, right) != 0 <==> v.Node?)
            && Walk(u, s, lo, w) == if v.Leaf? then Stop(cur, false, right) else Walk(v, s, Half(lo, w, right), w - 1)
  {
    hide GoesRight, Shl, Key, Child, Sized;
    var right := GoesRight(k);
    SubSize(ChildTree(u, right), Child(l, cur, right), Half(lo, w, right), w - 1, l, heads);
    SubSize(u, cur, lo, w, l, heads);
  }
}
