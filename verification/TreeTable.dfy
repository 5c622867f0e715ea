/** The tree-bin part of malloc_state, updated in place. */
module TreeTable {
  import opened Bytes
  import opened Words
  import opened BinMaps
  import opened TreeIndex
  import opened TrieKeys
  import opened Tries
  import opened TreeLinks
  import opened TreeUnlink
  import opened TreeBins
  import opened TreeFit

  /** Fields of a chunk that is in no bin do not matter. */
  lemma FreshFields(trees: seq<Tree>, treemap: word, roots: seq<int>, l: Links, index: map<int, int>, m: Links,
          index': map<int, int>, x: int)
    requires BinsOk(trees, treemap, roots, l, index) && x !in Views(trees)
    requires forall a :: a != x ==> SameAt(a, l, m) && At(index', a) == At(index, a)
    ensures BinsOk(trees, treemap, roots, m, index')
    ensures forall i :: 0 <= i < NTREEBINS ==> x !in Chunks(trees[i])
  {
    hide Marked, SameAt, At, Views;
    forall i | 0 <= i < NTREEBINS
      ensures BinOk(trees[i], i, Marked(treemap, i), roots[i], m, index') && x !in Chunks(trees[i])
    {
      assert BinOk(trees[i], i, Marked(treemap, i), roots[i], l, index);
      if x in Chunks(trees[i]) {
        OneBinOnly(trees, treemap, roots, l, index, i, x);
        ViewsAt(trees, i, x);
      }
      hide BinOk;
      BinKept(trees[i], i, Marked(treemap, i), roots[i], l, index, m, index');
    }
  }

  /** A size belongs to the bin of its index. */
  lemma BinOfSize(s: nat)
    requires 256 <= s < TWO_32
    ensures 0 <= ComputeTreeIndex(s) < NTREEBINS && InBin(s, ComputeTreeIndex(s))
  {
    IndexBracketsSize(s);
  }

  /** insert_large_chunk into an empty bin. */
  lemma InsertFirst(trees: seq<Tree>, treemap: word, roots: seq<int>, l: Links, index: map<int, int>, i: nat, x: int,
          s: nat, m: Links)
    requires BinsOk(trees, treemap, roots, l, index) && i < NTREEBINS && InBin(s, i) && !Marked(treemap, i)
    requires x > 0 && x !in Views(trees) && forall j :: 0 <= j < NTREEBINS ==> x !in Chunks(trees[j])
    requires forall a :: a != x ==> SameAt(a, l, m)
    requires At(m.left, x) == 0 && At(m.right, x) == 0 && At(m.parent, x) == BinAddr(i) && At(m.fd, x) == x
             && At(m.bk, x) == x
    ensures |trees| == NTREEBINS && |roots| == NTREEBINS
    ensures var trees' := trees[i := Node([x], s, Leaf, Leaf)];
            BinsOk(trees', Mark(treemap, i), roots[i := x], m, index[x := i]) && Views(trees') == Views(trees)[x := s]
  {
    hide InBin, Mark, SameAt, Views;
    assert BinOk(trees[i], i, Marked(treemap, i), roots[i], l, index);
    assert trees[i] == Leaf;
    hide BinOk;
    forall j | 0 <= j < NTREEBINS
      ensures Marked(Mark(treemap, i), j) <==> i == j || Marked(treemap, j)
    {
      MarkClear(treemap, i, j);
    }
    hide Marked;
    FirstInBin(i, m, index, x, s);
    BinReplaced(trees, treemap, roots, l, index, i, x, Node([x], s, Leaf, Leaf), Mark(treemap, i), x, m, index[x := i]);
    ViewsInsert(trees, i, Node([x], s, Leaf, Leaf), x, s);
  }

  /** insert_large_chunk into a bin that holds something. */
  lemma InsertMore(trees: seq<Tree>, treemap: word, roots: seq<int>, l: Links, index: map<int, int>, i: nat, x: int,
          s: nat)
    requires BinsOk(trees, treemap, roots, l, index) && i < NTREEBINS && InBin(s, i) && Marked(treemap, i)
    requires x > 0 && x !in Views(trees) && forall j :: 0 <= j < NTREEBINS ==> x !in Chunks(trees[j])
    requires At(l.left, x) == 0 && At(l.right, x) == 0
    ensures |trees| == NTREEBINS && |roots| == NTREEBINS && trees[i].Node?
    ensures var t' := Insert(trees[i], x, s, BinLow(i), BinBits(i));
            var m := Attach(l, Walk(trees[i], s, BinLow(i), BinBits(i)), x);
            BinsOk(trees[i := t'], treemap, roots, m, index[x := i]) && Views(trees[i := t']) == Views(trees)[x := s]
  {
    hide InBin, SameAt, Views, Marked, Attach, Walk, BinLow, BinBits, Insert;
    var t := trees[i];
    assert BinOk(t, i, Marked(treemap, i), roots[i], l, index);
    assert t.Node? && BinOk(t, i, t.Node?, Root(t), l, index);
    hide BinOk;
    InsertedBin(t, i, l, index, x, s);
    var t' := Insert(t, x, s, BinLow(i), BinBits(i));
    var m := Attach(l, Walk(t, s, BinLow(i), BinBits(i)), x);
    BinReplaced(trees, treemap, roots, l, index, i, x, t', treemap, Root(t), m, index[x := i]);
    assert Root(t) == roots[i] by { RootHere(trees, treemap, roots, l, index, i); }
    assert roots[i := Root(t)] == roots;
    ViewsInsert(trees, i, t', x, s);
  }

  lemma RootHere(trees: seq<Tree>, treemap: word, roots: seq<int>, l: Links, index: map<int, int>, i: nat)
    requires BinsOk(trees, treemap, roots, l, index) && i < NTREEBINS
    ensures roots[i] == Root(trees[i]) && Shape(trees[i], BinAddr(i), l) && Proper(trees[i])
            && Trie(trees[i], BinLow(i), BinBits(i))
    ensures Marked(treemap, i) <==> trees[i].Node?
    ensures BinAddr(i) !in Chunks(trees[i])
  {
    assert BinOk(trees[i], i, Marked(treemap, i), roots[i], l, index);
    hide Shape, Proper, Trie, InBin;
    assert BinAddr(i) < 0;
  }

  /** unlink_large_chunk: the bin of x loses x; its mark goes with its last chunk. */
  lemma UnlinkBin(trees: seq<Tree>, treemap: word, roots: seq<int>, l: Links, index: map<int, int>, i: nat, x: int,
          m: Links, root': int, treemap': word)
    requires BinsOk(trees, treemap, roots, l, index) && i < NTREEBINS && x in Chunks(trees[i])
    requires Shape(Remove(trees[i], x), BinAddr(i), m) && forall a :: a !in Chunks(trees[i]) ==> SameAt(a, l, m)
    requires root' == Root(Remove(trees[i], x))
    requires treemap' == if Remove(trees[i], x).Leaf? then Clear(treemap, i) else treemap
    ensures BinsOk(trees[i := Remove(trees[i], x)], treemap', roots[i := root'], m, index)
    ensures Views(trees[i := Remove(trees[i], x)]) == Views(trees) - {x}
  {
    hide InBin, SameAt, Views, Clear, Remove, Shape, BinLow, BinBits;
    var t := trees[i];
    var t' := Remove(t, x);
    assert BinOk(t, i, Marked(treemap, i), roots[i], l, index);
    RemoveSizes(t, x, BinLow(i), BinBits(i));
    hide Trie;
    RemoveProper(t, x);
    RemoveView(t, x);
    hide Proper, View;
    forall j | 0 <= j < NTREEBINS
      ensures Marked(treemap', j) <==> if i == j then t'.Node? else Marked(treemap, j)
    {
      MarkClear(treemap, i, j);
    }
    assert t.Node?;
    hide Marked;
    UnlinkedBinOk(t, i, l, index, x, t', root', m, Marked(treemap', i));
    hide BinOk;
    OneBinOnly(trees, treemap, roots, l, index, i, x);
    BinReplaced(trees, treemap, roots, l, index, i, x, t', treemap', root', m, index);
    ViewsRemove(trees, i, t', x);
  }

  lemma UnlinkedBinOk(t: Tree, i: nat, l: Links, index: map<int, int>, x: int, t': Tree, root': int, m: Links,
          marked: bool)
    requires BinOk(t, i, true, Root(t), l, index)
    requires Trie(t', BinLow(i), BinBits(i)) && Proper(t') && Shape(t', BinAddr(i), m) && root' == Root(t')
    requires Sizes(t') <= Sizes(t) && Chunks(t') <= Chunks(t) && (marked <==> t'.Node?)
    ensures BinOk(t', i, marked, root', m, index)
  {
    hide Trie, Proper, Shape, InBin, BinLow, BinBits;
  }

  // ---- the walk of unlink_large_chunk ----

  /** The leaf below c that replaces x: right children first. */
  method FindLeaf(l: Links, x: int, c0: int, side: bool, ghost c: Tree) returns (sp: Spot)
    requires c.Node? && Proper(c) && Shape(c, x, l) && c0 == Root(c)
    ensures sp == LeafSpot(c, x, side)
  {
    hide Ring, Chained, Elems, GoodRing;
    var holder, right, r := x, side, c0;
    ghost var u := c;
    while true
      invariant u.Node? && Proper(u) && r == Root(u) && exists up :: Shape(u, up, l)
      invariant LeafSpot(u, holder, right) == LeafSpot(c, x, side)
      decreases u
    {
      Children(u, r, l);
      var c1 := At(l.right, r);
      if c1 != 0 {
        holder, right, r := r, true, c1;
        u := u.right;
      } else {
        var c2 := At(l.left, r);
        if c2 != 0 {
          holder, right, r := r, false, c2;
          u := u.left;
        } else {
          return Spot(r, holder, right);
        }
      }
    }
  }

  lemma Children(u: Tree, r: int, l: Links)
    requires u.Node? && Proper(u) && r == Root(u) && exists up :: Shape(u, up, l)
    ensures At(l.right, r) == Root(u.right) && (Root(u.right) != 0 <==> u.right.Node?)
    ensures At(l.left, r) == Root(u.left) && (Root(u.left) != 0 <==> u.left.Node?)
    ensures Proper(u.left) && Proper(u.right) && Shape(u.left, r, l) && Shape(u.right, r, l)
  {
    RootOf(u.left);
    RootOf(u.right);
  }

  /** The subtree at x, and what hangs above it. */
  lemma {:induction false} SubtreeShape(t: Tree, up: int, l: Links, x: int) returns (up': int)
    requires Proper(t) && Shape(t, up, l) && x in Chunks(t) && up !in Chunks(t) && up != 0
    ensures var u := SubtreeAt(t, x);
            u.Node? && x in u.ring && Proper(u) && Shape(u, up', l) && up' !in Chunks(u) && up' != 0
    ensures x == Root(t) ==> SubtreeAt(t, x) == t && up' == up
  {
    assert t.ring[0] in Elems(t.ring) && t.ring[0] != 0;
    hide Ring, Chained, GoodRing;
    if x in t.ring {
      up' := up;
    } else if x in Chunks(t.left) {
      hide Elems;
      up' := SubtreeShape(t.left, t.ring[0], l, x);
    } else {
      hide Elems;
      up' := SubtreeShape(t.right, t.ring[0], l, x);
    }
  }

  /** Chained chunks have no parent, tree nodes have one; a chunk alone on its ring is its own predecessor. */
  lemma RingCases(u: Tree, up: int, l: Links, x: int)
    requires u.Node? && Proper(u) && Shape(u, up, l) && up != 0 && x in u.ring
    ensures At(l.parent, x) == (if x == Root(u) then up else 0)
    ensures x != Root(u) ==> |u.ring| > 1
    ensures At(l.bk, x) != x <==> |u.ring| > 1
  {
    var k :| 0 <= k < |u.ring| && u.ring[k] == x;
    var j := if k == 0 then |u.ring| - 1 else k - 1;
    assert Next(|u.ring|, j) == k;
    assert At(l.bk, u.ring[Next(|u.ring|, j)]) == u.ring[j];
  }

  /** Heir of a node that shares its ring. */
  lemma RingHeir(u: Tree, up: int, l: Links)
    requires u.Node? && Proper(u) && Shape(u, up, l) && |u.ring| > 1
    ensures Freed(u, l) == RingOut(l, Root(u)) && At(l.bk, Root(u)) == Root(Remove(u, Root(u)))
            && At(l.bk, Root(u)) != 0
  {
    RingOutHead(u.ring, l);
    DropFromRingParts(u.ring, u.ring[0]);
  }

  /** Heir of a node that is alone on its ring. */
  lemma LeafHeir(u: Tree, l: Links)
    requires u.Node? && Proper(u) && |u.ring| == 1
    ensures var x := Root(u);
            if u.right.Node? then
              var sp := LeafSpot(u.right, x, true);
              Freed(u, l) == SetChild(l, sp.holder, sp.right, 0) && sp.leaf == Root(Remove(u, x)) && sp.leaf != 0
            else if u.left.Node? then
              var sp := LeafSpot(u.left, x, false);
              Freed(u, l) == SetChild(l, sp.holder, sp.right, 0) && sp.leaf == Root(Remove(u, x)) && sp.leaf != 0
            else Freed(u, l) == l && Remove(u, x) == Leaf
  {
    var x := u.ring[0];
    assert x in Elems(u.ring);
    if u.right.Node? {
      DetachFrame(u.right, x, true, l);
      TakeLeafProper(u.right);
    } else if u.left.Node? {
      DetachFrame(u.left, x, false, l);
      TakeLeafProper(u.left);
    }
  }

  lemma RemovedRoot(t: Tree, x: int)
    requires Proper(t) && x in Chunks(t)
    ensures Root(Remove(t, x)) == 0 <==> Remove(t, x).Leaf?
  {
    RemoveProper(t, x);
    RootOf(Remove(t, x));
  }

  /** First half of unlink_large_chunk: x leaves its ring, or a leaf below x is cut off to replace it. */
  method Release(l: Links, x: int, ghost u: Tree, ghost up: int) returns (m: Links, r: int)
    requires u.Node? && Proper(u) && Shape(u, up, l) && up != 0 && x in u.ring
    ensures if x == Root(u) then m == Freed(u, l) && r == Root(Remove(u, x)) else m == RingOut(l, x)
  {
    hide Ring, Chained, Elems, GoodRing, RingOut, SetChild, Remove, Freed, DropRoot, TakeLeaf;
    m, r := l, 0;
    RingCases(u, up, l, x);
    if At(l.bk, x) != x {
      r := At(l.bk, x);
      m := RingOut(l, x);
      if x == Root(u) { RingHeir(u, up, l); }
    } else {
      SingleRoot(u, x);
      LeafHeir(u, l);
      Children(u, x, l);
      var side := true;
      r := At(l.right, x);
      ghost var c := u.right;
      if r == 0 {
        side := false;
        r := At(l.left, x);
        c := u.left;
      }
      if r != 0 {
        var sp := FindLeaf(l, x, r, side, c);
        r := sp.leaf;
        m := SetChild(l, sp.holder, sp.right, 0);
      }
    }
  }

  lemma SingleRoot(u: Tree, x: int)
    requires u.Node? && x in u.ring && |u.ring| <= 1
    ensures x == Root(u) && |u.ring| == 1
  {
  }

  lemma UnlinkedCases(t: Tree, l: Links, x: int, m: Links, r: int)
    requires x in Chunks(t) && Proper(t)
    requires var u := SubtreeAt(t, x);
             u.Node? && u.ring != [] && if x == Root(u) then m == Freed(u, l) && r == Root(Remove(u, x))
                 else m == RingOut(l, x)
    requires x == Root(t) ==> SubtreeAt(t, x) == t
    ensures var u := SubtreeAt(t, x);
            Unlinked(t, l, x) == if x == Root(u) then Replace(m, x, r, x == Root(t)) else m
    ensures x == Root(t) && x == Root(SubtreeAt(t, x)) ==> r == Root(Remove(t, x))
  {
    hide Replace, RingOut, Freed, Remove;
  }

  /** The parent of x is not touched by the first half. */
  lemma ParentKept(u: Tree, up: int, l: Links)
    requires u.Node? && Proper(u) && Shape(u, up, l) && up !in Chunks(u) && up != 0
    ensures At(Freed(u, l).parent, Root(u)) == up
  {
    FreedParent(u, up, l);
  }

  class TreeTable {
    var treemap: word
    var treebins: seq<int>
    var links: Links
    var index: map<int, int>
    ghost var trees: seq<Tree>

    ghost predicate Valid()
      reads this
    {
      BinsOk(trees, treemap, treebins, links, index)
    }

    /** The binned chunks with their sizes. */
    ghost function View(): map<int, nat>
      reads this
    {
      Views(trees)
    }

    constructor ()
      ensures Valid() && View() == map[]
    {
      treemap := 0;
      treebins := seq(NTREEBINS, _ => 0);
      links := Links(map[], map[], map[], map[], map[]);
      index := map[];
      trees := seq(NTREEBINS, _ => Leaf);
      new;
      EmptyMap(treemap);
      EmptyViews(trees);
    }

    method InsertLarge(heads: map<int, word>, x: int, s: nat)
      requires Valid() && Matches(heads, View())
      requires x > 0 && x !in View() && 256 <= s < TWO_32
      modifies this
      ensures Valid() && View() == old(View())[x := s]
    {
      hide BinsOk, Views, ComputeTreeIndex, InBin, Marked, Mark, Matches, BinLow, BinBits, Walk, Attach, Insert,
           Subtree;
      var i := ComputeTreeIndex(s);
      BinOfSize(s);
      var l := links.(left := links.left[x := 0], right := links.right[x := 0]);
      FreshFields(trees, treemap, treebins, links, index, l, index, x);
      if !Marked(treemap, i) {
        var m := l.(parent := l.parent[x := BinAddr(i)], fd := l.fd[x := x], bk := l.bk[x := x]);
        InsertFirst(trees, treemap, treebins, l, index, i, x, s, m);
        treemap := Mark(treemap, i);
        treebins := treebins[i := x];
        links := m;
        trees := trees[i := Node([x], s, Leaf, Leaf)];
      } else {
        InsertMore(trees, treemap, treebins, l, index, i, x, s);
        BinFacts(trees, treemap, treebins, l, index, heads, i);
        var p := FindStop(heads, l, treebins[i], s, i, trees[i]);
        links := Attach(l, p, x);
        trees := trees[i := Insert(trees[i], x, s, BinLow(i), BinBits(i))];
      }
      index := index[x := i];
    }

    method UnlinkLarge(x: int)
      requires Valid() && x in View()
      modifies this
      ensures Valid() && View() == old(View()) - {x}
    {
      hide BinsOk, Views, InBin, Marked, Clear, RingOut, Freed, Remove, Unlinked, Proper, Shape, Trie, Chunks,
           SubtreeAt, SetChild;
      ghost var j := ViewsFind(trees, x);
      BinCount(trees, treemap, treebins, links, index);
      OneBinOnly(trees, treemap, treebins, links, index, j, x);
      RootHere(trees, treemap, treebins, links, index, j);
      ghost var t := trees[j];
      ghost var up := SubtreeShape(t, BinAddr(j), links, x);
      ghost var u := SubtreeAt(t, x);
      RingCases(u, up, links, x);
      UnlinkShape(t, BinAddr(j), links, x);
      RemovedRoot(t, x);
      RootOf(t);
      var l, r := Release(links, x, u, up);
      UnlinkedCases(t, links, x, l, r);
      var xp := At(links.parent, x);
      var roots, marks := treebins, treemap;
      if xp != 0 {
        ParentKept(u, up, links);
        var i := At(index, x);
        if x == treebins[i] {
          roots := roots[i := r];
          if r == 0 {
            marks := Clear(treemap, i);
          }
        } else {
          l := SetChild(l, xp, At(l.left, xp) != x, r);
        }
        if r != 0 {
          l := Relink(l, x, xp, r);
        }
      }
      assert l == Unlinked(t, links, x);
      RootKept(t, x, treebins, roots, j);
      UnlinkBin(trees, treemap, treebins, links, index, j, x, l, roots[j], marks);
      treemap, treebins, links := marks, roots, l;
      trees := trees[j := Remove(t, x)];
    }
  }

  lemma RootKept(t: Tree, x: int, roots: seq<int>, roots': seq<int>, i: nat)
    requires i < |roots| && |roots'| == |roots| && roots[i] == Root(t)
    requires roots' == if x == Root(t) then roots[i := Root(Remove(t, x))] else roots
    requires x != Root(t) ==> Root(Remove(t, x)) == Root(t)
    ensures roots' == roots[i := Root(Remove(t, x))]
  {
    hide Remove;
  }

  lemma EmptyViews(trees: seq<Tree>)
    requires forall i :: 0 <= i < |trees| ==> trees[i] == Leaf
    ensures Views(trees) == map[]
  {
    if trees != [] { EmptyViews(trees[..|trees| - 1]); }
  }
}
