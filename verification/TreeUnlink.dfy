/** Unlinking a chunk from a trie, at the level of pointer writes. */
module TreeUnlink {
  import opened Words
  import opened Tries
  import opened TreeLinks

  /** The leaf reached from the root of t by preferring right children, and the field that points at it. */
  datatype Spot = Spot(leaf: int, holder: int, right: bool)

  ghost function LeafSpot(t: Tree, holder: int, right: bool): Spot
    requires t.Node?
  {
    if t.right.Node? then LeafSpot(t.right, Root(t), true)
    else if t.left.Node? then LeafSpot(t.left, Root(t), false)
    else Spot(Root(t), holder, right)
  }

  /** Same fields at a, except possibly one child pointer. */
  ghost predicate SameButChild(a: int, right: bool, l: Links, m: Links) {
    At(l.fd, a) == At(m.fd, a) && At(l.bk, a) == At(m.bk, a) && At(l.parent, a) == At(m.parent, a)
    && Child(l, a, !right) == Child(m, a, !right)
  }

  /** Clearing the pointer to that leaf leaves the tree that TakeLeaf describes. */
  ghost predicate Detached(t: Tree, q: int, right: bool, l: Links, m: Links)
    requires t.Node?
  {
    var (ring, size, rest) := TakeLeaf(t);
    && ring != [] && Shape(rest, q, m) && Child(m, q, right) == Root(rest)
    && Ring(ring, m) && Chained(ring, m) && At(m.left, ring[0]) == 0 && At(m.right, ring[0]) == 0
  }

  lemma LeafItself(t: Tree, q: int, right: bool, l: Links)
    requires t.Node? && t.left.Leaf? && t.right.Leaf? && Shape(t, q, l) && q !in Chunks(t)
    ensures Detached(t, q, right, l, SetChild(l, q, right, 0))
  {
    var m := SetChild(l, q, right, 0);
    assert forall a :: a in Elems(t.ring) ==> a != q;
    assert t.ring[0] in Elems(t.ring);
    RingFrame(t.ring, l, m);
  }

  lemma {:induction false} DetachFrame(t: Tree, q: int, right: bool, l: Links)
    requires t.Node? && Proper(t) && q !in Chunks(t)
    ensures var sp := LeafSpot(t, q, right);
            var m := SetChild(l, sp.holder, sp.right, 0);
            && (sp.holder in Chunks(t) || (sp.holder == q && sp.right == right))
            && sp.leaf in Chunks(t) && TakeLeaf(t).0 != [] && sp.leaf == TakeLeaf(t).0[0]
            && SameButChild(q, right, l, m)
            && forall a :: a !in Chunks(t) && a != q ==> SameAt(a, l, m)
  {
    assert t.ring[0] in Elems(t.ring);
    if t.right.Node? {
      DetachFrame(t.right, Root(t), true, l);
    } else if t.left.Node? {
      DetachFrame(t.left, Root(t), false, l);
    }
  }

  /** When the leaf is taken out of one subtree, the other parts of the tree stay as they are. */
  lemma DetachBelow(t: Tree, q: int, right: bool, l: Links, m: Links, side: bool, rest: Tree)
    requires t.Node? && Proper(t) && Shape(t, q, l) && q !in Chunks(t)
    requires SameButChild(t.ring[0], side, l, m)
    requires forall a :: a !in Chunks(if side then t.right else t.left) && a != t.ring[0] ==> SameAt(a, l, m)
    requires Shape(rest, t.ring[0], m) && Child(m, t.ring[0], side) == Root(rest)
    ensures Shape(if side then t.(right := rest) else t.(left := rest), q, m)
    ensures SameAt(q, l, m)
  {
    var h := t.ring[0];
    assert h in Elems(t.ring);
    assert h !in Chunks(t.left) && h !in Chunks(t.right);
    RingKept(t.ring, l, m);
    Frame(if side then t.left else t.right, h, l, m);
  }

  lemma HeadChild(t: Tree, up: int, l: Links, right: bool)
    requires t.Node? && Shape(t, up, l)
    ensures t.ring != [] && Root(t) == t.ring[0]
    ensures Child(l, t.ring[0], right) == Root(if right then t.right else t.left)
  {
    hide Ring, Chained, At;
  }

  lemma {:induction false} DetachShape(t: Tree, q: int, right: bool, l: Links)
    requires t.Node? && Proper(t) && Shape(t, q, l) && Child(l, q, right) == Root(t) && q !in Chunks(t)
    ensures var sp := LeafSpot(t, q, right);
            Detached(t, q, right, l, SetChild(l, sp.holder, sp.right, 0))
  {
    hide Proper, Shape, Chunks, Elems, NoDup, Ring, Chained, SameAt, Child, At, SetChild, Root;
    if t.right.Leaf? && t.left.Leaf? {
      HeadChild(t, q, l, true);
      LeafItself(t, q, right, l);
    } else {
      var side := t.right.Node?;
      RingParts(t);
      ShapeParts(t, q, l);
      HeadChild(t, q, l, side);
      var c := if side then t.right else t.left;
      var sp := LeafSpot(c, t.ring[0], side);
      var m := SetChild(l, sp.holder, sp.right, 0);
      DetachShape(c, t.ring[0], side, l);
      DetachFrame(c, t.ring[0], side, l);
      DetachBelow(t, q, right, l, m, side, TakeLeaf(c).2);
      SameChild(q, right, l, m);
      SameRoot(t, side, TakeLeaf(c).2);
    }
  }

  lemma SameRoot(t: Tree, side: bool, c: Tree)
    requires t.Node?
    ensures Root(if side then t.(right := c) else t.(left := c)) == Root(t)
  {
  }

  lemma SameChild(a: int, right: bool, l: Links, m: Links)
    requires SameAt(a, l, m)
    ensures Child(l, a, right) == Child(m, a, right)
  {
  }

  // ---- putting a replacement in the place of x ----

  /** Writes that move the child of x on one side, if there is one, below r. */
  function TakeChild(l: Links, x: int, r: int, right: bool): Links {
    var c := Child(l, x, right);
    if c == 0 then l
    else
      var l := SetChild(l, r, right, c);
      l.(parent := l.parent[c := r])
  }

  /** Writes that give r the parent xp and the children of x. */
  function Relink(l: Links, x: int, xp: int, r: int): Links {
    var l := l.(parent := l.parent[r := xp]);
    var l := TakeChild(l, x, r, false);
    TakeChild(l, x, r, true)
  }

  ghost predicate SameButParent(a: int, l: Links, m: Links) {
    At(l.fd, a) == At(m.fd, a) && At(l.bk, a) == At(m.bk, a) && At(l.left, a) == At(m.left, a)
        && At(l.right, a) == At(m.right, a)
  }

  /** A subtree hung below another chunk: only its root's parent field changes. */
  lemma Reparent(t: Tree, up: int, up': int, l: Links, m: Links)
    requires Proper(t) && Shape(t, up, l)
    requires forall a :: a in Chunks(t) && a != Root(t) ==> SameAt(a, l, m)
    requires t.Node? ==> SameButParent(Root(t), l, m) && At(m.parent, Root(t)) == up'
    ensures Shape(t, up', m)
  {
    if t.Node? {
      var h := t.ring[0];
      assert h in Elems(t.ring);
      RingKept(t.ring, l, m);
      Frame(t.left, h, l, m);
      Frame(t.right, h, l, m);
    }
  }

  lemma RootOf(t: Tree)
    requires Proper(t)
    ensures if t.Leaf? then Root(t) == 0 else Root(t) != 0 && Root(t) in Chunks(t)
  {
    if t.Node? {
      assert t.ring[0] in Elems(t.ring);
    }
  }

  /** r may take the place of x above subtrees a and b. */
  ghost predicate Replaces(ring: seq<int>, a: Tree, b: Tree, x: int, l: Links) {
    && GoodRing(ring) && Ring(ring, l) && Chained(ring, l) && At(l.left, ring[0]) == 0 && At(l.right, ring[0]) == 0
    && Proper(a) && Proper(b) && Shape(a, x, l) && Shape(b, x, l) && At(l.left, x) == Root(a)
    && At(l.right, x) == Root(b)
    && Elems(ring) !! Chunks(a) && Elems(ring) !! Chunks(b) && Chunks(a) !! Chunks(b)
    && x !in Elems(ring) && x !in Chunks(a) && x !in Chunks(b)
  }

  lemma RelinkFields(ring: seq<int>, a: Tree, b: Tree, x: int, xp: int, l: Links)
    requires Replaces(ring, a, b, x, l)
    ensures var m := Relink(l, x, xp, ring[0]);
            && At(m.parent, ring[0]) == xp && At(m.left, ring[0]) == Root(a) && At(m.right, ring[0]) == Root(b)
            && (a.Node? ==> SameButParent(Root(a), l, m) && At(m.parent, Root(a)) == ring[0])
            && (b.Node? ==> SameButParent(Root(b), l, m) && At(m.parent, Root(b)) == ring[0])
            && At(m.fd, ring[0]) == At(l.fd, ring[0]) && At(m.bk, ring[0]) == At(l.bk, ring[0])
            && forall c :: c != ring[0] && c !in Chunks(a) && c !in Chunks(b) ==> SameAt(c, l, m)
  {
    RootOf(a);
    RootOf(b);
    assert ring[0] in Elems(ring);
  }

  lemma RelinkRest(ring: seq<int>, a: Tree, b: Tree, x: int, xp: int, l: Links, c: int)
    requires Replaces(ring, a, b, x, l) && c != ring[0]
    requires (a.Node? ==> c != Root(a)) && (b.Node? ==> c != Root(b))
    ensures SameAt(c, l, Relink(l, x, xp, ring[0]))
  {
    RootOf(a);
    RootOf(b);
  }

  lemma RelinkShape(ring: seq<int>, size: nat, a: Tree, b: Tree, x: int, xp: int, l: Links)
    requires Replaces(ring, a, b, x, l)
    ensures Shape(Node(ring, size, a, b), xp, Relink(l, x, xp, ring[0]))
  {
    var m := Relink(l, x, xp, ring[0]);
    RootOf(a);
    RootOf(b);
    assert ring[0] in Elems(ring);
    RelinkFields(ring, a, b, x, xp, l);
    hide Relink;
    forall c | c in Chunks(a) && c != Root(a)
      ensures SameAt(c, l, m)
    {
      RelinkRest(ring, a, b, x, xp, l, c);
    }
    forall c | c in Chunks(b) && c != Root(b)
      ensures SameAt(c, l, m)
    {
      RelinkRest(ring, a, b, x, xp, l, c);
    }
    RelinkParts(ring, a, b, x, xp, l, m);
  }

  lemma RelinkParts(ring: seq<int>, a: Tree, b: Tree, x: int, xp: int, l: Links, m: Links)
    requires Replaces(ring, a, b, x, l)
    requires forall c :: c in Chunks(a) && c != Root(a) ==> SameAt(c, l, m)
    requires forall c :: c in Chunks(b) && c != Root(b) ==> SameAt(c, l, m)
    requires a.Node? ==> SameButParent(Root(a), l, m) && At(m.parent, Root(a)) == ring[0]
    requires b.Node? ==> SameButParent(Root(b), l, m) && At(m.parent, Root(b)) == ring[0]
    requires At(m.fd, ring[0]) == At(l.fd, ring[0]) && At(m.bk, ring[0]) == At(l.bk, ring[0])
    requires forall c :: c != ring[0] && c !in Chunks(a) && c !in Chunks(b) ==> SameAt(c, l, m)
    ensures Ring(ring, m) && Chained(ring, m) && Shape(a, ring[0], m) && Shape(b, ring[0], m)
  {
    hide Ring, Chained, SameAt, SameButParent;
    RingKept(ring, l, m);
    Reparent(a, x, ring[0], l, m);
    Reparent(b, x, ring[0], l, m);
  }

  // ---- taking x out of its ring ----

  /** Writes that take x out of its ring. */
  function RingOut(l: Links, x: int): Links {
    var f := At(l.fd, x);
    var r := At(l.bk, x);
    var l := l.(bk := l.bk[f := r]);
    l.(fd := l.fd[r := f])
  }

  lemma RingOutHead(ring: seq<int>, l: Links)
    requires GoodRing(ring) && Ring(ring, l) && Chained(ring, l) && |ring| > 1
    ensures var r := DropFromRing(ring, ring[0]);
            var m := RingOut(l, ring[0]);
            r[0] == At(l.bk, ring[0]) && Ring(r, m) && Chained(r, m) && At(m.left, r[0]) == 0 && At(m.right, r[0]) == 0
  {
    var n := |ring|;
    var x := ring[0];
    var r := DropFromRing(ring, x);
    var m := RingOut(l, x);
    assert Next(n, n - 1) == 0 && At(l.bk, ring[Next(n, n - 1)]) == ring[n - 1];
    assert At(l.fd, ring[0]) == ring[1];
    forall k | 0 <= k < |r|
      ensures At(m.fd, r[k]) == r[Next(|r|, k)] && At(m.bk, r[Next(|r|, k)]) == r[k]
    {
      RingOutHeadAt(ring, l, k);
    }
    forall k | 1 <= k < |r|
      ensures At(m.parent, r[k]) == 0 && At(m.left, r[k]) == 0 && At(m.right, r[k]) == 0
    {
      assert r[k] == ring[k];
    }
  }

  lemma RingOutHeadAt(ring: seq<int>, l: Links, k: nat)
    requires GoodRing(ring) && Ring(ring, l) && |ring| > 1 && k < |ring| - 1
    ensures var r := [ring[|ring| - 1]] + ring[1..|ring| - 1];
            var m := RingOut(l, ring[0]);
            At(m.fd, r[k]) == r[Next(|r|, k)] && At(m.bk, r[Next(|r|, k)]) == r[k]
  {
    var n := |ring|;
    var r := [ring[n - 1]] + ring[1..n - 1];
    assert Next(n, n - 1) == 0 && At(l.bk, ring[0]) == ring[n - 1];
    assert Next(n, 0) == 1 && At(l.fd, ring[0]) == ring[1];
    if k > 0 {
      assert r[k] == ring[k];
      assert At(l.fd, ring[k]) == ring[k + 1] && At(l.bk, ring[k + 1]) == ring[k];
    }
  }

  lemma RingOutOther(ring: seq<int>, l: Links, x: int)
    requires GoodRing(ring) && Ring(ring, l) && Chained(ring, l) && x in ring && x != ring[0]
    ensures var r := DropFromRing(ring, x);
            var m := RingOut(l, x);
            r != [] && r[0] == ring[0] && Ring(r, m) && Chained(r, m)
  {
    var n := |ring|;
    var i := IndexOf(ring, x);
    var r := DropFromRing(ring, x);
    var m := RingOut(l, x);
    forall k | 0 <= k < |r|
      ensures At(m.fd, r[k]) == r[Next(|r|, k)] && At(m.bk, r[Next(|r|, k)]) == r[k]
    {
      RingOutOtherAt(ring, l, i, k);
    }
    forall k | 1 <= k < |r|
      ensures At(m.parent, r[k]) == 0 && At(m.left, r[k]) == 0 && At(m.right, r[k]) == 0
    {
      assert r[k] == ring[if k < i then k else k + 1];
    }
  }

  /** Where member k of the ring without member i was. */
  function Was(i: nat, k: nat): nat { if k < i then k else k + 1 }

  lemma WasAt(ring: seq<int>, i: nat, k: nat)
    requires 1 <= i < |ring| && k < |ring| - 1
    ensures var r := ring[..i] + ring[i + 1..];
            |r| == |ring| - 1 && r[k] == ring[Was(i, k)]
  {
  }

  lemma WasNext(n: nat, i: nat, k: nat)
    requires 1 <= i < n && k < n - 1
    ensures Next(n - 1, k) < n - 1 && Was(i, k) < n && Was(i, k) != i
    ensures Was(i, Next(n - 1, k)) == if Was(i, k) == i - 1 then Next(n, i) else Next(n, Was(i, k))
    ensures Next(n, i) < n && Next(n, i - 1) == i && (Was(i, k) != i - 1 ==> Next(n, Was(i, k)) != i)
    ensures Was(i, k) != i - 1 ==> Next(n, Was(i, k)) < n && Next(n, Was(i, k)) != Next(n, i)
  {
  }

  lemma RingPairAt(ring: seq<int>, l: Links, k: nat)
    requires Ring(ring, l) && k < |ring|
    ensures Next(|ring|, k) < |ring| && At(l.fd, ring[k]) == ring[Next(|ring|, k)]
            && At(l.bk, ring[Next(|ring|, k)]) == ring[k]
  {
    hide At;
  }

  lemma RingOutFields(l: Links, x: int)
    ensures var f, r, m := At(l.fd, x), At(l.bk, x), RingOut(l, x);
            && At(m.fd, r) == f && At(m.bk, f) == r
            && (forall a :: a != r ==> At(m.fd, a) == At(l.fd, a)) && forall a :: a != f ==> At(m.bk, a) == At(l.bk, a)
  {
  }

  lemma RingOutOtherAt(ring: seq<int>, l: Links, i: nat, k: nat)
    requires GoodRing(ring) && Ring(ring, l) && 1 <= i < |ring| && k < |ring| - 1
    ensures var r := ring[..i] + ring[i + 1..];
            var m := RingOut(l, ring[i]);
            At(m.fd, r[k]) == r[Next(|r|, k)] && At(m.bk, r[Next(|r|, k)]) == r[k]
  {
    hide Next, At, RingOut, Ring, Was;
    var n := |ring|;
    WasNext(n, i, k);
    WasAt(ring, i, k);
    WasAt(ring, i, Next(n - 1, k));
    RingPairAt(ring, l, i);
    RingPairAt(ring, l, i - 1);
    RingPairAt(ring, l, Was(i, k));
    RingOutFields(l, ring[i]);
    var j := Was(i, k);
    if j != i - 1 {
      assert ring[j] != ring[i - 1] && ring[Next(n, j)] != ring[Next(n, i)];
    }
  }

  // ---- the whole of unlink_large_chunk ----

  /** The subtree whose ring holds x. */
  ghost function SubtreeAt(t: Tree, x: int): Tree
    requires x in Chunks(t)
  {
    if x in t.ring then t
    else if x in Chunks(t.left) then SubtreeAt(t.left, x)
    else SubtreeAt(t.right, x)
  }

  /** First group of writes: the first chunk of t's ring gives up its ring, or a leaf below it is cut off. */
  ghost function Freed(t: Tree, l: Links): Links
    requires t.Node? && t.ring != []
  {
    if |t.ring| > 1 then RingOut(l, t.ring[0])
    else if t.right.Node? then
      var sp := LeafSpot(t.right, t.ring[0], true);
      SetChild(l, sp.holder, sp.right, 0)
    else if t.left.Node? then
      var sp := LeafSpot(t.left, t.ring[0], false);
      SetChild(l, sp.holder, sp.right, 0)
    else l
  }

  /** Remaining writes: the parent of x, unless x was the root of its bin, now points at r, and r takes over x's
      relatives. */
  function Replace(l: Links, x: int, r: int, root: bool): Links {
    var xp := At(l.parent, x);
    var l := if root then l else SetChild(l, xp, At(l.left, xp) != x, r);
    if r == 0 then l else Relink(l, x, xp, r)
  }

  ghost function Unlinked(t: Tree, l: Links, x: int): Links
    requires x in Chunks(t) && Proper(t)
  {
    SubtreeProper(t, x);
    var u := SubtreeAt(t, x);
    if x != Root(u) then RingOut(l, x)
    else Replace(Freed(u, l), x, Root(Remove(u, x)), x == Root(t))
  }

  lemma {:induction false} SubtreeProper(t: Tree, x: int)
    requires x in Chunks(t) && Proper(t)
    ensures SubtreeAt(t, x).Node? && x in SubtreeAt(t, x).ring && Proper(SubtreeAt(t, x))
  {
    if x !in t.ring {
      if x in Chunks(t.left) { SubtreeProper(t.left, x); } else { SubtreeProper(t.right, x); }
    }
  }

  lemma RingNeighbours(ring: seq<int>, l: Links, x: int)
    requires Ring(ring, l) && x in ring
    ensures At(l.fd, x) in Elems(ring) && At(l.bk, x) in Elems(ring)
  {
    var i :| 0 <= i < |ring| && ring[i] == x;
    var j := if i == 0 then |ring| - 1 else i - 1;
    assert Next(|ring|, j) == i;
    assert At(l.fd, ring[i]) == ring[Next(|ring|, i)] && At(l.bk, ring[Next(|ring|, j)]) == ring[j];
    assert ring[Next(|ring|, i)] in Elems(ring) && ring[j] in Elems(ring);
  }

  lemma RingOutFrame(ring: seq<int>, l: Links, x: int)
    requires Ring(ring, l) && x in ring
    ensures forall a :: a !in Elems(ring) ==> SameAt(a, l, RingOut(l, x))
  {
    RingNeighbours(ring, l, x);
    hide Ring, Elems;
  }

  /** x heads a ring of several chunks: its predecessor on the ring replaces it. */
  lemma HeadOfRing(t: Tree, up: int, l: Links)
    requires t.Node? && Proper(t) && Shape(t, up, l) && |t.ring| > 1
    ensures var r := DropFromRing(t.ring, t.ring[0]);
            r != [] && Replaces(r, t.left, t.right, t.ring[0], Freed(t, l)) && At(Freed(t, l).parent, t.ring[0]) == up
    ensures forall a :: a !in Chunks(t) ==> SameAt(a, l, Freed(t, l))
  {
    var x := t.ring[0];
    var m := RingOut(l, x);
    assert x in Elems(t.ring);
    RingOutHead(t.ring, l);
    RingOutFrame(t.ring, l, x);
    DropFromRingParts(t.ring, x);
    hide Ring, Chained, Elems, GoodRing, RingOut;
    Frame(t.left, x, l, m);
    Frame(t.right, x, l, m);
  }

  /** x is alone on its ring and has a subtree on the given side: a leaf of it replaces x. */
  lemma HeadAlone(t: Tree, up: int, l: Links, side: bool)
    requires t.Node? && Proper(t) && Shape(t, up, l) && up !in Chunks(t) && |t.ring| == 1
    requires if side then t.right.Node? else t.left.Node? && t.right.Leaf?
    ensures var (r, size, rest) := TakeLeaf(if side then t.right else t.left);
            && r != [] && At(Freed(t, l).parent, t.ring[0]) == up
            && Replaces(r, if side then t.left else rest, if side then rest else t.right, t.ring[0], Freed(t, l))
    ensures forall a :: a !in Chunks(t) ==> SameAt(a, l, Freed(t, l))
  {
    var x := t.ring[0];
    var c := if side then t.right else t.left;
    var m := Freed(t, l);
    assert x in Elems(t.ring);
    hide Elems, GoodRing, Ring, Chained;
    DetachFrame(c, x, side, l);
    DetachShape(c, x, side, l);
    TakeLeafProper(c);
    Frame(if side then t.left else t.right, x, l, m);
  }

  lemma RelinkFrame(ring: seq<int>, a: Tree, b: Tree, x: int, xp: int, l: Links, c: int)
    requires Replaces(ring, a, b, x, l) && c !in Elems(ring) && c !in Chunks(a) && c !in Chunks(b)
    ensures SameAt(c, l, Relink(l, x, xp, ring[0]))
  {
    assert ring[0] in Elems(ring);
    RootOf(a);
    RootOf(b);
    RelinkRest(ring, a, b, x, xp, l, c);
  }

  /** Removing the first chunk of the root's ring. */
  lemma HeadShape(t: Tree, up: int, l: Links)
    requires t.Node? && Proper(t) && Shape(t, up, l) && up !in Chunks(t)
    ensures Root(t) in Chunks(t)
    ensures var m := Replace(Freed(t, l), Root(t), Root(Remove(t, Root(t))), true);
            Shape(Remove(t, Root(t)), up, m) && forall a :: a !in Chunks(t) ==> SameAt(a, l, m)
  {
    var x := t.ring[0];
    RootOf(t);
    assert x in Elems(t.ring);
    if |t.ring| > 1 {
      var r := DropFromRing(t.ring, x);
      HeadOfRing(t, up, l);
      DropFromRingParts(t.ring, x);
      HeadDone(t, r, t.size, t.left, t.right, up, l, Freed(t, l));
    } else if t.right.Node? {
      var (r, size, rest) := TakeLeaf(t.right);
      HeadAlone(t, up, l, true);
      TakeLeafProper(t.right);
      HeadDone(t, r, size, t.left, rest, up, l, Freed(t, l));
    } else if t.left.Node? {
      var (r, size, rest) := TakeLeaf(t.left);
      HeadAlone(t, up, l, false);
      TakeLeafProper(t.left);
      HeadDone(t, r, size, rest, t.right, up, l, Freed(t, l));
    }
  }

  lemma HeadDone(t: Tree, r: seq<int>, size: nat, a: Tree, b: Tree, up: int, l: Links, m: Links)
    requires t.Node? && t.ring != [] && r != [] && Replaces(r, a, b, t.ring[0], m) && At(m.parent, t.ring[0]) == up
    requires Elems(r) <= Chunks(t) && Chunks(a) <= Chunks(t) && Chunks(b) <= Chunks(t)
    requires forall c :: c !in Chunks(t) ==> SameAt(c, l, m)
    ensures var m' := Replace(m, t.ring[0], r[0], true);
            Shape(Node(r, size, a, b), up, m') && forall c :: c !in Chunks(t) ==> SameAt(c, l, m')
  {
    RelinkShape(r, size, a, b, t.ring[0], up, m);
    var m' := Relink(m, t.ring[0], up, r[0]);
    assert r[0] != 0 by { assert r[0] in r; }
    forall c | c !in Chunks(t)
      ensures SameAt(c, l, m')
    {
      RelinkFrame(r, a, b, t.ring[0], up, m, c);
    }
  }

  /** x is chained behind the first of the root's ring. */
  lemma ChainedShape(t: Tree, up: int, l: Links, x: int)
    requires t.Node? && Proper(t) && Shape(t, up, l) && x in t.ring && x != t.ring[0]
    ensures |t.ring| > 1
    ensures Shape(t.(ring := DropFromRing(t.ring, x)), up, RingOut(l, x))
    ensures forall a :: a !in Chunks(t) ==> SameAt(a, l, RingOut(l, x))
  {
    var m := RingOut(l, x);
    RingOutOther(t.ring, l, x);
    RingOutFrame(t.ring, l, x);
    assert t.ring[0] in Elems(t.ring);
    hide Ring, Chained, Elems, GoodRing;
    Frame(t.left, t.ring[0], l, m);
    Frame(t.right, t.ring[0], l, m);
  }

  /** h is the parent of x, on the given side. */
  ghost predicate ParentOf(l: Links, x: int, h: int, side: bool, r: int) {
    && At(l.parent, x) == h && h != x && h != r
    && (if side then At(l.left, h) != x else At(l.left, h) == x)
    && h != At(l.left, x) && h != At(l.right, x)
  }

  lemma TakeChildAt(l: Links, x: int, r: int, right: bool, a: int)
    ensures var m := TakeChild(l, x, r, right);
            var c := Child(l, x, right);
            && m.fd == l.fd && m.bk == l.bk && Child(m, a, !right) == Child(l, a, !right)
            && Child(m, a, right) == (if a == r && c != 0 then c else Child(l, a, right))
            && At(m.parent, a) == (if c != 0 && a == c then r else At(l.parent, a))
  {
  }

  /** All fields of chunk a after Relink. */
  lemma RelinkAt(l: Links, x: int, xp: int, r: int, a: int)
    ensures var m := Relink(l, x, xp, r);
            var c0 := Child(l, x, false);
            var c1 := Child(l, x, true);
            && m.fd == l.fd && m.bk == l.bk
            && Child(m, a, false) == (if a == r && c0 != 0 then c0 else Child(l, a, false))
            && Child(m, a, true) == (if a == r && c1 != 0 then c1 else Child(l, a, true))
            && At(m.parent, a) == (if a != 0 && (a == c0 || a == c1) then r else if a == r then xp else At(l.parent, a))
  {
    var l0 := l.(parent := l.parent[r := xp]);
    assert Child(l0, x, false) == Child(l, x, false) && Child(l0, x, true) == Child(l, x, true);
    assert Child(l0, a, false) == Child(l, a, false) && Child(l0, a, true) == Child(l, a, true);
    assert At(l0.parent, a) == if a == r then xp else At(l.parent, a);
    hide TakeChild, Child, At, SetChild;
    TakeChildAt(l0, x, r, false, x);
    TakeChildAt(l0, x, r, false, a);
    TakeChildAt(TakeChild(l0, x, r, false), x, r, true, a);
  }

  lemma SetChildAt(l: Links, h: int, right: bool, r: int, a: int)
    ensures var m := SetChild(l, h, right, r);
            && m.fd == l.fd && m.bk == l.bk && m.parent == l.parent
            && Child(m, a, right) == (if a == h then r else Child(l, a, right))
            && Child(m, a, !right) == Child(l, a, !right)
  {
  }

  lemma FixOther(l: Links, x: int, h: int, side: bool, r: int, a: int)
    requires ParentOf(l, x, h, side, r) && a != h
    ensures SameAt(a, Replace(l, x, r, true), Replace(l, x, r, false))
  {
    var l' := SetChild(l, h, side, r);
    assert Child(l, a, false) == At(l.left, a) && Child(l, a, true) == At(l.right, a);
    assert Replace(l, x, r, false) == if r == 0 then l' else Relink(l', x, h, r);
    SetChildAt(l, h, side, r, a);
    SetChildAt(l, h, side, r, x);
    RelinkAt(l, x, h, r, a);
    RelinkAt(l', x, h, r, a);
    FixOtherDone(l, l', x, h, r, a);
  }

  lemma FixOtherDone(l: Links, l': Links, x: int, h: int, r: int, a: int)
    requires l'.fd == l.fd && l'.bk == l.bk && l'.parent == l.parent
    requires forall s :: Child(l', x, s) == Child(l, x, s) && Child(l', a, s) == Child(l, a, s)
    ensures SameAt(a, l, l') && SameAt(a, Relink(l, x, h, r), Relink(l', x, h, r))
  {
    hide Relink;
    RelinkAt(l, x, h, r, a);
    RelinkAt(l', x, h, r, a);
    var m, m' := Relink(l, x, h, r), Relink(l', x, h, r);
    assert forall s :: Child(m', a, s) == Child(m, a, s) by {
      assert Child(m', a, false) == Child(m, a, false) && Child(m', a, true) == Child(m, a, true);
    }
    assert Child(l', a, false) == Child(l, a, false) && Child(l', a, true) == Child(l, a, true);
    assert Child(m', a, false) == Child(m, a, false) && Child(m', a, true) == Child(m, a, true);
  }

  lemma FixHere(l: Links, x: int, h: int, side: bool, r: int)
    requires ParentOf(l, x, h, side, r)
    ensures SameButChild(h, side, Replace(l, x, r, true), Replace(l, x, r, false))
    ensures Child(Replace(l, x, r, false), h, side) == r
  {
    var l' := SetChild(l, h, side, r);
    assert Replace(l, x, r, false) == if r == 0 then l' else Relink(l', x, h, r);
    hide Relink;
    SetChildAt(l, h, side, r, h);
    SetChildAt(l, h, side, r, x);
    RelinkAt(l, x, h, r, h);
    RelinkAt(l', x, h, r, h);
  }

  /** Also redirecting the child pointer of h, the parent of x, touches nothing else. */
  lemma FixParent(l: Links, x: int, h: int, side: bool, r: int)
    requires ParentOf(l, x, h, side, r)
    ensures var m1 := Replace(l, x, r, true);
            var m2 := Replace(l, x, r, false);
            && (forall a :: a != h ==> SameAt(a, m1, m2))
            && SameButChild(h, side, m1, m2) && Child(m2, h, side) == r
  {
    hide SameAt, Replace, ParentOf;
    forall a | a != h
      ensures SameAt(a, Replace(l, x, r, true), Replace(l, x, r, false))
    {
      FixOther(l, x, h, side, r, a);
    }
    FixHere(l, x, h, side, r);
  }

  lemma FreedParent(c: Tree, h: int, l: Links)
    requires c.Node? && Proper(c) && Shape(c, h, l) && h !in Chunks(c) && h != 0
    ensures At(Freed(c, l).parent, Root(c)) == h
    ensures h != At(Freed(c, l).left, Root(c)) && h != At(Freed(c, l).right, Root(c)) && h != Root(Remove(c, Root(c)))
    ensures SameAt(h, l, Freed(c, l))
  {
    var x := c.ring[0];
    assert x in Elems(c.ring);
    RootOf(c.left);
    RootOf(c.right);
    if |c.ring| > 1 {
      HeadOfRing(c, h, l);
      DropFromRingParts(c.ring, x);
      assert DropFromRing(c.ring, x)[0] in Elems(DropFromRing(c.ring, x));
    } else if c.right.Node? || c.left.Node? {
      var side := c.right.Node?;
      var (r, size, rest) := TakeLeaf(if side then c.right else c.left);
      HeadAlone(c, h, l, side);
      TakeLeafProper(if side then c.right else c.left);
      RootOf(rest);
      assert r[0] in Elems(r);
    }
  }

  /** x heads the ring at the root of one subtree of t. */
  lemma BelowShape(t: Tree, up: int, l: Links, side: bool)
    requires t.Node? && Proper(t) && Shape(t, up, l) && up !in Chunks(t)
    requires var c := if side then t.right else t.left;
             c.Node? && c.ring != []
    ensures var c := if side then t.right else t.left;
            var m := Replace(Freed(c, l), Root(c), Root(Remove(c, Root(c))), false);
            var c' := Remove(c, Root(c));
            && Shape(if side then t.(right := c') else t.(left := c'), up, m)
            && forall a :: a !in Chunks(t) ==> SameAt(a, l, m)
  {
    var h := t.ring[0];
    var c := if side then t.right else t.left;
    var x := Root(c);
    var r := Root(Remove(c, x));
    assert h in Elems(t.ring) && h != 0;
    HeadShape(c, h, l);
    FreedParent(c, h, l);
    RootOf(t.left);
    RootOf(c);
    var f := Freed(c, l);
    FixParent(f, x, h, side, r);
    var m1 := Replace(f, x, r, true);
    var m := Replace(f, x, r, false);
    RemoveProper(c, x);
    hide Ring, Chained, Elems, GoodRing, Freed, Replace, Remove, SameAt, HeadLinked;
    BelowDone(t, up, l, m1, m, side, Remove(c, x));
  }

  lemma BelowDone(t: Tree, up: int, l: Links, m1: Links, m: Links, side: bool, c': Tree)
    requires t.Node? && Proper(t) && Shape(t, up, l) && up !in Chunks(t)
    requires var c := if side then t.right else t.left;
             && Shape(c', t.ring[0], m1) && Chunks(c') <= Chunks(c)
             && (forall a :: a !in Chunks(c) ==> SameAt(a, l, m1))
    requires forall a :: a != t.ring[0] ==> SameAt(a, m1, m)
    requires SameButChild(t.ring[0], side, m1, m) && Child(m, t.ring[0], side) == Root(c')
    ensures Shape(if side then t.(right := c') else t.(left := c'), up, m)
    ensures forall a :: a !in Chunks(t) ==> SameAt(a, l, m)
  {
    var h := t.ring[0];
    assert h in Elems(t.ring);
    hide Ring, Chained, Elems, GoodRing;
    Frame(c', h, m1, m);
    assert SameAt(h, l, m1);
    forall a | a !in Chunks(if side then t.right else t.left) && a != h
      ensures SameAt(a, l, m)
    {
      assert SameAt(a, l, m1) && SameAt(a, m1, m);
    }
    DetachBelow(t, up, side, l, m, side, c');
  }

  /** The pointer writes of unlink_large_chunk, wherever x sits in the tree. */
  lemma {:induction false} UnlinkShape(t: Tree, up: int, l: Links, x: int)
    requires Proper(t) && Shape(t, up, l) && x in Chunks(t) && up !in Chunks(t)
    ensures Shape(Remove(t, x), up, Unlinked(t, l, x))
    ensures forall a :: a !in Chunks(t) ==> SameAt(a, l, Unlinked(t, l, x))
    ensures x != Root(t) ==> Root(Remove(t, x)) == Root(t)
  {
    if x == t.ring[0] {
      HeadShape(t, up, l);
    } else if x in t.ring {
      ChainedShape(t, up, l, x);
      RingOutOther(t.ring, l, x);
    } else {
      assert x !in Elems(t.ring);
      assert t.ring[0] in Elems(t.ring);
      hide Ring, Chained, Elems, GoodRing, HeadLinked;
      var side := x !in Chunks(t.left);
      var c := if side then t.right else t.left;
      var h := t.ring[0];
      if x == Root(c) {
        RootOf(c);
        assert c.ring != [];
        BelowShape(t, up, l, side);
        assert SubtreeAt(t, x) == c;
      } else {
        UnlinkShape(c, h, l, x);
        UnlinkBelow(t, up, l, x, side);
      }
    }
  }

  lemma UnlinkBelow(t: Tree, up: int, l: Links, x: int, side: bool)
    requires t.Node? && Proper(t) && Shape(t, up, l) && up !in Chunks(t)
    requires var c := if side then t.right else t.left;
             && x in Chunks(c) && x != Root(c)
             && Shape(Remove(c, x), t.ring[0], Unlinked(c, l, x)) && Root(Remove(c, x)) == Root(c)
             && forall a :: a !in Chunks(c) ==> SameAt(a, l, Unlinked(c, l, x))
    ensures var c := if side then t.right else t.left;
            var m := Unlinked(c, l, x);
            && Shape(if side then t.(right := Remove(c, x)) else t.(left := Remove(c, x)), up, m)
            && forall a :: a !in Chunks(t) ==> SameAt(a, l, m)
  {
    var c := if side then t.right else t.left;
    var m := Unlinked(c, l, x);
    assert t.ring[0] in Elems(t.ring);
    assert SameAt(t.ring[0], l, m);
    hide Ring, Chained, Elems, GoodRing, Unlinked, Remove;
    DetachBelow(t, up, side, l, m, side, Remove(c, x));
  }
}
