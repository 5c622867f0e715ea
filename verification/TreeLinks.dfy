/** The tries as dlmalloc stores them: pointer fields inside the free chunks. */
module TreeLinks {
  import opened Words
  import opened Tries

  /** The link fields of tree chunks, by chunk address; 0 is the null pointer. */
  datatype Links = Links(fd: map<int, int>, bk: map<int, int>, left: map<int, int>, right: map<int, int>,
          parent: map<int, int>)

  function At(m: map<int, int>, a: int): int { if a in m then m[a] else 0 }

  function Child(l: Links, a: int, right: bool): int { if right then At(l.right, a) else At(l.left, a) }

  function SetChild(l: Links, a: int, right: bool, c: int): Links {
    if right then l.(right := l.right[a := c]) else l.(left := l.left[a := c])
  }

  function Next(n: nat, k: nat): nat { if k + 1 == n then 0 else k + 1 }

  /** fd runs round the ring and bk runs back. */
  ghost predicate Ring(ring: seq<int>, l: Links) {
    forall k :: 0 <= k < |ring| ==>
      At(l.fd, ring[k]) == ring[Next(|ring|, k)] && At(l.bk, ring[Next(|ring|, k)]) == ring[k]
  }

  /** Chunks chained behind the first of a ring have no place in the tree. */
  ghost predicate Chained(ring: seq<int>, l: Links) {
    forall k :: 1 <= k < |ring| ==> At(l.parent, ring[k]) == 0 && At(l.left, ring[k]) == 0 && At(l.right, ring[k]) == 0
  }

  ghost predicate HeadLinked(t: Tree, up: int, l: Links)
    requires t.Node? && t.ring != []
  {
    At(l.parent, t.ring[0]) == up && At(l.left, t.ring[0]) == Root(t.left) && At(l.right, t.ring[0]) == Root(t.right)
  }

  /** The fields hold exactly tree t, hanging below up. */
  ghost predicate Shape(t: Tree, up: int, l: Links) {
    t.Node? ==>
      && t.ring != [] && HeadLinked(t, up, l) && Ring(t.ring, l) && Chained(t.ring, l)
      && Shape(t.left, t.ring[0], l) && Shape(t.right, t.ring[0], l)
  }

  ghost predicate SameAt(a: int, l: Links, m: Links) {
    At(l.fd, a) == At(m.fd, a) && At(l.bk, a) == At(m.bk, a) && At(l.left, a) == At(m.left, a)
    && At(l.right, a) == At(m.right, a) && At(l.parent, a) == At(m.parent, a)
  }

  /** A tree depends on the fields of its own chunks only. */
  lemma {:induction false} Frame(t: Tree, up: int, l: Links, m: Links)
    requires Shape(t, up, l)
    requires forall a :: a in Chunks(t) ==> SameAt(a, l, m)
    ensures Shape(t, up, m)
  {
    if t.Node? {
      RingFrame(t.ring, l, m);
      assert t.ring[0] in Chunks(t);
      Frame(t.left, t.ring[0], l, m);
      Frame(t.right, t.ring[0], l, m);
    }
  }

  lemma RingFrame(ring: seq<int>, l: Links, m: Links)
    requires forall a :: a in Elems(ring) ==> SameAt(a, l, m)
    ensures Ring(ring, l) ==> Ring(ring, m)
    ensures Chained(ring, l) ==> Chained(ring, m)
  {
    assert forall k :: 0 <= k < |ring| ==> ring[k] in Elems(ring);
    if Ring(ring, l) {
      forall k | 0 <= k < |ring|
        ensures At(m.fd, ring[k]) == ring[Next(|ring|, k)] && At(m.bk, ring[Next(|ring|, k)]) == ring[k]
      {
        assert SameAt(ring[k], l, m) && SameAt(ring[Next(|ring|, k)], l, m);
      }
    }
    if Chained(ring, l) {
      forall k | 1 <= k < |ring|
        ensures At(m.parent, ring[k]) == 0 && At(m.left, ring[k]) == 0 && At(m.right, ring[k]) == 0
      {
        assert SameAt(ring[k], l, m);
      }
    }
  }

  // ---- insertion ----

  /** Where the search for size s ends: the chunk it stops at, whether its size is s, and which empty side is left. */
  datatype Stop = Stop(at: int, found: bool, right: bool)

  ghost function Walk(t: Tree, s: nat, lo: nat, w: nat): Stop
    requires t.Node?
  {
    if t.size == s || w == 0 then Stop(Root(t), true, false)
    else if s < lo + Pow2(w - 1) then
      if t.left.Leaf? then Stop(Root(t), false, false) else Walk(t.left, s, lo, w - 1)
    else
      if t.right.Leaf? then Stop(Root(t), false, true) else Walk(t.right, s, lo + Pow2(w - 1), w - 1)
  }

  /** Writes that hang chunk x below chunk a. */
  function AttachLeaf(l: Links, a: int, right: bool, x: int): Links {
    var l := SetChild(l, a, right, x);
    l.(parent := l.parent[x := a], fd := l.fd[x := x], bk := l.bk[x := x])
  }

  /** Writes that put chunk x behind chunk a on its ring. */
  function AttachRing(l: Links, a: int, x: int): Links {
    var f := At(l.fd, a);
    var l := l.(fd := l.fd[a := x], bk := l.bk[f := x]);
    l.(fd := l.fd[x := f], bk := l.bk[x := a], parent := l.parent[x := 0])
  }

  function Attach(l: Links, p: Stop, x: int): Links {
    if p.found then AttachRing(l, p.at, x) else AttachLeaf(l, p.at, p.right, x)
  }

  lemma AttachRingKeeps(ring: seq<int>, l: Links, x: int)
    requires GoodRing(ring) && x !in ring && Ring(ring, l) && Chained(ring, l)
    requires At(l.left, x) == 0 && At(l.right, x) == 0
    ensures var l' := AttachRing(l, ring[0], x);
            var ring' := [ring[0], x] + ring[1..];
            Ring(ring', l') && Chained(ring', l')
  {
    var l' := AttachRing(l, ring[0], x);
    var r := [ring[0], x] + ring[1..];
    assert At(l.fd, ring[0]) == ring[Next(|ring|, 0)];
    forall k | 0 <= k < |r|
      ensures At(l'.fd, r[k]) == r[Next(|r|, k)] && At(l'.bk, r[Next(|r|, k)]) == r[k]
    {
      if k >= 2 {
        assert r[k] == ring[k - 1];
        assert r[Next(|r|, k)] == ring[Next(|ring|, k - 1)];
      }
    }
    forall k | 1 <= k < |r|
      ensures At(l'.parent, r[k]) == 0 && At(l'.left, r[k]) == 0 && At(l'.right, r[k]) == 0
    {
      if k >= 2 { assert r[k] == ring[k - 1]; }
    }
  }

  lemma AttachRingFrame(ring: seq<int>, l: Links, x: int)
    requires ring != [] && Ring(ring, l)
    ensures ring[0] in Elems(ring)
    ensures forall a :: a !in Elems(ring) && a != x ==> SameAt(a, l, AttachRing(l, ring[0], x))
  {
    assert At(l.fd, ring[0]) == ring[Next(|ring|, 0)];
    assert ring[Next(|ring|, 0)] in Elems(ring);
  }

  /** The walk stops at t itself. */
  lemma AttachHere(t: Tree, up: int, l: Links, x: int, p: Stop)
    requires t.Node? && Proper(t) && Shape(t, up, l) && p.at == t.ring[0]
    ensures p.at in Chunks(t) && forall a :: a !in Chunks(t) && a != x ==> SameAt(a, l, Attach(l, p, x))
  {
    AttachRingFrame(t.ring, l, x);
    hide Ring, Chained, Elems, GoodRing, AttachRing;
  }

  lemma {:induction false} AttachFrame(t: Tree, up: int, l: Links, x: int, s: nat, lo: nat, w: nat)
    requires t.Node? && Proper(t) && Trie(t, lo, w) && Shape(t, up, l)
    ensures Walk(t, s, lo, w).at in Chunks(t)
    ensures forall a :: a !in Chunks(t) && a != x ==> SameAt(a, l, Attach(l, Walk(t, s, lo, w), x))
  {
    hide SameAt, Ring, Chained, Elems, GoodRing, Attach;
    if t.size == s || w == 0 || (if s < lo + Pow2(w - 1) then t.left.Leaf? else t.right.Leaf?) {
      AttachHere(t, up, l, x, Walk(t, s, lo, w));
    } else if s < lo + Pow2(w - 1) {
      AttachFrame(t.left, t.ring[0], l, x, s, lo, w - 1);
    } else {
      AttachFrame(t.right, t.ring[0], l, x, s, lo + Pow2(w - 1), w - 1);
    }
  }

  lemma InsertRoot(t: Tree, x: int, s: nat, lo: nat, w: nat)
    requires t.Node? && t.ring != []
    ensures Insert(t, x, s, lo, w).Node? && Root(Insert(t, x, s, lo, w)) == Root(t)
  {
  }

  lemma InsertShapeHere(t: Tree, up: int, l: Links, x: int, s: nat, lo: nat, w: nat)
    requires t.Node? && Proper(t) && Trie(t, lo, w) && Shape(t, up, l) && t.size == s
    requires x !in Chunks(t) && At(l.left, x) == 0 && At(l.right, x) == 0
    ensures Shape(Insert(t, x, s, lo, w), up, Attach(l, Walk(t, s, lo, w), x))
  {
    var m := AttachRing(l, t.ring[0], x);
    AttachFrame(t, up, l, x, s, lo, w);
    assert x !in t.ring by { assert x !in Elems(t.ring); }
    AttachRingKeeps(t.ring, l, x);
    assert forall a :: a in Chunks(t.left) || a in Chunks(t.right) ==> SameAt(a, l, m) by {
      forall a | a in Chunks(t.left) || a in Chunks(t.right)
        ensures SameAt(a, l, m)
      {
        assert a !in Elems(t.ring);
        assert At(l.fd, t.ring[0]) == t.ring[Next(|t.ring|, 0)];
        assert t.ring[0] in Elems(t.ring) && t.ring[Next(|t.ring|, 0)] in Elems(t.ring);
      }
    }
    Frame(t.left, t.ring[0], l, m);
    Frame(t.right, t.ring[0], l, m);
  }

  lemma AttachLeafFields(l: Links, h: int, right: bool, x: int)
    requires x != h && At(l.left, x) == 0 && At(l.right, x) == 0
    ensures var m := AttachLeaf(l, h, right, x);
            && (forall a :: a != x && a != h ==> SameAt(a, l, m))
            && At(m.fd, h) == At(l.fd, h) && At(m.bk, h) == At(l.bk, h) && At(m.parent, h) == At(l.parent, h)
            && Child(m, h, right) == x && Child(m, h, !right) == Child(l, h, !right)
            && At(m.parent, x) == h && At(m.left, x) == 0 && At(m.right, x) == 0 && At(m.fd, x) == x && At(m.bk, x) == x
  {
  }

  lemma LoneShape(x: int, s: nat, h: int, m: Links)
    requires At(m.parent, x) == h && At(m.left, x) == 0 && At(m.right, x) == 0 && At(m.fd, x) == x && At(m.bk, x) == x
    ensures Shape(Node([x], s, Leaf, Leaf), h, m)
  {
    hide At;
    assert Shape(Leaf, x, m);
  }

  /** The same head with another tree on one side. */
  lemma SideShape(t: Tree, up: int, l: Links, m: Links, c: Tree, right: bool)
    requires t.Node? && Shape(t, up, l) && Ring(t.ring, m) && Chained(t.ring, m)
    requires At(m.parent, t.ring[0]) == At(l.parent, t.ring[0])
             && Child(m, t.ring[0], !right) == Child(l, t.ring[0], !right) && Child(m, t.ring[0], right) == Root(c)
    requires Shape(c, t.ring[0], m) && Shape(if right then t.left else t.right, t.ring[0], m)
    ensures Shape(if right then t.(right := c) else t.(left := c), up, m)
  {
    hide Ring, Chained, At;
  }

  lemma RingParts(t: Tree)
    requires t.Node? && Proper(t)
    ensures t.ring != [] && NoDup(t.ring) && t.ring[0] in Elems(t.ring)
    ensures Elems(t.ring) !! Chunks(t.left) && Elems(t.ring) !! Chunks(t.right) && Chunks(t.left) !! Chunks(t.right)
    ensures Chunks(t) == Elems(t.ring) + Chunks(t.left) + Chunks(t.right) && Proper(t.left) && Proper(t.right)
  {
    hide NoDup;
  }

  lemma ShapeParts(t: Tree, up: int, l: Links)
    requires t.Node? && Shape(t, up, l)
    ensures t.ring != [] && Ring(t.ring, l) && Chained(t.ring, l)
    ensures Shape(t.left, t.ring[0], l) && Shape(t.right, t.ring[0], l)
  {
    hide Ring, Chained;
  }

  lemma InsertShapeLeaf(t: Tree, up: int, l: Links, x: int, s: nat, right: bool)
    requires t.Node? && Proper(t) && Shape(t, up, l)
    requires x !in Chunks(t) && At(l.left, x) == 0 && At(l.right, x) == 0
    requires if right then t.right.Leaf? else t.left.Leaf?
    ensures Shape(if right then t.(right := Node([x], s, Leaf, Leaf)) else t.(left := Node([x], s, Leaf, Leaf)), up,
                  AttachLeaf(l, t.ring[0], right, x))
  {
    hide Proper, Shape, Chunks, Elems, NoDup, Ring, Chained, AttachLeaf, SameAt, At, Child;
    RingParts(t);
    ShapeParts(t, up, l);
    var h := t.ring[0];
    var m := AttachLeaf(l, h, right, x);
    AttachLeafFields(l, h, right, x);
    RingKept(t.ring, l, m);
    var other := if right then t.left else t.right;
    Frame(other, h, l, m);
    LoneShape(x, s, h, m);
    SideShape(t, up, l, m, Node([x], s, Leaf, Leaf), right);
  }

  /** A ring keeps its links when only child fields and the parent of its first chunk change. */
  lemma RingKept(ring: seq<int>, l: Links, m: Links)
    requires ring != [] && Ring(ring, l) && Chained(ring, l)
    requires forall a :: a in Elems(ring) && a != ring[0] ==> SameAt(a, l, m)
    requires At(m.fd, ring[0]) == At(l.fd, ring[0]) && At(m.bk, ring[0]) == At(l.bk, ring[0])
    requires NoDup(ring)
    ensures Ring(ring, m) && Chained(ring, m)
  {
    forall k | 0 <= k < |ring|
      ensures At(m.fd, ring[k]) == ring[Next(|ring|, k)] && At(m.bk, ring[Next(|ring|, k)]) == ring[k]
    {
      var n := Next(|ring|, k);
      assert ring[k] in Elems(ring) && ring[n] in Elems(ring);
      assert k != 0 ==> SameAt(ring[k], l, m);
      assert n != 0 ==> SameAt(ring[n], l, m);
    }
    forall k | 1 <= k < |ring|
      ensures At(m.parent, ring[k]) == 0 && At(m.left, ring[k]) == 0 && At(m.right, ring[k]) == 0
    {
      assert ring[k] in Elems(ring);
      assert SameAt(ring[k], l, m);
    }
  }

  /** The writes of insert_large_chunk turn the fields of t into those of t with x inserted. */
  /** One step of the walk and of the insertion to one side. */
  lemma InsertSide(t: Tree, x: int, s: nat, lo: nat, w: nat, right: bool)
    requires t.Node? && t.ring != [] && t.size != s && w > 0 && (right <==> s >= lo + Pow2(w - 1))
    ensures var c := if right then t.right else t.left;
            var lo' := if right then lo + Pow2(w - 1) else lo;
            && Walk(t, s, lo, w) == (if c.Leaf? then Stop(t.ring[0], false, right) else Walk(c, s, lo', w - 1))
            && Insert(t, x, s, lo, w)
               == (if right then t.(right := Insert(c, x, s, lo', w - 1)) else t.(left := Insert(c, x, s, lo', w - 1)))
            && (c.Leaf? ==> Insert(c, x, s, lo', w - 1) == Node([x], s, Leaf, Leaf))
  {
    hide Pow2;
  }

  lemma TrieSide(t: Tree, s: nat, lo: nat, w: nat)
    requires t.Node? && t.size != s && Trie(t, lo, w) && lo <= s < lo + Pow2(w)
    ensures w > 0
    ensures s >= lo + Pow2(w - 1) ==> Trie(t.right, lo + Pow2(w - 1), w - 1) && s < lo + Pow2(w - 1) + Pow2(w - 1)
    ensures s < lo + Pow2(w - 1) ==> Trie(t.left, lo, w - 1)
  {
    Pow2Step(w);
    hide Pow2;
  }

  lemma {:induction false} InsertShape(t: Tree, up: int, l: Links, x: int, s: nat, lo: nat, w: nat)
    requires t.Node? && Proper(t) && Trie(t, lo, w) && Shape(t, up, l) && lo <= s < lo + Pow2(w)
    requires x !in Chunks(t) && At(l.left, x) == 0 && At(l.right, x) == 0
    ensures Shape(Insert(t, x, s, lo, w), up, Attach(l, Walk(t, s, lo, w), x))
  {
    hide Proper, Trie, Shape, Chunks, Insert, Walk, Pow2, At, AttachRing, AttachLeaf, SameAt, Elems, NoDup;
    if t.size == s {
      InsertShapeHere(t, up, l, x, s, lo, w);
    } else {
      RingParts(t);
      ShapeParts(t, up, l);
      TrieSide(t, s, lo, w);
      var right := s >= lo + Pow2(w - 1);
      var c := if right then t.right else t.left;
      var lo' := if right then lo + Pow2(w - 1) else lo;
      InsertSide(t, x, s, lo, w, right);
      if c.Leaf? {
        InsertShapeLeaf(t, up, l, x, s, right);
      } else {
        hide Attach;
        InsertShape(c, t.ring[0], l, x, s, lo', w - 1);
        AttachFrame(c, t.ring[0], l, x, s, lo', w - 1);
        ShapeParts(c, t.ring[0], l);
        InsertRoot(c, x, s, lo', w - 1);
        SideChanged(t, up, l, Attach(l, Walk(c, s, lo', w - 1), x), x, Insert(c, x, s, lo', w - 1), right);
      }
    }
  }

  /** When writes stay inside one subtree (and chunk x), the rest of the tree keeps its shape. */
  lemma SideChanged(t: Tree, up: int, l: Links, m: Links, x: int, c: Tree, right: bool)
    requires t.Node? && Proper(t) && Shape(t, up, l) && x !in Elems(t.ring)
             && x !in Chunks(if right then t.left else t.right)
    requires forall a :: a !in Chunks(if right then t.right else t.left) && a != x ==> SameAt(a, l, m)
    requires Shape(c, t.ring[0], m) && Root(c) == Root(if right then t.right else t.left)
    ensures Shape(if right then t.(right := c) else t.(left := c), up, m)
  {
    var h := t.ring[0];
    assert h in Elems(t.ring);
    assert SameAt(h, l, m);
    RingFrame(t.ring, l, m);
    Frame(if right then t.left else t.right, h, l, m);
  }
}
