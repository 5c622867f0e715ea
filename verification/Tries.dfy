/** The bitwise tries that hold free chunks of at least 256 bytes, as values. */
module Tries {
  import opened Words
  import Maps

  /** A node holds the ring of free chunks of one size; the first of the ring is the chunk linked into the tree. */
  datatype Tree = Leaf | Node(ring: seq<int>, size: nat, left: Tree, right: Tree)

  function Root(t: Tree): int {
    if t.Node? && t.ring != [] then t.ring[0] else 0
  }

  ghost function Elems(s: seq<int>): set<int> { set a | a in s }

  /** Addresses of all chunks in the tree. */
  ghost function Chunks(t: Tree): set<int> {
    if t.Leaf? then {} else Elems(t.ring) + Chunks(t.left) + Chunks(t.right)
  }

  ghost function Sizes(t: Tree): set<nat> {
    if t.Leaf? then {} else {t.size} + Sizes(t.left) + Sizes(t.right)
  }

  ghost predicate NoDup(s: seq<int>) {
    forall i, j :: 0 <= i < j < |s| ==> s[i] != s[j]
  }

  ghost predicate GoodRing(ring: seq<int>) {
    ring != [] && 0 !in ring && NoDup(ring)
  }

  /** Every chunk occurs once, and 0 is not a chunk. */
  ghost predicate Proper(t: Tree) {
    t.Node? ==>
      && GoodRing(t.ring)
      && Elems(t.ring) !! Chunks(t.left) && Elems(t.ring) !! Chunks(t.right) && Chunks(t.left) !! Chunks(t.right)
      && Proper(t.left) && Proper(t.right)
  }

  /** All sizes lie in [lo, lo + 2^w), the lower half of that range to the left and the upper half to the
      right below each node, and no size occurs twice. */
  ghost predicate Trie(t: Tree, lo: nat, w: nat) {
    t.Node? ==>
      && lo <= t.size < lo + Pow2(w)
      && t.size !in Sizes(t.left) && t.size !in Sizes(t.right)
      && (w == 0 ==> t.left.Leaf? && t.right.Leaf?)
      && (w > 0 ==> Trie(t.left, lo, w - 1) && Trie(t.right, lo + Pow2(w - 1), w - 1))
  }

  /** The chunks of the tree with their sizes. */
  ghost function View(t: Tree): map<int, nat> {
    if t.Leaf? then map[]
    else View(t.left) + View(t.right) + RingView(t.ring, t.size)
  }

  ghost function RingView(ring: seq<int>, size: nat): map<int, nat> {
    map a | a in ring :: size
  }

  lemma {:induction false} ViewKeys(t: Tree)
    ensures View(t).Keys == Chunks(t)
  {
    if t.Node? {
      ViewKeys(t.left);
      ViewKeys(t.right);
    }
  }

  lemma {:induction false} ViewSizes(t: Tree, a: int)
    requires a in View(t)
    ensures View(t)[a] in Sizes(t)
  {
    if a !in t.ring {
      if a in View(t.right) { ViewSizes(t.right, a); } else { ViewSizes(t.left, a); }
    }
  }

  lemma {:induction false} SizeSeen(t: Tree, s: nat) returns (a: int)
    requires Proper(t) && s in Sizes(t)
    ensures a in View(t) && View(t)[a] == s
  {
    if t.size == s {
      a := t.ring[0];
    } else if s in Sizes(t.left) {
      a := SizeSeen(t.left, s);
      ViewKeys(t.left);
      ViewKeys(t.right);
      assert a !in t.ring;
      assert a !in View(t.right);
    } else {
      a := SizeSeen(t.right, s);
      ViewKeys(t.right);
      assert a !in t.ring;
    }
  }

  lemma {:induction false} SizesInRange(t: Tree, lo: nat, w: nat, s: nat)
    requires Trie(t, lo, w) && s in Sizes(t)
    ensures lo <= s < lo + Pow2(w)
  {
    if s != t.size {
      if s in Sizes(t.left) {
        SizesInRange(t.left, lo, w - 1, s);
      } else {
        SizesInRange(t.right, lo + Pow2(w - 1), w - 1, s);
      }
    }
  }

  // ---- insertion ----

  /** Adds chunk x of size s: behind the first chunk of its size, or as a new leaf on its bit path. */
  ghost function Insert(t: Tree, x: int, s: nat, lo: nat, w: nat): Tree {
    if t.Leaf? || t.ring == [] then Node([x], s, Leaf, Leaf)
    else if t.size == s then t.(ring := [t.ring[0], x] + t.ring[1..])
    else if w == 0 then t
    else if s < lo + Pow2(w - 1) then t.(left := Insert(t.left, x, s, lo, w - 1))
    else t.(right := Insert(t.right, x, s, lo + Pow2(w - 1), w - 1))
  }

  lemma {:induction false} InsertKeepsTrie(t: Tree, x: int, s: nat, lo: nat, w: nat)
    requires Trie(t, lo, w) && Proper(t) && lo <= s < lo + Pow2(w)
    ensures Trie(Insert(t, x, s, lo, w), lo, w)
    ensures Sizes(Insert(t, x, s, lo, w)) == Sizes(t) + {s}
  {
    if t.Node? && t.size != s && w > 0 {
      if s < lo + Pow2(w - 1) {
        InsertKeepsTrie(t.left, x, s, lo, w - 1);
      } else {
        InsertKeepsTrie(t.right, x, s, lo + Pow2(w - 1), w - 1);
      }
    }
  }

  lemma InsertInRing(ring: seq<int>, x: int)
    requires GoodRing(ring) && x !in ring && x != 0
    ensures GoodRing([ring[0], x] + ring[1..])
    ensures Elems([ring[0], x] + ring[1..]) == Elems(ring) + {x}
  {
    var r := [ring[0], x] + ring[1..];
    forall a
      ensures a in r <==> a in ring || a == x
    {
      assert ring == [ring[0]] + ring[1..];
    }
    forall i, j | 0 <= i < j < |r|
      ensures r[i] != r[j]
    {
      if j >= 2 { assert r[j] == ring[j - 1]; }
      if i >= 2 { assert r[i] == ring[i - 1]; }
    }
  }

  lemma NewRing(x: int)
    ensures x != 0 ==> GoodRing([x])
    ensures Elems([x]) == {x}
  {
  }

  lemma {:induction false} InsertProper(t: Tree, x: int, s: nat, lo: nat, w: nat)
    requires Trie(t, lo, w) && Proper(t) && lo <= s < lo + Pow2(w)
    requires x != 0 && x !in Chunks(t)
    ensures Proper(Insert(t, x, s, lo, w))
    ensures Chunks(Insert(t, x, s, lo, w)) == Chunks(t) + {x}
  {
    if t.Leaf? {
      NewRing(x);
    } else {
      assert t.ring != [];
      if t.size == s {
        InsertInRing(t.ring, x);
      } else {
        hide GoodRing, Elems;
        if s < lo + Pow2(w - 1) {
          InsertProper(t.left, x, s, lo, w - 1);
        } else {
          InsertProper(t.right, x, s, lo + Pow2(w - 1), w - 1);
        }
      }
    }
  }

  lemma {:induction false} InsertView(t: Tree, x: int, s: nat, lo: nat, w: nat)
    requires Trie(t, lo, w) && Proper(t) && lo <= s < lo + Pow2(w)
    requires x !in Chunks(t)
    ensures View(Insert(t, x, s, lo, w)) == View(t)[x := s]
  {
    if t.Leaf? {
      LoneView(x, s);
    } else if t.size == s {
      RingViewMore(t, x, s);
    } else if w > 0 {
      ViewKeys(t.left);
      ViewKeys(t.right);
      RingKeys(t.ring, t.size);
      hide Elems, GoodRing, RingView, Sizes;
      Pow2Step(w);
      hide Pow2;
      if s < lo + Pow2(w - 1) {
        InsertView(t.left, x, s, lo, w - 1);
        AddLeft(View(t.left), View(t.right), RingView(t.ring, t.size), x, s);
      } else {
        InsertView(t.right, x, s, lo + Pow2(w - 1), w - 1);
        AddMiddle(View(t.left), View(t.right), RingView(t.ring, t.size), x, s);
      }
    }
  }

  lemma LoneView(x: int, s: nat)
    ensures View(Node([x], s, Leaf, Leaf)) == map[x := s]
  {
    assert RingView([x], s) == map[x := s];
    assert View(Leaf) + View(Leaf) + RingView([x], s) == RingView([x], s);
  }

  lemma RingViewOne(ring: seq<int>, x: int, s: nat)
    requires ring != []
    ensures RingView([ring[0], x] + ring[1..], s) == RingView(ring, s)[x := s]
  {
    var more := [ring[0], x] + ring[1..];
    assert ring == [ring[0]] + ring[1..];
    forall a
      ensures a in more <==> a in ring || a == x
    {
    }
  }

  lemma RingViewMore(t: Tree, x: int, s: nat)
    requires t.Node? && t.ring != [] && t.size == s
    ensures View(t.(ring := [t.ring[0], x] + t.ring[1..])) == View(t)[x := s]
  {
    RingViewOne(t.ring, x, s);
    hide RingView;
    Maps.LaterInsert(View(t.left) + View(t.right), RingView(t.ring, s), x, s);
  }

  lemma RingKeys(ring: seq<int>, size: nat)
    ensures RingView(ring, size).Keys == Elems(ring)
  {
  }

  lemma AddLeft(a: map<int, nat>, b: map<int, nat>, c: map<int, nat>, x: int, s: nat)
    requires x !in b && x !in c
    ensures a[x := s] + b + c == (a + b + c)[x := s]
  {
  }

  lemma AddMiddle(a: map<int, nat>, b: map<int, nat>, c: map<int, nat>, x: int, s: nat)
    requires x !in c
    ensures a + b[x := s] + c == (a + b + c)[x := s]
  {
  }

  // ---- removal ----

  /** Takes the leaf reached by preferring right children: its ring, its size, and the tree without it. */
  ghost function TakeLeaf(t: Tree): (r: (seq<int>, nat, Tree))
    requires t.Node?
  {
    if t.right.Node? then
      var (ring, size, rest) := TakeLeaf(t.right);
      (ring, size, t.(right := rest))
    else if t.left.Node? then
      var (ring, size, rest) := TakeLeaf(t.left);
      (ring, size, t.(left := rest))
    else (t.ring, t.size, Leaf)
  }

  /** The tree without its root node: a leaf found below takes the root's place. */
  ghost function DropRoot(t: Tree): Tree
    requires t.Node?
  {
    if t.right.Node? then
      var (ring, size, rest) := TakeLeaf(t.right);
      Node(ring, size, t.left, rest)
    else if t.left.Node? then
      var (ring, size, rest) := TakeLeaf(t.left);
      Node(ring, size, rest, t.right)
    else Leaf
  }

  ghost function IndexOf(s: seq<int>, x: int): nat
    requires x in s
    ensures IndexOf(s, x) < |s| && s[IndexOf(s, x)] == x
  {
    if s[0] == x then 0 else IndexOf(s[1..], x) + 1
  }

  /** The ring without x; when x was the first, the last of the ring comes first. */
  ghost function DropFromRing(ring: seq<int>, x: int): seq<int>
    requires x in ring
  {
    if ring[0] == x then
      if |ring| == 1 then [] else [ring[|ring| - 1]] + ring[1..|ring| - 1]
    else ring[..IndexOf(ring, x)] + ring[IndexOf(ring, x) + 1..]
  }

  ghost function Remove(t: Tree, x: int): Tree {
    if t.Leaf? then t
    else if x in t.ring then
      if |t.ring| > 1 then t.(ring := DropFromRing(t.ring, x)) else DropRoot(t)
    else if x in Chunks(t.left) then t.(left := Remove(t.left, x))
    else t.(right := Remove(t.right, x))
  }

  lemma {:induction false} TakeLeafProper(t: Tree)
    requires t.Node? && Proper(t)
    ensures var (ring, size, rest) := TakeLeaf(t);
            && GoodRing(ring)
            && Proper(rest) && Elems(ring) !! Chunks(rest)
            && Chunks(t) == Elems(ring) + Chunks(rest)
  {
    hide Elems, NoDup;
    if t.right.Node? {
      TakeLeafProper(t.right);
    } else if t.left.Node? {
      TakeLeafProper(t.left);
    }
  }

  lemma {:induction false} TakeLeafView(t: Tree)
    requires t.Node? && Proper(t)
    ensures var (ring, size, rest) := TakeLeaf(t);
            View(t) == View(rest) + RingView(ring, size)
  {
    hide Elems, GoodRing, RingView;
    RingKeys(t.ring, t.size);
    if t.right.Node? {
      TakeLeafView(t.right);
      TakeLeafProper(t.right);
      var (ring, size, rest) := TakeLeaf(t.right);
      RingKeys(ring, size);
      MoveMiddle(View(t.left), View(rest), RingView(t.ring, t.size), RingView(ring, size));
    } else if t.left.Node? {
      TakeLeafView(t.left);
      TakeLeafProper(t.left);
      ViewKeys(t.right);
      var (ring, size, rest) := TakeLeaf(t.left);
      RingKeys(ring, size);
      MoveLeft(View(rest), View(t.right), RingView(t.ring, t.size), RingView(ring, size));
    }
  }

  lemma MoveMiddle(a: map<int, nat>, b: map<int, nat>, c: map<int, nat>, d: map<int, nat>)
    requires c.Keys !! d.Keys
    ensures a + (b + d) + c == (a + b + c) + d
  {
  }

  lemma MoveLeft(a: map<int, nat>, b: map<int, nat>, c: map<int, nat>, d: map<int, nat>)
    requires c.Keys !! d.Keys && b.Keys !! d.Keys
    ensures (a + d) + b + c == (a + b + c) + d
  {
  }

  lemma {:induction false} TakeLeafTrie(t: Tree, lo: nat, w: nat)
    requires t.Node? && Trie(t, lo, w)
    ensures var (ring, size, rest) := TakeLeaf(t);
            && Trie(rest, lo, w) && size !in Sizes(rest) && Sizes(t) == {size} + Sizes(rest)
            && lo <= size < lo + Pow2(w)
  {
    if t.right.Node? {
      TakeLeafTrie(t.right, lo + Pow2(w - 1), w - 1);
      var s := TakeLeaf(t.right).1;
      if s in Sizes(t.left) { SizesInRange(t.left, lo, w - 1, s); }
    } else if t.left.Node? {
      TakeLeafTrie(t.left, lo, w - 1);
    }
  }

  /** Dropping the root keeps the order: any leaf below may stand in for the root. */
  lemma DropRootTrie(t: Tree, lo: nat, w: nat)
    requires t.Node? && Trie(t, lo, w)
    ensures Trie(DropRoot(t), lo, w) && Sizes(DropRoot(t)) == Sizes(t) - {t.size}
  {
    if t.right.Node? {
      TakeLeafTrie(t.right, lo + Pow2(w - 1), w - 1);
      var s := TakeLeaf(t.right).1;
      if s in Sizes(t.left) { SizesInRange(t.left, lo, w - 1, s); }
    } else if t.left.Node? {
      TakeLeafTrie(t.left, lo, w - 1);
    }
  }

  lemma DropRootProper(t: Tree)
    requires t.Node? && Proper(t)
    ensures Proper(DropRoot(t)) && Chunks(DropRoot(t)) == Chunks(t) - Elems(t.ring)
  {
    hide Elems, GoodRing;
    if t.right.Node? {
      TakeLeafProper(t.right);
    } else if t.left.Node? {
      TakeLeafProper(t.left);
    }
  }

  lemma DropRootView(t: Tree)
    requires t.Node? && Proper(t)
    ensures View(DropRoot(t)) == View(t) - Elems(t.ring)
  {
    DropRootKeeps(t);
    hide Elems, GoodRing, RingView, DropRoot;
    RingKeys(t.ring, t.size);
    ViewKeys(t.left);
    ViewKeys(t.right);
    LastPart(View(t.left) + View(t.right), RingView(t.ring, t.size));
  }

  lemma DropRootKeeps(t: Tree)
    requires t.Node? && Proper(t)
    ensures View(DropRoot(t)) == View(t.left) + View(t.right)
  {
    hide Elems, GoodRing, RingView;
    if t.right.Node? {
      hide TakeLeaf;
      TakeLeafView(t.right);
      var (ring, size, rest) := TakeLeaf(t.right);
      Regroup(View(t.left), View(rest), RingView(ring, size));
    } else if t.left.Node? {
      hide TakeLeaf;
      TakeLeafView(t.left);
      var (ring, size, rest) := TakeLeaf(t.left);
      EmptyRight(View(rest));
      EmptyRight(View(t.left));
    }
  }

  lemma EmptyRight(a: map<int, nat>)
    ensures a + map[] == a
  {
  }

  lemma Regroup(a: map<int, nat>, b: map<int, nat>, d: map<int, nat>)
    ensures a + (b + d) == a + b + d
  {
  }

  lemma LastPart(a: map<int, nat>, c: map<int, nat>)
    requires a.Keys !! c.Keys
    ensures (a + c) - c.Keys == a
  {
  }

  // ---- removal of any chunk ----

  lemma SplitElems(a: seq<int>, x: int, b: seq<int>)
    requires NoDup(a + [x] + b)
    ensures Elems(a + b) == Elems(a + [x] + b) - {x} && NoDup(a + b)
  {
    var s := a + [x] + b;
    assert s[|a|] == x;
    forall y
      ensures y in a + b <==> y in s && y != x
    {
      if y in a { var i :| 0 <= i < |a| && a[i] == y; assert s[i] == y; }
      if y in b { var i :| 0 <= i < |b| && b[i] == y; assert s[|a| + 1 + i] == y; }
    }
    forall i, j | 0 <= i < j < |a + b|
      ensures (a + b)[i] != (a + b)[j]
    {
      assert (a + b)[i] == s[if i < |a| then i else i + 1] && (a + b)[j] == s[if j < |a| then j else j + 1];
    }
  }

  /** The last one comes first. */
  lemma TurnedElems(a: seq<int>, y: int)
    requires NoDup(a + [y])
    ensures Elems([y] + a) == Elems(a + [y]) && NoDup([y] + a)
  {
    var s := a + [y];
    assert s[|a|] == y;
    forall i | 0 <= i < |a|
      ensures s[i] == a[i] == ([y] + a)[i + 1]
    {
    }
    forall x
      ensures x in [y] + a <==> x in s
    {
      if x in a { var i :| 0 <= i < |a| && a[i] == x; assert s[i] == x; }
    }
    forall i, j | 0 <= i < j < |a| + 1
      ensures ([y] + a)[i] != ([y] + a)[j]
    {
      assert ([y] + a)[i] == (if i == 0 then s[|a|] else s[i - 1]) && ([y] + a)[j] == s[j - 1];
    }
  }

  lemma DropFromRingParts(ring: seq<int>, x: int)
    requires GoodRing(ring) && x in ring && |ring| > 1
    ensures GoodRing(DropFromRing(ring, x))
    ensures Elems(DropFromRing(ring, x)) == Elems(ring) - {x}
  {
    var n := |ring|;
    hide NoDup, Elems;
    if ring[0] == x {
      var mid := ring[1..n - 1];
      assert ring == [] + [x] + (mid + [ring[n - 1]]) && [] + (mid + [ring[n - 1]]) == mid + [ring[n - 1]];
      SplitElems([], x, mid + [ring[n - 1]]);
      TurnedElems(mid, ring[n - 1]);
    } else {
      var k := IndexOf(ring, x);
      assert ring == ring[..k] + [x] + ring[k + 1..];
      SplitElems(ring[..k], x, ring[k + 1..]);
    }
  }

  lemma {:induction false} RemoveSizes(t: Tree, x: int, lo: nat, w: nat)
    requires Trie(t, lo, w)
    ensures Trie(Remove(t, x), lo, w) && Sizes(Remove(t, x)) <= Sizes(t)
  {
    if t.Node? {
      if x in t.ring {
        DropRootTrie(t, lo, w);
      } else if w > 0 {
        if x in Chunks(t.left) {
          RemoveSizes(t.left, x, lo, w - 1);
        } else {
          RemoveSizes(t.right, x, lo + Pow2(w - 1), w - 1);
        }
      }
    }
  }

  lemma SingleRing(ring: seq<int>, x: int)
    requires GoodRing(ring) && x in ring && |ring| == 1
    ensures Elems(ring) == {x}
  {
  }

  lemma {:induction false} RemoveProper(t: Tree, x: int)
    requires Proper(t) && x in Chunks(t)
    ensures Proper(Remove(t, x)) && Chunks(Remove(t, x)) == Chunks(t) - {x}
  {
    if x in t.ring {
      assert x in Elems(t.ring);
      hide Elems, GoodRing;
      if |t.ring| > 1 {
        DropFromRingParts(t.ring, x);
      } else {
        SingleRing(t.ring, x);
        DropRootProper(t);
      }
    } else {
      assert x !in Elems(t.ring);
      hide Elems, GoodRing;
      if x in Chunks(t.left) {
        RemoveProper(t.left, x);
      } else {
        RemoveProper(t.right, x);
      }
    }
  }

  lemma {:induction false} RemoveView(t: Tree, x: int)
    requires Proper(t) && x in Chunks(t)
    ensures View(Remove(t, x)) == View(t) - {x}
  {
    hide GoodRing;
    RingKeys(t.ring, t.size);
    ViewKeys(t.left);
    ViewKeys(t.right);
    if x in t.ring {
      if |t.ring| > 1 {
        DropFromRingParts(t.ring, x);
        RingWithout(t.ring, DropFromRing(t.ring, x), t.size, x);
        WithoutLast(View(t.left) + View(t.right), RingView(t.ring, t.size), x);
      } else {
        SingleRing(t.ring, x);
        DropRootView(t);
      }
    } else {
      assert x !in Elems(t.ring);
      hide Elems, RingView;
      if x in Chunks(t.left) {
        RemoveView(t.left, x);
        WithoutLeft(View(t.left), View(t.right), RingView(t.ring, t.size), x);
      } else {
        RemoveView(t.right, x);
        WithoutMiddle(View(t.left), View(t.right), RingView(t.ring, t.size), x);
      }
    }
  }

  lemma RingWithout(ring: seq<int>, ring': seq<int>, size: nat, x: int)
    requires Elems(ring') == Elems(ring) - {x}
    ensures RingView(ring', size) == RingView(ring, size) - {x}
  {
    forall a
      ensures a in ring' <==> a in ring && a != x
    {
      assert a in ring' <==> a in Elems(ring');
      assert a in ring <==> a in Elems(ring);
    }
  }

  lemma WithoutLast(a: map<int, nat>, c: map<int, nat>, x: int)
    requires x !in a
    ensures a + (c - {x}) == (a + c) - {x}
  {
  }

  lemma WithoutLeft(a: map<int, nat>, b: map<int, nat>, c: map<int, nat>, x: int)
    requires x !in b && x !in c
    ensures (a - {x}) + b + c == (a + b + c) - {x}
  {
  }

  lemma WithoutMiddle(a: map<int, nat>, b: map<int, nat>, c: map<int, nat>, x: int)
    requires x !in a && x !in c
    ensures a + (b - {x}) + c == (a + b + c) - {x}
  {
  }
}
