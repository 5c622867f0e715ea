/** Why dlmalloc's one-path searches of a trie find the smallest chunk that is large enough. */
module TreeSearch {
  import opened Bytes
  import opened Words
  import opened Tries

  /** size - nb in unsigned arithmetic, smaller than any wrapped difference. */
  lemma Remainder(size: word, nb: word, rsize: nat)
    requires 0 < nb && rsize <= TWO_32 - nb
    ensures (size - nb) % TWO_32 < rsize <==> nb <= size && size - nb < rsize
    ensures nb <= size ==> (size - nb) % TWO_32 == size - nb
  {
    if size < nb {
      assert (size - nb) % TWO_32 == size - nb + TWO_32;
    }
  }

  ghost predicate AllAtLeast(t: Tree, nb: nat) { forall s :: s in Sizes(t) ==> nb <= s }

  /** Every size from nb up in the set is matched or beaten by nb + rsize, or still to be looked at in u, or beaten by
      all of u. */
  ghost predicate Narrowed(all: set<nat>, u: Tree, nb: nat, rsize: nat) {
    forall s :: s in all && nb <= s ==>
      nb + rsize <= s || s in Sizes(u) || (u.Node? && forall r :: r in Sizes(u) ==> r <= s)
  }

  /** Looking at u's root and going on with its leftmost child loses nothing. */
  lemma LeftmostStep(all: set<nat>, u: Tree, nb: nat, rsize: nat, rsize': nat, lo: nat, w: nat)
    requires u.Node? && Trie(u, lo, w) && Narrowed(all, u, nb, rsize)
    requires rsize' <= rsize && (rsize == 0 || AllAtLeast(u, nb))
    requires nb <= u.size ==> nb + rsize' <= u.size
    ensures Narrowed(all, if u.left.Node? then u.left else u.right, nb, rsize')
    ensures rsize' == 0 || AllAtLeast(if u.left.Node? then u.left else u.right, nb)
  {
    var c := if u.left.Node? then u.left else u.right;
    assert u.size in Sizes(u);
    forall s | s in all && nb <= s
      ensures nb + rsize' <= s || s in Sizes(c) || (c.Node? && forall r :: r in Sizes(c) ==> r <= s)
    {
      if nb + rsize <= s {
      } else if s in Sizes(u) {
        if s != u.size && s !in Sizes(c) {
          LeftBelowRight(u, lo, w, s);
        }
      } else {
        assert u.size <= s;
      }
    }
  }

  lemma LeftBelowRight(u: Tree, lo: nat, w: nat, s: nat)
    requires u.Node? && Trie(u, lo, w) && s in Sizes(u.right)
    ensures forall r :: r in Sizes(u.left) ==> r <= s
  {
    forall r | r in Sizes(u.left)
      ensures r <= s
    {
      SizesInRange(u.left, lo, w - 1, r);
      SizesInRange(u.right, lo + Pow2(w - 1), w - 1, s);
    }
  }

  /** State of the walk along nb's own bits: u is to be visited next, rst is the deepest right subtree passed by. */
  ghost predicate Descending(all: set<nat>, u: Tree, rst: Tree, nb: nat, rsize: nat, hi: nat) {
    && (forall r :: r in Sizes(rst) ==> nb < r && hi <= r)
    && forall s :: s in all && nb <= s ==>
      nb + rsize <= s || s in Sizes(u) || (rst.Node? && (s in Sizes(rst) || forall r :: r in Sizes(rst) ==> r <= s))
  }

  lemma DescendRight(all: set<nat>, u: Tree, rst: Tree, nb: nat, rsize: nat, rsize': nat, lo: nat, w: nat)
    requires u.Node? && 0 < w && Trie(u, lo, w) && lo <= nb < lo + Pow2(w)
    requires Descending(all, u, rst, nb, rsize, lo + Pow2(w)) && rsize' <= rsize
    requires nb <= u.size ==> nb + rsize' <= u.size
    requires nb >= lo + Pow2(w - 1)
    ensures Descending(all, u.right, rst, nb, rsize', lo + Pow2(w))
  {
    forall s | s in Sizes(u.left)
      ensures s < nb
    {
      SizesInRange(u.left, lo, w - 1, s);
    }
  }

  lemma DescendLeft(all: set<nat>, u: Tree, rst: Tree, nb: nat, rsize: nat, rsize': nat, lo: nat, w: nat)
    requires u.Node? && 0 < w && Trie(u, lo, w) && lo <= nb < lo + Pow2(w)
    requires Descending(all, u, rst, nb, rsize, lo + Pow2(w)) && rsize' <= rsize
    requires nb <= u.size ==> nb + rsize' <= u.size
    requires nb < lo + Pow2(w - 1)
    ensures Descending(all, u.left, if u.right.Node? then u.right else rst, nb, rsize', lo + Pow2(w - 1))
  {
    var h := lo + Pow2(w - 1);
    if u.right.Node? {
      forall r | r in Sizes(u.right)
        ensures h <= r < lo + Pow2(w)
      {
        SizesInRange(u.right, h, w - 1, r);
      }
      forall s | s in all && nb <= s
        ensures nb + rsize' <= s || s in Sizes(u.left) || s in Sizes(u.right)
                || forall r :: r in Sizes(u.right) ==> r <= s
      {
        if !(nb + rsize <= s) && s !in Sizes(u) {
          assert rst.size in Sizes(rst);
          assert lo + Pow2(w) <= s;
        }
      }
    }
  }

  /** When the walk falls off the tree, the deepest right subtree passed by is what is left to look at. */
  lemma DescendEnd(all: set<nat>, rst: Tree, nb: nat, rsize: nat, hi: nat)
    requires Descending(all, Leaf, rst, nb, rsize, hi)
    ensures Narrowed(all, rst, nb, rsize) && AllAtLeast(rst, nb)
  {
  }
}
