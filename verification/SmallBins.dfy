/** The small bins of malloc_state: one doubly linked ring per size, threaded through the free chunks. */
module SmallBins {
  import opened Words
  import opened Maps
  import opened BinMaps
  import opened Tries
  import opened TreeLinks

  const NSMALLBINS := 32

  /** A bin header's own address; never a chunk. */
  function Header(i: nat): int { -1 - i }

  /** The ring of bin i in fd order, from its header. */
  ghost function RingOf(list: seq<int>, i: nat): seq<int> { [Header(i)] + list }

  ghost predicate Linked(ring: seq<int>, fd: map<int, int>, bk: map<int, int>) {
    forall k :: 0 <= k < |ring| ==>
      At(fd, ring[k]) == ring[Next(|ring|, k)] && At(bk, ring[Next(|ring|, k)]) == ring[k]
  }

  ghost predicate Positive(list: seq<int>) { forall a :: a in list ==> a > 0 }

  /** An empty bin's header fields are stale; only its mark counts. */
  ghost predicate ListOk(list: seq<int>, i: nat, marked: bool, fd: map<int, int>, bk: map<int, int>) {
    Positive(list) && NoDup(list) && (marked <==> list != []) && (marked ==> Linked(RingOf(list, i), fd, bk))
  }

  ghost predicate ListsOk(lists: seq<seq<int>>, smallmap: word, fd: map<int, int>, bk: map<int, int>) {
    && |lists| == NSMALLBINS
    && (forall i :: 0 <= i < NSMALLBINS ==> ListOk(lists[i], i, Marked(smallmap, i), fd, bk))
    && Separate(lists)
  }

  ghost predicate Separate(lists: seq<seq<int>>) {
    forall i, j, a :: 0 <= i < |lists| && 0 <= j < |lists| && i != j && a in lists[i] ==> a !in lists[j]
  }

  /** Every chunk of the lists with its size, eight times the number of its bin. */
  ghost function ListViews(lists: seq<seq<int>>): map<int, nat> {
    if lists == [] then map[]
    else ListViews(lists[..|lists| - 1]) + RingView(lists[|lists| - 1], 8 * (|lists| - 1))
  }

  lemma ListViewsStep(lists: seq<seq<int>>)
    requires lists != []
    ensures ListViews(lists) == ListViews(lists[..|lists| - 1]) + RingView(lists[|lists| - 1], 8 * (|lists| - 1))
  {
    hide RingView;
  }

  lemma RingViewKeys(list: seq<int>, size: nat)
    ensures forall a :: a in RingView(list, size) <==> a in list
  {
  }

  lemma {:induction false} ListViewsFind(lists: seq<seq<int>>, a: int) returns (i: nat)
    requires a in ListViews(lists)
    ensures i < |lists| && a in lists[i] && ListViews(lists)[a] == 8 * i
  {
    var n := |lists| - 1;
    if a in lists[n] {
      i := n;
    } else {
      i := ListViewsFind(lists[..n], a);
    }
  }

  lemma {:induction false} ListViewsAt(lists: seq<seq<int>>, i: nat, a: int)
    requires i < |lists| && a in lists[i] && forall j :: i < j < |lists| ==> a !in lists[j]
    ensures a in ListViews(lists) && ListViews(lists)[a] == 8 * i
  {
    var n := |lists| - 1;
    if i < n {
      ListViewsAt(lists[..n], i, a);
    }
  }

  lemma {:induction false} ListViewsInsert(lists: seq<seq<int>>, i: nat, list': seq<int>, x: int)
    requires i < |lists| && forall j :: 0 <= j < |lists| ==> x !in lists[j]
    requires forall a :: a in list' <==> a in lists[i] || a == x
    ensures ListViews(lists[i := list']) == ListViews(lists)[x := 8 * i]
  {
    hide ListViews, RingView;
    var n := |lists| - 1;
    ListViewsStep(lists);
    ListViewsStep(lists[i := list']);
    if i < n {
      ListViewsInsert(lists[..n], i, list', x);
      assert lists[i := list'][..n] == lists[..n][i := list'];
      RingViewKeys(lists[n], 8 * n);
      EarlierInsert(ListViews(lists[..n]), RingView(lists[n], 8 * n), x, 8 * i);
    } else {
      assert lists[i := list'][..n] == lists[..n];
      RingGrows(lists[n], list', 8 * n, x);
      LaterInsert(ListViews(lists[..n]), RingView(lists[n], 8 * n), x, 8 * n);
    }
  }

  lemma {:induction false} ListViewsRemove(lists: seq<seq<int>>, i: nat, list': seq<int>, x: int)
    requires i < |lists| && forall j :: 0 <= j < |lists| && j != i ==> x !in lists[j]
    requires forall a :: a in list' <==> a in lists[i] && a != x
    ensures ListViews(lists[i := list']) == ListViews(lists) - {x}
  {
    hide ListViews, RingView;
    var n := |lists| - 1;
    ListViewsStep(lists);
    ListViewsStep(lists[i := list']);
    if i < n {
      ListViewsRemove(lists[..n], i, list', x);
      assert lists[i := list'][..n] == lists[..n][i := list'];
      RingViewKeys(lists[n], 8 * n);
      EarlierRemove(ListViews(lists[..n]), RingView(lists[n], 8 * n), x);
    } else {
      assert lists[i := list'][..n] == lists[..n];
      RingShrinks(lists[n], list', 8 * n, x);
      if x in ListViews(lists[..n]) {
        var j := ListViewsFind(lists[..n], x);
        assert false;
      }
      LaterRemove(ListViews(lists[..n]), RingView(lists[n], 8 * n), x);
    }
  }

  lemma RingGrows(list: seq<int>, list': seq<int>, size: nat, x: int)
    requires forall a :: a in list' <==> a in list || a == x
    ensures RingView(list', size) == RingView(list, size)[x := size]
  {
    var v, v' := RingView(list, size)[x := size], RingView(list', size);
    forall a
      ensures a in v' <==> a in v
    {
      assert a in list' <==> a in list || a == x;
    }
  }

  lemma RingShrinks(list: seq<int>, list': seq<int>, size: nat, x: int)
    requires forall a :: a in list' <==> a in list && a != x
    ensures RingView(list', size) == RingView(list, size) - {x}
  {
    var v, v' := RingView(list, size) - {x}, RingView(list', size);
    forall a
      ensures a in v' <==> a in v
    {
      assert a in list' <==> a in list && a != x;
    }
  }

  // ---- one ring ----

  lemma LinkedFrame(ring: seq<int>, fd: map<int, int>, bk: map<int, int>, fd': map<int, int>, bk': map<int, int>)
    requires Linked(ring, fd, bk) && forall a :: a in ring ==> At(fd', a) == At(fd, a) && At(bk', a) == At(bk, a)
    ensures Linked(ring, fd', bk')
  {
  }

  /** Writes of insert_small_chunk for a non-empty bin: x goes between the header and the first chunk. */
  lemma PushLinked(list: seq<int>, i: nat, fd: map<int, int>, bk: map<int, int>, x: int)
    requires list != [] && Positive(list) && NoDup(list) && x > 0 && x !in list && Linked(RingOf(list, i), fd, bk)
    ensures var f := At(fd, Header(i));
            f == list[0] && Linked(RingOf([x] + list, i), fd[Header(i) := x][x := f], bk[f := x][x := Header(i)])
  {
    var h := Header(i);
    var ring := RingOf(list, i);
    var r := RingOf([x] + list, i);
    assert At(fd, ring[0]) == ring[Next(|ring|, 0)];
    var f := list[0];
    RingDistinct(list, i);
    assert ring[1] == f;
    var fd', bk' := fd[h := x][x := f], bk[f := x][x := h];
    forall k | 0 <= k < |r|
      ensures At(fd', r[k]) == r[Next(|r|, k)] && At(bk', r[Next(|r|, k)]) == r[k]
    {
      if k >= 2 {
        assert r[k] == ring[k - 1];
        var n := Next(|ring|, k - 1);
        assert r[Next(|r|, k)] == ring[n];
        assert At(fd, ring[k - 1]) == ring[n] && At(bk, ring[n]) == ring[k - 1];
        assert x !in ring && n != 1;
      }
    }
  }

  lemma FirstLinked(i: nat, fd: map<int, int>, bk: map<int, int>, x: int)
    requires x > 0
    ensures Linked(RingOf([x], i), fd[Header(i) := x][x := Header(i)], bk[Header(i) := x][x := Header(i)])
  {
  }

  ghost function Without(list: seq<int>, k: nat): seq<int>
    requires k < |list|
  {
    list[..k] + list[k + 1..]
  }

  /** Neighbours of a chunk on its ring; they coincide exactly when it is alone. */
  lemma Neighbours(list: seq<int>, i: nat, fd: map<int, int>, bk: map<int, int>, k: nat)
    requires k < |list| && Positive(list) && NoDup(list) && Linked(RingOf(list, i), fd, bk)
    ensures At(fd, list[k]) == (if k + 1 < |list| then list[k + 1] else Header(i))
    ensures At(bk, list[k]) == (if k > 0 then list[k - 1] else Header(i))
    ensures At(fd, list[k]) == At(bk, list[k]) <==> |list| == 1
  {
    var ring := RingOf(list, i);
    assert ring[k + 1] == list[k];
    assert Next(|ring|, k) == k + 1;
    assert At(fd, ring[k + 1]) == ring[Next(|ring|, k + 1)] && At(bk, ring[Next(|ring|, k)]) == ring[k];
  }

  /** Writes of unlink_small_chunk: the neighbours are joined. */
  lemma PullLinked(list: seq<int>, i: nat, fd: map<int, int>, bk: map<int, int>, k: nat)
    requires k < |list| && |list| > 1 && Positive(list) && NoDup(list) && Linked(RingOf(list, i), fd, bk)
    ensures var f, b := At(fd, list[k]), At(bk, list[k]);
            Linked(RingOf(Without(list, k), i), fd[b := f], bk[f := b])
  {
    var ring := RingOf(list, i);
    var r := RingOf(Without(list, k), i);
    var f, b := At(fd, list[k]), At(bk, list[k]);
    Neighbours(list, i, fd, bk, k);
    forall m | 0 <= m < |r|
      ensures At(fd[b := f], r[m]) == r[Next(|r|, m)] && At(bk[f := b], r[Next(|r|, m)]) == r[m]
    {
      PullAt(list, i, fd, bk, k, m);
    }
  }

  lemma PullAt(list: seq<int>, i: nat, fd: map<int, int>, bk: map<int, int>, k: nat, m: nat)
    requires k < |list| && |list| > 1 && Positive(list) && NoDup(list) && Linked(RingOf(list, i), fd, bk) && m < |list|
    ensures var f, b := At(fd, list[k]), At(bk, list[k]);
            var r := RingOf(Without(list, k), i);
            At(fd[b := f], r[m]) == r[Next(|r|, m)] && At(bk[f := b], r[Next(|r|, m)]) == r[m]
  {
    var ring := RingOf(list, i);
    var n := |ring|;
    var r := RingOf(Without(list, k), i);
    Neighbours(list, i, fd, bk, k);
    RingDistinct(list, i);
    var j := if m <= k then m else m + 1;
    assert r[m] == ring[j];
    var m' := Next(n - 1, m);
    var j' := if m' <= k then m' else m' + 1;
    assert r[m'] == ring[j'];
    if j == k {
      assert ring[j] == At(bk, list[k]);
      assert j' == Next(n, k + 1);
      assert ring[j'] == At(fd, list[k]);
    } else {
      assert j' == Next(n, j);
      assert At(fd, ring[j]) == ring[j'] && At(bk, ring[j']) == ring[j];
      assert ring[k] == At(bk, list[k]) && ring[j] != ring[k];
      assert ring[Next(n, k + 1)] == At(fd, list[k]) && j' != Next(n, k + 1);
    }
  }

  lemma RingDistinct(list: seq<int>, i: nat)
    requires Positive(list) && NoDup(list)
    ensures NoDup(RingOf(list, i))
  {
    var r := RingOf(list, i);
    forall a, b | 0 <= a < b < |r|
      ensures r[a] != r[b]
    {
      assert r[b] == list[b - 1] && list[b - 1] in list;
      if a > 0 { assert r[a] == list[a - 1]; }
    }
  }

  // ---- all rings ----

  /** Replacing one list: the other rings do not notice. */
  lemma ListReplaced(lists: seq<seq<int>>, smallmap: word, fd: map<int, int>, bk: map<int, int>,
                     i: nat, x: int, list': seq<int>, smallmap': word, fd': map<int, int>, bk': map<int, int>)
    requires ListsOk(lists, smallmap, fd, bk) && i < NSMALLBINS
    requires x > 0 && forall j :: 0 <= j < NSMALLBINS && j != i ==> x !in lists[j]
    requires forall a :: a in list' ==> a in lists[i] || a == x
    requires forall a :: a !in RingOf(lists[i], i) && a != x ==> At(fd', a) == At(fd, a) && At(bk', a) == At(bk, a)
    requires forall j :: 0 <= j < NSMALLBINS && j != i ==> (Marked(smallmap', j) <==> Marked(smallmap, j))
    requires ListOk(list', i, Marked(smallmap', i), fd', bk')
    ensures ListsOk(lists[i := list'], smallmap', fd', bk')
  {
    hide Linked, Marked;
    forall j | 0 <= j < NSMALLBINS && j != i
      ensures ListOk(lists[j], j, Marked(smallmap', j), fd', bk')
    {
      assert ListOk(lists[j], j, Marked(smallmap, j), fd, bk);
      if lists[j] != [] {
        forall a | a in RingOf(lists[j], j)
          ensures At(fd', a) == At(fd, a) && At(bk', a) == At(bk, a)
        {
          assert ListOk(lists[i], i, Marked(smallmap, i), fd, bk);
          NotInOtherRing(lists, i, j, a);
        }
        LinkedFrame(RingOf(lists[j], j), fd, bk, fd', bk');
      }
    }
    SeparateReplaced(lists, i, x, list');
  }

  lemma NotInOtherRing(lists: seq<seq<int>>, i: nat, j: nat, a: int)
    requires i < |lists| && j < |lists| && i != j && Separate(lists) && Positive(lists[i]) && Positive(lists[j])
    requires a in RingOf(lists[j], j)
    ensures a !in RingOf(lists[i], i)
  {
    if a > 0 {
      assert a in lists[j];
      assert a !in lists[i];
    }
  }

  lemma SeparateReplaced(lists: seq<seq<int>>, i: nat, x: int, list': seq<int>)
    requires Separate(lists) && i < |lists| && forall j :: 0 <= j < |lists| && j != i ==> x !in lists[j]
    requires forall a :: a in list' ==> a in lists[i] || a == x
    ensures Separate(lists[i := list'])
  {
  }

  /** A binned chunk sits in exactly the list of its size. */
  lemma Placed(lists: seq<seq<int>>, smallmap: word, fd: map<int, int>, bk: map<int, int>, x: int)
          returns (i: nat, k: nat)
    requires ListsOk(lists, smallmap, fd, bk) && x in ListViews(lists)
    ensures i < NSMALLBINS && k < |lists[i]| && lists[i][k] == x && ListViews(lists)[x] == 8 * i
    ensures forall j :: 0 <= j < NSMALLBINS && j != i ==> x !in lists[j]
    ensures Marked(smallmap, i) && ListOk(lists[i], i, true, fd, bk)
  {
    i := ListViewsFind(lists, x);
    assert ListOk(lists[i], i, Marked(smallmap, i), fd, bk);
    k :| 0 <= k < |lists[i]| && lists[i][k] == x;
    forall j | 0 <= j < NSMALLBINS && j != i
      ensures x !in lists[j]
    {
      assert x in lists[i];
    }
  }

  lemma NotPlaced(lists: seq<seq<int>>, x: int)
    requires x !in ListViews(lists) && Separate(lists)
    ensures forall j :: 0 <= j < |lists| ==> x !in lists[j]
  {
    forall j | 0 <= j < |lists|
      ensures x !in lists[j]
    {
      if x in lists[j] {
        forall m | j < m < |lists|
          ensures x !in lists[m]
        {
        }
        ListViewsAt(lists, j, x);
      }
    }
  }

  lemma WithoutElems(list: seq<int>, k: nat)
    requires k < |list| && NoDup(list)
    ensures NoDup(Without(list, k)) && forall a :: a in Without(list, k) <==> a in list && a != list[k]
    ensures Without(list, k) == [] <==> |list| == 1
  {
    var r := Without(list, k);
    forall a
      ensures a in r <==> a in list && a != list[k]
    {
      if a in r {
        var m :| 0 <= m < |r| && r[m] == a;
        assert a == list[if m < k then m else m + 1];
      }
      if a in list && a != list[k] {
        var m :| 0 <= m < |list| && list[m] == a;
        assert a == r[if m < k then m else m - 1];
      }
    }
    forall m, n | 0 <= m < n < |r|
      ensures r[m] != r[n]
    {
      assert r[m] == list[if m < k then m else m + 1] && r[n] == list[if n < k then n else n + 1];
    }
  }

  /** insert_small_chunk. */
  lemma PushBin(lists: seq<seq<int>>, smallmap: word, fd: map<int, int>, bk: map<int, int>, i: nat, x: int)
    requires ListsOk(lists, smallmap, fd, bk) && i < NSMALLBINS && x > 0 && x !in ListViews(lists)
    ensures var f := if Marked(smallmap, i) then At(fd, Header(i)) else Header(i);
            var smallmap' := if Marked(smallmap, i) then smallmap else Mark(smallmap, i);
            var lists' := lists[i := [x] + lists[i]];
            && ListsOk(lists', smallmap', fd[Header(i) := x][x := f], bk[f := x][x := Header(i)])
            && ListViews(lists') == ListViews(lists)[x := 8 * i]
  {
    hide ListViews, Mark, Linked;
    NotPlaced(lists, x);
    assert ListOk(lists[i], i, Marked(smallmap, i), fd, bk);
    var list' := [x] + lists[i];
    var smallmap' := if Marked(smallmap, i) then smallmap else Mark(smallmap, i);
    forall j | 0 <= j < NSMALLBINS
      ensures Marked(Mark(smallmap, i), j) <==> i == j || Marked(smallmap, j)
    {
      MarkClear(smallmap, i, j);
    }
    var f := if Marked(smallmap, i) then At(fd, Header(i)) else Header(i);
    hide Marked;
    if Marked(smallmap, i) {
      PushLinked(lists[i], i, fd, bk, x);
    } else {
      FirstLinked(i, fd, bk, x);
      assert list' == [x];
    }
    hide At;
    ListReplaced(lists, smallmap, fd, bk, i, x, list', smallmap', fd[Header(i) := x][x := f],
        bk[f := x][x := Header(i)]) by {
      PushFields(lists[i], i, fd, bk, x, f);
      PushNoDup(lists[i], x);
    }
    ListViewsInsert(lists, i, list', x);
  }

  lemma PushNoDup(list: seq<int>, x: int)
    requires NoDup(list) && x !in list && Positive(list) && x > 0
    ensures NoDup([x] + list) && Positive([x] + list)
  {
  }

  lemma PushFields(list: seq<int>, i: nat, fd: map<int, int>, bk: map<int, int>, x: int, f: int)
    requires f in RingOf(list, i)
    ensures forall a :: a !in RingOf(list, i) && a != x ==>
      At(fd[Header(i) := x][x := f], a) == At(fd, a) && At(bk[f := x][x := Header(i)], a) == At(bk, a)
  {
  }

  /** unlink_small_chunk. */
  lemma PullBin(lists: seq<seq<int>>, smallmap: word, fd: map<int, int>, bk: map<int, int>, i: nat, k: nat, x: int)
    requires ListsOk(lists, smallmap, fd, bk) && i < NSMALLBINS && k < |lists[i]| && lists[i][k] == x
    requires forall j :: 0 <= j < NSMALLBINS && j != i ==> x !in lists[j]
    ensures var f, b := At(fd, x), At(bk, x);
            var lists' := lists[i := Without(lists[i], k)];
            && (if f == b then ListsOk(lists', Clear(smallmap, i), fd, bk)
                else ListsOk(lists', smallmap, fd[b := f], bk[f := b]))
            && ListViews(lists') == ListViews(lists) - {x}
  {
    hide ListViews, Clear, Linked;
    var list := lists[i];
    assert ListOk(list, i, Marked(smallmap, i), fd, bk);
    assert x in list && x > 0;
    var list' := Without(list, k);
    forall j | 0 <= j < NSMALLBINS
      ensures Marked(Clear(smallmap, i), j) <==> i != j && Marked(smallmap, j)
    {
      MarkClear(smallmap, i, j);
    }
    hide Marked;
    var f, b := At(fd, x), At(bk, x);
    Neighbours(list, i, fd, bk, k);
    WithoutElems(list, k);
    ListViewsRemove(lists, i, list', x);
    hide At, Without;
    if f == b {
      ListReplaced(lists, smallmap, fd, bk, i, x, list', Clear(smallmap, i), fd, bk);
    } else {
      PullLinkedBin(list, i, fd, bk, k);
      PullFields(list, i, fd, bk, f, b);
      ListReplaced(lists, smallmap, fd, bk, i, x, list', smallmap, fd[b := f], bk[f := b]);
    }
  }

  lemma PullLinkedBin(list: seq<int>, i: nat, fd: map<int, int>, bk: map<int, int>, k: nat)
    requires k < |list| && Positive(list) && NoDup(list) && Linked(RingOf(list, i), fd, bk)
             && At(fd, list[k]) != At(bk, list[k])
    ensures var f, b := At(fd, list[k]), At(bk, list[k]);
            Linked(RingOf(Without(list, k), i), fd[b := f], bk[f := b]) && f in RingOf(list, i) && b in RingOf(list, i)
  {
    Neighbours(list, i, fd, bk, k);
    PullLinked(list, i, fd, bk, k);
    assert RingOf(list, i)[0] == Header(i);
    assert forall j :: 0 <= j < |list| ==> RingOf(list, i)[j + 1] == list[j];
  }

  lemma PullFields(list: seq<int>, i: nat, fd: map<int, int>, bk: map<int, int>, f: int, b: int)
    requires f in RingOf(list, i) && b in RingOf(list, i)
    ensures forall a :: a !in RingOf(list, i) ==> At(fd[b := f], a) == At(fd, a) && At(bk[f := b], a) == At(bk, a)
  {
  }

  class SmallTable {
    var smallmap: word
    var fd: map<int, int>
    var bk: map<int, int>
    ghost var lists: seq<seq<int>>

    ghost predicate Valid()
      reads this
    {
      ListsOk(lists, smallmap, fd, bk)
    }

    /** The binned chunks with their sizes. */
    ghost function View(): map<int, nat>
      reads this
    {
      ListViews(lists)
    }

    constructor ()
      ensures Valid() && View() == map[]
    {
      smallmap := 0;
      fd, bk := map[], map[];
      lists := seq(NSMALLBINS, _ => []);
      new;
      EmptyMap(smallmap);
      EmptyLists(lists);
    }

    method InsertSmall(x: int, s: nat)
      requires Valid() && x > 0 && x !in View() && s % 8 == 0 && s < 256
      modifies this
      ensures Valid() && View() == old(View())[x := s]
    {
      hide ListsOk, ListViews, Marked, Mark;
      var i := s / 8;
      PushBin(lists, smallmap, fd, bk, i, x);
      ListCount(lists, smallmap, fd, bk);
      var b := Header(i);
      var f := b;
      if !Marked(smallmap, i) {
        smallmap := Mark(smallmap, i);
      } else {
        f := At(fd, b);
      }
      fd, bk := fd[b := x], bk[f := x];
      fd, bk := fd[x := f], bk[x := b];
      lists := lists[i := [x] + lists[i]];
    }

    method UnlinkSmall(x: int, s: nat)
      requires Valid() && x in View() && View()[x] == s
      modifies this
      ensures Valid() && View() == old(View()) - {x}
    {
      hide ListsOk, ListViews, Marked, Clear;
      ghost var j, k := Placed(lists, smallmap, fd, bk, x);
      ListCount(lists, smallmap, fd, bk);
      PullBin(lists, smallmap, fd, bk, j, k, x);
      var f, b := At(fd, x), At(bk, x);
      var i := s / 8;
      if b == f {
        smallmap := Clear(smallmap, i);
      } else {
        bk := bk[f := b];
        fd := fd[b := f];
      }
      lists := lists[j := Without(lists[j], k)];
    }

    /** unlink_first_small_chunk. */
    method UnlinkFirst(x: int, i: nat)
      requires Valid() && i < NSMALLBINS && Marked(smallmap, i) && x == At(fd, Header(i))
      modifies this
      ensures Valid() && View() == old(View()) - {x}
    {
      hide ListsOk, ListViews, Marked, Clear;
      FirstPlaced(lists, smallmap, fd, bk, i);
      PullBin(lists, smallmap, fd, bk, i, 0, x);
      ListCount(lists, smallmap, fd, bk);
      var f, b := At(fd, x), Header(i);
      if b == f {
        smallmap := Clear(smallmap, i);
      } else {
        bk := bk[f := b];
        fd := fd[b := f];
      }
      lists := lists[i := Without(lists[i], 0)];
    }

    /** The first chunk of a marked bin. */
    method First(i: nat) returns (p: int)
      requires Valid() && i < NSMALLBINS && Marked(smallmap, i)
      ensures p == At(fd, Header(i)) && p > 0 && p in View() && View()[p] == 8 * i
    {
      FirstOfList(lists, smallmap, fd, bk, i);
      p := At(fd, Header(i));
    }
  }

  lemma ListCount(lists: seq<seq<int>>, smallmap: word, fd: map<int, int>, bk: map<int, int>)
    requires ListsOk(lists, smallmap, fd, bk)
    ensures |lists| == NSMALLBINS
  {
  }

  /** The header's forward link leads to the first chunk of the bin, and that chunk's back link to the header. */
  lemma FirstPlaced(lists: seq<seq<int>>, smallmap: word, fd: map<int, int>, bk: map<int, int>, i: nat)
    requires ListsOk(lists, smallmap, fd, bk) && i < NSMALLBINS && Marked(smallmap, i)
    ensures |lists| == NSMALLBINS && |lists[i]| > 0 && lists[i][0] == At(fd, Header(i))
            && At(bk, lists[i][0]) == Header(i)
    ensures forall j :: 0 <= j < NSMALLBINS && j != i ==> lists[i][0] !in lists[j]
  {
    hide Marked, ListViews;
    assert ListOk(lists[i], i, true, fd, bk);
    var list := lists[i];
    var ring := RingOf(list, i);
    assert At(fd, ring[0]) == ring[Next(|ring|, 0)];
    Neighbours(list, i, fd, bk, 0);
    forall j | 0 <= j < NSMALLBINS && j != i
      ensures list[0] !in lists[j]
    {
      assert list[0] in lists[i];
    }
  }

  lemma FirstOfList(lists: seq<seq<int>>, smallmap: word, fd: map<int, int>, bk: map<int, int>, i: nat)
    requires ListsOk(lists, smallmap, fd, bk) && i < NSMALLBINS && Marked(smallmap, i)
    ensures var p := At(fd, Header(i)); p > 0 && p in ListViews(lists) && ListViews(lists)[p] == 8 * i
  {
    hide Marked, ListViews;
    assert ListOk(lists[i], i, true, fd, bk);
    var ring := RingOf(lists[i], i);
    assert At(fd, ring[0]) == ring[Next(|ring|, 0)];
    assert lists[i][0] in lists[i];
    ListViewsAt(lists, i, lists[i][0]);
  }

  /** A bin is marked exactly when a chunk of its size is in it. */
  lemma MarkedHolds(lists: seq<seq<int>>, smallmap: word, fd: map<int, int>, bk: map<int, int>, i: nat)
    requires ListsOk(lists, smallmap, fd, bk) && i < NSMALLBINS
    ensures Marked(smallmap, i) <==> exists a :: a in ListViews(lists) && ListViews(lists)[a] == 8 * i
  {
    hide Marked, ListViews;
    if Marked(smallmap, i) {
      FirstOfList(lists, smallmap, fd, bk, i);
    } else if a :| a in ListViews(lists) && ListViews(lists)[a] == 8 * i {
      var j, k := Placed(lists, smallmap, fd, bk, a);
    }
  }

  lemma EmptyLists(lists: seq<seq<int>>)
    requires forall i :: 0 <= i < |lists| ==> lists[i] == []
    ensures ListViews(lists) == map[]
  {
    if lists != [] {
      EmptyLists(lists[..|lists| - 1]);
    }
  }
}
