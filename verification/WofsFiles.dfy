/** What the log means: a map from case-folded names to contents, and the list of live names in creation order. */
module WofsFiles {
  import opened Bytes
  import opened WofsLog

  /** No two live records have names that differ only in case. */
  ghost predicate Unique(recs: seq<Record>) {
    forall i, j :: 0 <= i < j < |recs| && !recs[i].deleted && !recs[j].deleted ==>
        Folded(recs[i].name) != Folded(recs[j].name)
  }

  ghost predicate Absent(recs: seq<Record>, f: seq<byte>) {
    forall i :: 0 <= i < |recs| && !recs[i].deleted ==> Folded(recs[i].name) != f
  }

  /** The files, by folded name. */
  ghost function Files(recs: seq<Record>): map<seq<byte>, seq<byte>> {
    if recs == [] then map[]
    else
      var r := recs[|recs| - 1];
      var m := Files(recs[..|recs| - 1]);
      if r.deleted then m else m[Folded(r.name) := r.data]
  }

  /** A name is in the map exactly if some live record has it. */
  lemma {:induction false} FileIn(recs: seq<Record>, f: seq<byte>)
    ensures f in Files(recs) <==> !Absent(recs, f)
  {
    if recs != [] {
      var n := |recs| - 1;
      var init := recs[..n];
      FileIn(init, f);
      if !Absent(init, f) {
        var i :| 0 <= i < |init| && !init[i].deleted && Folded(init[i].name) == f;
        assert recs[i] == init[i];
      }
      if !Absent(recs, f) {
        var i :| 0 <= i < |recs| && !recs[i].deleted && Folded(recs[i].name) == f;
        assert i < n ==> init[i] == recs[i];
      }
    }
  }

  /** Two characters that are the same but for the case of an ASCII letter. */
  predicate SameLetter(x: byte, y: byte) {
    x == y || (65 <= x <= 90 && y == x + 32) || (65 <= y <= 90 && x == y + 32)
  }

  predicate SameName(a: seq<byte>, b: seq<byte>) { |a| == |b| && forall i :: 0 <= i < |a| ==> SameLetter(a[i], b[i]) }

  lemma FoldIff(x: byte, y: byte)
    ensures Fold(x) == Fold(y) <==> SameLetter(x, y)
  {
  }

  /** Names fold alike exactly if they differ in the case of ASCII letters only. */
  lemma FoldedIff(a: seq<byte>, b: seq<byte>)
    ensures Folded(a) == Folded(b) <==> SameName(a, b)
  {
    hide Fold, SameLetter;
    if |a| == |b| {
      forall i | 0 <= i < |a|
        ensures Folded(a)[i] == Folded(b)[i] <==> SameLetter(a[i], b[i])
      {
        FoldIff(a[i], b[i]);
      }
    } else {
      assert |Folded(a)| == |a| && |Folded(b)| == |b|;
    }
  }

  /** A file is found by any name that differs from its own in the case of letters only, and by no other. */
  lemma FoundIff(recs: seq<Record>, path: seq<byte>)
    ensures Folded(path) in Files(recs) <==>
              exists k :: 0 <= k < |recs| && !recs[k].deleted && SameName(recs[k].name, path)
  {
    FileIn(recs, Folded(path));
    hide Files, Folded, SameName;
    forall k | 0 <= k < |recs|
      ensures Folded(recs[k].name) == Folded(path) <==> SameName(recs[k].name, path)
    {
      FoldedIff(recs[k].name, path);
    }
  }

  lemma {:induction false} FileIs(recs: seq<Record>, k: nat)
    requires Unique(recs) && k < |recs| && !recs[k].deleted
    ensures Folded(recs[k].name) in Files(recs) && Files(recs)[Folded(recs[k].name)] == recs[k].data
  {
    var n := |recs| - 1;
    if k < n {
      var init := recs[..n];
      assert Unique(init);
      FileIs(init, k);
      assert !recs[n].deleted ==> Folded(recs[n].name) != Folded(recs[k].name);
    }
  }

  lemma DeletedAbsent(recs: seq<Record>, k: nat, g: seq<byte>)
    requires Unique(recs) && k < |recs| && !recs[k].deleted
    ensures Absent(Deleted(recs, k), g) <==> Absent(recs, g) || g == Folded(recs[k].name)
  {
    hide Folded;
    var recs' := Deleted(recs, k);
    assert forall i :: 0 <= i < |recs| && i != k ==> recs'[i] == recs[i];
  }

  lemma DeletedUnique(recs: seq<Record>, k: nat)
    requires Unique(recs) && k < |recs|
    ensures Unique(Deleted(recs, k))
  {
    hide Folded;
  }

  lemma DeletedValue(recs: seq<Record>, k: nat, g: seq<byte>)
    requires Unique(recs) && k < |recs| && g in Files(Deleted(recs, k)) && g in Files(recs)
    ensures Files(Deleted(recs, k))[g] == Files(recs)[g]
  {
    hide Folded, Files, Unique;
    var recs' := Deleted(recs, k);
    FileIn(recs', g);
    var i :| 0 <= i < |recs'| && !recs'[i].deleted && Folded(recs'[i].name) == g;
    assert recs[i] == recs'[i];
    DeletedUnique(recs, k);
    FileIs(recs', i);
    FileIs(recs, i);
  }

  /** Deleting the live record of a name takes that name, and nothing else, off the map. */
  lemma DeletedFiles(recs: seq<Record>, k: nat)
    requires Unique(recs) && k < |recs| && !recs[k].deleted
    ensures Files(Deleted(recs, k)) == Files(recs) - {Folded(recs[k].name)}
    ensures Unique(Deleted(recs, k)) && Absent(Deleted(recs, k), Folded(recs[k].name))
  {
    hide Folded, Files, Unique, Absent, Deleted;
    var f := Folded(recs[k].name);
    DeletedUnique(recs, k);
    DeletedAbsent(recs, k, f);
    forall g
      ensures g in Files(Deleted(recs, k)) <==> g in Files(recs) && g != f
      ensures g in Files(Deleted(recs, k)) ==> Files(Deleted(recs, k))[g] == Files(recs)[g]
    {
      DeletedAbsent(recs, k, g);
      FileIn(recs, g);
      FileIn(Deleted(recs, k), g);
      if g in Files(Deleted(recs, k)) { DeletedValue(recs, k, g); }
    }
  }

  lemma AddedFiles(recs: seq<Record>, r: Record)
    requires Unique(recs) && !r.deleted && Absent(recs, Folded(r.name))
    ensures Files(recs + [r]) == Files(recs)[Folded(r.name) := r.data] && Unique(recs + [r])
  {
    assert (recs + [r])[..|recs|] == recs;
  }

  // ---- directory listings ----

  datatype Entry = Entry(name: seq<byte>, size: nat)

  /** The live records from k on, in the order in which they were created. */
  ghost function Listing(recs: seq<Record>, k: nat): seq<Entry>
    requires k <= |recs|
    decreases |recs| - k
  {
    if k == |recs| then []
    else (if recs[k].deleted then [] else [Entry(recs[k].name, |recs[k].data|)]) + Listing(recs, k + 1)
  }

  ghost predicate Listed(l: seq<Entry>, f: seq<byte>) { exists i :: 0 <= i < |l| && Folded(l[i].name) == f }

  ghost predicate LiveFrom(recs: seq<Record>, k: nat, f: seq<byte>) {
    exists j :: k <= j < |recs| && !recs[j].deleted && Folded(recs[j].name) == f
  }

  lemma ListingStep(recs: seq<Record>, k: nat)
    requires k < |recs|
    ensures recs[k].deleted ==> Listing(recs, k) == Listing(recs, k + 1)
    ensures !recs[k].deleted ==> Listing(recs, k) == [Entry(recs[k].name, |recs[k].data|)] + Listing(recs, k + 1)
  {
    assert [] + Listing(recs, k + 1) == Listing(recs, k + 1);
  }

  lemma ListedMore(e: Entry, l: seq<Entry>, f: seq<byte>)
    ensures Listed([e] + l, f) <==> Folded(e.name) == f || Listed(l, f)
  {
    hide Folded;
    var m := [e] + l;
    assert m[0] == e;
    if i :| 0 <= i < |l| && Folded(l[i].name) == f { assert m[i + 1] == l[i]; }
    if i :| 0 < i < |m| && Folded(m[i].name) == f { assert m[i] == l[i - 1]; }
  }

  lemma ListingEnd(recs: seq<Record>, f: seq<byte>)
    ensures Listing(recs, |recs|) == [] && !Listed([], f) && !LiveFrom(recs, |recs|, f)
  {
  }

  lemma LiveStep(recs: seq<Record>, k: nat, f: seq<byte>)
    requires k < |recs|
    ensures LiveFrom(recs, k, f) <==> (!recs[k].deleted && Folded(recs[k].name) == f) || LiveFrom(recs, k + 1, f)
  {
    hide Folded;
  }

  /** The listing names every file of the map. */
  lemma {:induction false} ListingComplete(recs: seq<Record>, k: nat, f: seq<byte>)
    requires k <= |recs|
    ensures Listed(Listing(recs, k), f) <==> LiveFrom(recs, k, f)
    decreases |recs| - k
  {
    hide *;
    if k == |recs| {
      ListingEnd(recs, f);
    } else {
      ListingStep(recs, k);
      LiveStep(recs, k, f);
      ListingComplete(recs, k + 1, f);
      ListedMore(Entry(recs[k].name, |recs[k].data|), Listing(recs, k + 1), f);
    }
  }

  /** No entry behind a live record has its name. */
  lemma ListingOthers(recs: seq<Record>, k: nat, i: nat)
    requires k < |recs| && Unique(recs) && !recs[k].deleted && i < |Listing(recs, k + 1)|
    ensures Folded(Listing(recs, k + 1)[i].name) != Folded(recs[k].name)
  {
    hide Listing, Folded;
    ListingComplete(recs, k + 1, Folded(recs[k].name));
  }

  ghost predicate Distinct(l: seq<Entry>) { forall i, j :: 0 <= i < j < |l| ==> Folded(l[i].name) != Folded(l[j].name) }

  lemma DistinctMore(e: Entry, l: seq<Entry>)
    requires Distinct(l) && forall i :: 0 <= i < |l| ==> Folded(l[i].name) != Folded(e.name)
    ensures Distinct([e] + l)
  {
    hide Folded;
    var m := [e] + l;
    forall i, j | 0 <= i < j < |m|
      ensures Folded(m[i].name) != Folded(m[j].name)
    {
      assert m[j] == l[j - 1] && (i > 0 ==> m[i] == l[i - 1]);
    }
  }

  lemma {:induction false} ListingDistinct(recs: seq<Record>, k: nat)
    requires k <= |recs| && Unique(recs)
    ensures Distinct(Listing(recs, k))
    decreases |recs| - k
  {
    hide Listing, Folded, Distinct;
    if k == |recs| {
      ListingEnd(recs, []);
      NoneDistinct();
    } else {
      ListingStep(recs, k);
      ListingDistinct(recs, k + 1);
      if !recs[k].deleted {
        var l := Listing(recs, k + 1);
        forall i | 0 <= i < |l|
          ensures Folded(l[i].name) != Folded(recs[k].name)
        {
          ListingOthers(recs, k, i);
        }
        DistinctMore(Entry(recs[k].name, |recs[k].data|), l);
      }
    }
  }

  lemma NoneDistinct()
    ensures Distinct([])
  {
  }

  /** The names of the listing are the keys of the map. */
  lemma ListingIsMap(recs: seq<Record>, f: seq<byte>)
    ensures f in Files(recs) <==> Listed(Listing(recs, 0), f)
  {
    hide Listing, Folded;
    FileIn(recs, f);
    ListingComplete(recs, 0, f);
  }
}
