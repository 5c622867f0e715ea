/** The flash image of the write-once file system: a log of file records. */
module WofsLog {
  import opened Bytes

  const DM_MAX_FNAME_LENGTH := 30
  const ROMFS_ALIGN := 4
  const WOFS_DEL_FIELD_SIZE := 4
  const ROMFS_SIZE_LEN := 4
  const WOFS_MIN_NEEDED_SIZE := 11
  const ERASED: byte := 0xFF
  const WOFS_FILE_DELETED: byte := 0xAA

  datatype Record = Record(name: seq<byte>, deleted: bool, data: seq<byte>)

  // ---- names ----

  function Fold(b: byte): byte { if 65 <= b <= 90 then b + 32 else b }

  function Folded(name: seq<byte>): seq<byte> { seq(|name|, i requires 0 <= i < |name| => Fold(name[i])) }

  /** File names: at most 30 characters, none of them 0, not looking like the end marker, and not the name "\1"
      that stands for no file. */
  ghost predicate GoodName(name: seq<byte>) {
    0 < |name| <= DM_MAX_FNAME_LENGTH && 0 !in name && name[0] != ERASED && name != [1]
  }

  // ---- positions ----

  function Align(x: nat): nat { (x + 3) / 4 * 4 }

  lemma AlignFacts(x: nat)
    ensures Align(x) % 4 == 0 && x <= Align(x) <= x + 3
    ensures forall m :: m % 4 == 0 && x <= m ==> Align(x) <= m
  {
    var q := (x + 3) / 4;
    assert Align(x) == 4 * q;
  }

  function DelAt(s: nat, name: seq<byte>): nat { Align(s + |name| + 1) }

  function DataAt(s: nat, name: seq<byte>): nat { DelAt(s, name) + WOFS_DEL_FIELD_SIZE + ROMFS_SIZE_LEN }

  function NextAt(s: nat, r: Record): nat { Align(DataAt(s, r.name) + |r.data|) }

  /** Where record k begins. */
  function StartAt(recs: seq<Record>, k: nat): nat
    requires k <= |recs|
  {
    if k == 0 then 0 else NextAt(StartAt(recs, k - 1), recs[k - 1])
  }

  function End(recs: seq<Record>): nat { StartAt(recs, |recs|) }

  lemma RecordSpan(s: nat, r: Record)
    ensures s + |r.name| + 1 <= DelAt(s, r.name) && DataAt(s, r.name) + |r.data| <= NextAt(s, r)
    ensures DelAt(s, r.name) % 4 == 0 && DataAt(s, r.name) % 4 == 0 && NextAt(s, r) % 4 == 0
  {
    AlignFacts(s + |r.name| + 1);
    AlignFacts(DataAt(s, r.name) + |r.data|);
    hide Align;
  }

  lemma {:induction false} Starts(recs: seq<Record>, j: nat, k: nat)
    requires j <= k <= |recs|
    ensures StartAt(recs, j) <= StartAt(recs, k) && StartAt(recs, k) % 4 == 0
    ensures j < k ==> NextAt(StartAt(recs, j), recs[j]) <= StartAt(recs, k)
  {
    hide NextAt, DelAt, DataAt, Align;
    if k > 0 {
      RecordSpan(StartAt(recs, k - 1), recs[k - 1]);
      RecordGrows(StartAt(recs, k - 1), recs[k - 1]);
      if j < k { Starts(recs, j, k - 1); }
    }
  }

  lemma RecordGrows(s: nat, r: Record)
    ensures s + 9 <= NextAt(s, r)
  {
    RecordSpan(s, r);
    hide Align;
  }

  /** Positions depend only on names and lengths. */
  lemma {:induction false} SamePositions(recs: seq<Record>, recs': seq<Record>, k: nat)
    requires k <= |recs| && k <= |recs'|
             && forall j :: 0 <= j < k ==> recs'[j].name == recs[j].name && |recs'[j].data| == |recs[j].data|
    ensures StartAt(recs', k) == StartAt(recs, k)
  {
    if k > 0 { SamePositions(recs, recs', k - 1); }
  }

  // ---- the image ----

  function Le32(img: seq<byte>, a: nat): nat
    requires a + 4 <= |img|
  {
    var b0: nat, b1: nat, b2: nat, b3: nat := img[a], img[a + 1], img[a + 2], img[a + 3];
    b0 + b1 * 0x100 + b2 * 0x1_0000 + b3 * 0x100_0000
  }

  /** n erased bytes. */
  ghost predicate Blank(img: seq<byte>, a: nat, n: nat)
    requires a + n <= |img|
  {
    forall x :: a <= x < a + n ==> img[x] == ERASED
  }

  ghost predicate HeaderAt(img: seq<byte>, s: nat, name: seq<byte>, deleted: bool) {
    && GoodName(name) && DataAt(s, name) <= |img| && s + |name| < |img| && DelAt(s, name) + 4 <= |img|
    && img[s..s + |name|] == name && img[s + |name|] == 0
    && img[DelAt(s, name)] == (if deleted then WOFS_FILE_DELETED else ERASED)
    && Blank(img, DelAt(s, name) + 1, 3)
  }

  ghost predicate RecordAt(img: seq<byte>, s: nat, r: Record) {
    && NextAt(s, r) <= |img| && DataAt(s, r.name) + |r.data| <= |img|
    && HeaderAt(img, s, r.name, r.deleted) && Le32(img, DelAt(s, r.name) + 4) == |r.data|
    && img[DataAt(s, r.name)..DataAt(s, r.name) + |r.data|] == r.data
  }

  /** All records, then nothing but erased flash, at least one word of it. */
  ghost predicate LogOk(img: seq<byte>, recs: seq<Record>) {
    && End(recs) + ROMFS_ALIGN <= |img| && |img| % ROMFS_ALIGN == 0
    && (forall k :: 0 <= k < |recs| ==> RecordAt(img, StartAt(recs, k), recs[k]))
    && Blank(img, End(recs), |img| - End(recs))
  }

  /** A record depends on its own bytes only. */
  lemma RecordFrame(img: seq<byte>, img': seq<byte>, s: nat, r: Record)
    requires RecordAt(img, s, r) && |img'| == |img| && forall x :: s <= x < NextAt(s, r) ==> img'[x] == img[x]
    ensures RecordAt(img', s, r)
  {
    RecordSpan(s, r);
    DataIs(s, r.name);
    hide DelAt, NextAt, DataAt;
    HeaderFrame(img, img', s, r.name, r.deleted);
    SliceFrame(img, img', DataAt(s, r.name), |r.data|);
  }

  lemma SliceFrame(img: seq<byte>, img': seq<byte>, a: nat, n: nat)
    requires a + n <= |img| == |img'| && forall x :: a <= x < a + n ==> img'[x] == img[x]
    ensures img'[a..a + n] == img[a..a + n]
  {
  }

  lemma HeaderFrame(img: seq<byte>, img': seq<byte>, s: nat, name: seq<byte>, deleted: bool)
    requires HeaderAt(img, s, name, deleted) && |img'| == |img|
             && forall x :: s <= x < DataAt(s, name) ==> img'[x] == img[x]
    ensures HeaderAt(img', s, name, deleted) && DelAt(s, name) + 8 <= |img|
            && Le32(img', DelAt(s, name) + 4) == Le32(img, DelAt(s, name) + 4)
  {
    RecordSpan(s, Record(name, deleted, []));
    DataIs(s, name);
    hide DelAt, DataAt;
    SliceFrame(img, img', s, |name|);
    var d := DelAt(s, name);
    assert img'[d] == img[d] && img'[d + 1] == img[d + 1] && img'[d + 2] == img[d + 2] && img'[d + 3] == img[d + 3];
    assert img'[d + 4] == img[d + 4] && img'[d + 5] == img[d + 5] && img'[d + 6] == img[d + 6]
           && img'[d + 7] == img[d + 7];
  }

  lemma DataIs(s: nat, name: seq<byte>)
    ensures DataAt(s, name) == DelAt(s, name) + 8
  {
  }

  // ---- tombstones ----

  function Patch(img: seq<byte>, a: nat, bytes: seq<byte>): seq<byte>
    requires a + |bytes| <= |img|
  {
    img[..a] + bytes + img[a + |bytes|..]
  }

  function Deleted(recs: seq<Record>, k: nat): seq<Record>
    requires k < |recs|
  {
    recs[k := recs[k].(deleted := true)]
  }

  const TOMBSTONE: seq<byte> := [WOFS_FILE_DELETED, ERASED, ERASED, ERASED]

  lemma DeletedRecord(img: seq<byte>, s: nat, r: Record)
    requires RecordAt(img, s, r)
    ensures DelAt(s, r.name) + 4 <= |img|
    ensures RecordAt(Patch(img, DelAt(s, r.name), TOMBSTONE), s, r.(deleted := true))
    ensures !r.deleted ==> Blank(img, DelAt(s, r.name), 4)
  {
    RecordSpan(s, r);
    DataIs(s, r.name);
    DeletedNext(s, r);
    hide DelAt, DataAt, NextAt, Patch;
    var d := DelAt(s, r.name);
    var img' := Patch(img, d, TOMBSTONE);
    PatchAt(img, d, TOMBSTONE);
    SliceFrame(img, img', s, |r.name|);
    SliceFrame(img, img', DataAt(s, r.name), |r.data|);
    assert img'[d + 4] == img[d + 4] && img'[d + 5] == img[d + 5] && img'[d + 6] == img[d + 6]
           && img'[d + 7] == img[d + 7];
    assert img'[d] == TOMBSTONE[0] && img'[d + 1] == TOMBSTONE[1] && img'[d + 2] == TOMBSTONE[2]
           && img'[d + 3] == TOMBSTONE[3];
  }

  lemma DeletedNext(s: nat, r: Record)
    ensures NextAt(s, r.(deleted := true)) == NextAt(s, r)
  {
  }

  /** Marking record k deleted goes onto erased flash and gives the log with k deleted. */
  lemma Tombstone(img: seq<byte>, recs: seq<Record>, k: nat)
    requires LogOk(img, recs) && k < |recs| && !recs[k].deleted
    ensures var a := DelAt(StartAt(recs, k), recs[k].name);
            && a + 4 <= |img| && Blank(img, a, 4)
            && LogOk(Patch(img, a, TOMBSTONE), Deleted(recs, k)) && End(Deleted(recs, k)) == End(recs)
  {
    hide RecordAt, Patch, DelAt, NextAt, DataAt, StartAt;
    var s := StartAt(recs, k);
    var a := DelAt(s, recs[k].name);
    DeletedRecord(img, s, recs[k]);
    var img' := Patch(img, a, TOMBSTONE);
    var recs' := Deleted(recs, k);
    SamePositions(recs, recs', |recs|);
    PatchAt(img, a, TOMBSTONE);
    RecordSpan(s, recs[k]);
    DataIs(s, recs[k].name);
    Starts(recs, k, |recs|);
    forall j | 0 <= j < |recs|
      ensures RecordAt(img', StartAt(recs', j), recs'[j])
    {
      SamePositions(recs, recs', j);
      if j != k { OtherRecord(img, img', recs, j, k); }
    }
  }

  /** Bytes of record k are no bytes of record j. */
  lemma OtherRecord(img: seq<byte>, img': seq<byte>, recs: seq<Record>, j: nat, k: nat)
    requires j < |recs| && k < |recs| && j != k && RecordAt(img, StartAt(recs, j), recs[j]) && |img'| == |img|
    requires forall x :: 0 <= x < |img| && (x < StartAt(recs, k) || NextAt(StartAt(recs, k), recs[k]) <= x) ==>
               img'[x] == img[x]
    ensures RecordAt(img', StartAt(recs, j), recs[j])
  {
    hide DelAt, NextAt, DataAt, StartAt;
    if j < k { Starts(recs, j, k); } else { Starts(recs, k, j); }
    InImage(img, StartAt(recs, j), recs[j]);
    hide RecordAt;
    RecordFrame(img, img', StartAt(recs, j), recs[j]);
  }

  lemma InImage(img: seq<byte>, s: nat, r: Record)
    requires RecordAt(img, s, r)
    ensures NextAt(s, r) <= |img|
  {
  }

  lemma PatchAt(img: seq<byte>, a: nat, bytes: seq<byte>)
    requires a + |bytes| <= |img|
    ensures |Patch(img, a, bytes)| == |img|
    ensures forall x :: 0 <= x < |img| ==> Patch(img, a, bytes)[x] == if a <= x < a + |bytes| then bytes[x - a]
              else img[x]
  {
  }

  // ---- the file being written ----

  /** The last record while its file is open for writing: its size is still erased. */
  ghost predicate PendingAt(img: seq<byte>, s: nat, name: seq<byte>, data: seq<byte>) {
    && HeaderAt(img, s, name, false) && DataAt(s, name) + |data| + ROMFS_ALIGN <= |img|
    && DelAt(s, name) + 8 == DataAt(s, name)
    && Blank(img, DelAt(s, name) + 4, 4)
    && img[DataAt(s, name)..DataAt(s, name) + |data|] == data
    && Blank(img, DataAt(s, name) + |data|, |img| - DataAt(s, name) - |data|)
  }

  ghost predicate WritingOk(img: seq<byte>, recs: seq<Record>, name: seq<byte>, data: seq<byte>) {
    && |img| % ROMFS_ALIGN == 0 && End(recs) <= |img|
    && (forall k :: 0 <= k < |recs| ==> RecordAt(img, StartAt(recs, k), recs[k]))
    && PendingAt(img, End(recs), name, data)
  }

  /** Writes behind the records leave them alone. */
  lemma RecordsKept(img: seq<byte>, img': seq<byte>, recs: seq<Record>, k: nat)
    requires k < |recs| && RecordAt(img, StartAt(recs, k), recs[k]) && |img'| == |img|
    requires forall x :: 0 <= x < |img| && x < End(recs) ==> img'[x] == img[x]
    ensures RecordAt(img', StartAt(recs, k), recs[k])
  {
    hide DelAt, NextAt, DataAt, StartAt;
    Starts(recs, k, |recs|);
    InImage(img, StartAt(recs, k), recs[k]);
    hide RecordAt;
    RecordFrame(img, img', StartAt(recs, k), recs[k]);
  }

  /** romfs_open_r's space check leaves room for the header and an end marker. */
  lemma RoomForHeader(max: nat, s: nat, name: seq<byte>)
    requires max % 4 == 0 && s % 4 == 0 && s + |name| + 1 + WOFS_MIN_NEEDED_SIZE + WOFS_DEL_FIELD_SIZE <= max + 1
    ensures DataAt(s, name) + ROMFS_ALIGN <= max
  {
    AlignFacts(s + |name| + 1);
    RecordSpan(s, Record(name, false, []));
    DataIs(s, name);
    hide Align;
  }

  lemma Begin(img: seq<byte>, recs: seq<Record>, name: seq<byte>)
    requires LogOk(img, recs) && GoodName(name) && DataAt(End(recs), name) + ROMFS_ALIGN <= |img|
    ensures End(recs) + |name| + 1 <= |img| && Blank(img, End(recs), |name| + 1)
    ensures WritingOk(Patch(img, End(recs), name + [0]), recs, name, [])
  {
    hide RecordAt, Patch, DelAt, NextAt, DataAt, StartAt;
    var s := End(recs);
    RecordSpan(s, Record(name, false, []));
    DataIs(s, name);
    var img' := Patch(img, s, name + [0]);
    PatchAt(img, s, name + [0]);
    forall k | 0 <= k < |recs|
      ensures RecordAt(img', StartAt(recs, k), recs[k])
    {
      RecordsKept(img, img', recs, k);
    }
    assert img'[s..s + |name|] == name;
  }

  lemma Extend(img: seq<byte>, recs: seq<Record>, name: seq<byte>, data: seq<byte>, more: seq<byte>)
    requires WritingOk(img, recs, name, data) && DataAt(End(recs), name) + |data| + |more| + ROMFS_ALIGN <= |img|
    ensures Blank(img, DataAt(End(recs), name) + |data|, |more|)
    ensures WritingOk(Patch(img, DataAt(End(recs), name) + |data|, more), recs, name, data + more)
  {
    hide RecordAt, Patch, DelAt, NextAt, DataAt, StartAt, HeaderAt;
    var s := End(recs);
    RecordSpan(s, Record(name, false, []));
    DataIs(s, name);
    var a := DataAt(s, name);
    var img' := Patch(img, a + |data|, more);
    PatchAt(img, a + |data|, more);
    forall k | 0 <= k < |recs|
      ensures RecordAt(img', StartAt(recs, k), recs[k])
    {
      RecordsKept(img, img', recs, k);
    }
    HeaderKept(img, img', s, name);
    SliceFrame(img, img', a, |data|);
    assert img'[a + |data|..a + |data| + |more|] == more;
    assert img'[a..a + |data + more|] == img'[a..a + |data|] + img'[a + |data|..a + |data| + |more|];
  }

  lemma HeaderKept(img: seq<byte>, img': seq<byte>, s: nat, name: seq<byte>)
    requires HeaderAt(img, s, name, false) && |img'| == |img|
    requires forall x :: 0 <= x < |img| && x < DelAt(s, name) + 4 ==> img'[x] == img[x]
    ensures HeaderAt(img', s, name, false)
  {
    RecordSpan(s, Record(name, false, []));
    DataIs(s, name);
    hide DelAt, DataAt;
    SliceFrame(img, img', s, |name|);
    var d := DelAt(s, name);
    assert img'[d] == img[d] && img'[d + 1] == img[d + 1] && img'[d + 2] == img[d + 2] && img'[d + 3] == img[d + 3];
  }

  /** The four bytes of a size, lowest first. */
  function LeBytes(n: nat): seq<byte> { [n % 0x100, n / 0x100 % 0x100, n / 0x1_0000 % 0x100, n / 0x100_0000 % 0x100] }

  /** A size is stored with its low byte first. */
  lemma SizeBytes(n: nat)
    requires n < TWO_32
    ensures var b := LeBytes(n);
            |b| == 4 && n == b[0] as int + 0x100 * b[1] as int + 0x1_0000 * b[2] as int + 0x100_0000 * b[3] as int
  {
    LeBytesBack(n);
  }

  lemma LeBytesBack(n: nat)
    requires n < TWO_32
    ensures n % 0x100 + n / 0x100 % 0x100 * 0x100 + n / 0x1_0000 % 0x100 * 0x1_0000
              + n / 0x100_0000 % 0x100 * 0x100_0000 == n
  {
    var a := n / 0x100;
    var b := a / 0x100;
    assert b == n / 0x1_0000;
    assert b / 0x100 == n / 0x100_0000;
  }

  lemma Finish(img: seq<byte>, recs: seq<Record>, name: seq<byte>, data: seq<byte>)
    requires WritingOk(img, recs, name, data) && |img| < TWO_32
    ensures DelAt(End(recs), name) + 8 <= |img| && Blank(img, DelAt(End(recs), name) + 4, 4)
    ensures LogOk(Patch(img, DelAt(End(recs), name) + 4, LeBytes(|data|)), recs + [Record(name, false, data)])
  {
    hide RecordAt, Patch, DelAt, NextAt, DataAt, StartAt, HeaderAt;
    var s := End(recs);
    var r := Record(name, false, data);
    RecordSpan(s, r);
    DataIs(s, name);
    var d := DelAt(s, name);
    var img' := Patch(img, d + 4, LeBytes(|data|));
    PatchAt(img, d + 4, LeBytes(|data|));
    var recs' := recs + [r];
    Starts(recs, 0, |recs|);
    NextFits(s, r, |img|);
    EndOf(recs, r);
    forall k | 0 <= k < |recs|
      ensures RecordAt(img', StartAt(recs', k), recs'[k])
    {
      SamePositions(recs, recs', k);
      RecordsKept(img, img', recs, k);
    }
    SamePositions(recs, recs', |recs|);
    FinishedRecord(img, img', s, r);
  }

  lemma EndOf(recs: seq<Record>, r: Record)
    ensures End(recs + [r]) == NextAt(End(recs), r)
  {
    SamePositions(recs, recs + [r], |recs|);
  }

  lemma NextFits(s: nat, r: Record, max: nat)
    requires max % 4 == 0 && DataAt(s, r.name) + |r.data| + 4 <= max
    ensures NextAt(s, r) + 4 <= max && DataAt(s, r.name) + |r.data| <= NextAt(s, r)
  {
    AlignFacts(DataAt(s, r.name) + |r.data|);
    assert (max - 4) % 4 == 0;
    hide Align, DataAt;
  }

  lemma FinishedRecord(img: seq<byte>, img': seq<byte>, s: nat, r: Record)
    requires PendingAt(img, s, r.name, r.data) && !r.deleted && |img| < TWO_32 && NextAt(s, r) <= |img|
             && DataAt(s, r.name) == DelAt(s, r.name) + 8
    requires img' == Patch(img, DelAt(s, r.name) + 4, LeBytes(|r.data|))
    ensures RecordAt(img', s, r)
  {
    hide DelAt, NextAt, DataAt, Patch, HeaderAt;
    var d := DelAt(s, r.name);
    PatchAt(img, d + 4, LeBytes(|r.data|));
    HeaderKept(img, img', s, r.name);
    SliceFrame(img, img', d + 8, |r.data|);
    LeBytesBack(|r.data|);
    assert img'[d + 4] == LeBytes(|r.data|)[0] && img'[d + 5] == LeBytes(|r.data|)[1]
           && img'[d + 6] == LeBytes(|r.data|)[2] && img'[d + 7] == LeBytes(|r.data|)[3];
  }
}
