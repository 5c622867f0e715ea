/** Formatting the write-once file system: sectors are erased up to the one that holds the end marker. */
module WofsFormat {
  import opened Bytes
  import opened WofsLog
  import opened WofsFiles
  import opened Wofs
  import opened FlashSectors

  /** The image erased from a up to b. */
  function Erased(img: seq<byte>, a: int, b: int): (r: seq<byte>)
    ensures |r| == |img| && forall x :: 0 <= x < |img| ==> r[x] == if a <= x < b then ERASED else img[x]
  {
    seq(|img|, x requires 0 <= x < |img| => if a <= x < b then ERASED else img[x])
  }

  class Formatter {
    const sectors: Sectors
    /** The first sector after the program image, where the file system begins. */
    const first: nat
    const fs: Fs
    /** The sectors that fail to erase. */
    const stuck: set<nat>

    constructor (sectors: Sectors, first: nat, fs: Fs, stuck: set<nat>)
      ensures this.sectors == sectors && this.first == first && this.fs == fs && this.stuck == stuck
    {
      this.sectors, this.first, this.fs, this.stuck := sectors, first, fs, stuck;
    }

    ghost predicate Valid()
      reads fs
    {
      && sectors.Valid() && first <= |sectors.sizes| && sectors.used <= SectorStart(sectors.sizes, first)
      && (forall i :: 0 <= i < first ==> SectorStart(sectors.sizes, i) < sectors.used)
      && |fs.image| == Total(sectors.sizes) - SectorStart(sectors.sizes, first)
    }

    /** The first sector to erase and the last one, which holds the end marker. */
    ghost predicate Last(k: nat)
      requires Valid()
      reads fs
    {
      first <= k < |sectors.sizes| && Within(sectors.sizes, k, SectorStart(sectors.sizes, first) + End(fs.recs))
    }

    ghost predicate NoneStuck(k: nat) { forall i: nat :: first <= i <= k ==> i !in stuck }

    /** platform_flash_erase_sector. */
    method EraseSector(i: nat) returns (ok: bool)
      requires Valid() && first <= i < |sectors.sizes|
      modifies fs`image
      ensures Valid() && ok == (i !in stuck)
      ensures fs.image == if ok then Erased(old(fs.image),
                SectorStart(sectors.sizes, i) - SectorStart(sectors.sizes, first),
                SectorStart(sectors.sizes, i + 1) - SectorStart(sectors.sizes, first))
                          else old(fs.image)
    {
      ok := i !in stuck;
      if ok {
        var base := SectorStart(sectors.sizes, first);
        fs.image := Erased(fs.image, SectorStart(sectors.sizes, i) - base, SectorStart(sectors.sizes, i + 1) - base);
      }
    }

    /** The loop over the sectors. */
    method EraseUpTo(sectLast: nat) returns (ok: bool)
      requires Valid() && first <= sectLast < |sectors.sizes|
      modifies fs`image
      ensures Valid() && (ok <==> NoneStuck(sectLast))
      ensures ok ==> fs.image == Erased(old(fs.image), 0,
                SectorStart(sectors.sizes, sectLast + 1) - SectorStart(sectors.sizes, first))
    {
      hide SectorStart, Total;
      var sectFirst := first;
      ghost var base := SectorStart(sectors.sizes, first);
      ghost var was := fs.image;
      while sectFirst <= sectLast
        invariant first <= sectFirst <= sectLast + 1 && Valid()
        invariant forall i: nat :: first <= i < sectFirst ==> i !in stuck
        invariant fs.image == Erased(was, 0, SectorStart(sectors.sizes, sectFirst) - base)
        decreases sectLast - sectFirst
      {
        StartsGrow(sectors.sizes, first, sectFirst);
        StartsGrow(sectors.sizes, sectFirst, sectFirst + 1);
        ok := EraseSector(sectFirst);
        sectFirst := sectFirst + 1;
        if !ok { return; }
      }
      ok := true;
    }

    /** wofs_format: from a file system in order, it succeeds exactly if no sector from the first to the one that holds
        the end marker fails, and then the whole area is erased, also behind that sector. */
    method Format() returns (ok: bool, ghost last: nat)
      requires Valid() && fs.Valid() && !fs.writing
      modifies fs`image
      ensures Valid() && Last(last) && (ok <==> NoneStuck(last))
      ensures ok ==> LogOk(fs.image, []) && Blank(fs.image, 0, |fs.image|)
    {
      hide SectorStart, Total, LogOk, Blank, Folded, ImageOk, TableOk, Unique, Used, Absent, NoneStuck, End, StartAt,
           NextAt, DataAt, DelAt, Align;
      InOrder(fs);
      var address, sectFirst := sectors.FirstFree();
      SameFirst(sectors.sizes, sectors.used, first, sectFirst);
      OnlyGoodNames(fs.image, fs.recs);
      var found, _, _, end, k := fs.OpenFile([1]);
      ghost var was := fs.image;
      Inside(sectors.sizes, first, end, |was|);
      var sectLast, _, _ := sectors.FindSector(end + address);
      BehindFirst(sectors.sizes, first, sectLast, SectorStart(sectors.sizes, first) + end);
      last := sectLast;
      assert Last(last);
      ok := EraseUpTo(sectLast);
      if ok { AllErased(was, end, SectorStart(sectors.sizes, sectLast + 1) - SectorStart(sectors.sizes, first)); }
    }

    lemma OneLast(k: nat)
      requires Valid() && Last(k)
      ensures forall j: nat :: Last(j) ==> j == k
    {
      forall j: nat | Last(j)
        ensures j == k
      {
        WithinOne(sectors.sizes, j, k, SectorStart(sectors.sizes, first) + End(fs.recs));
      }
    }
  }

  lemma SameFirst(sizes: seq<nat>, used: nat, i: nat, j: nat)
    requires i <= |sizes| && j <= |sizes| && used <= SectorStart(sizes, i) && used <= SectorStart(sizes, j)
    requires (forall k :: 0 <= k < i ==> SectorStart(sizes, k) < used)
             && (forall k :: 0 <= k < j ==> SectorStart(sizes, k) < used)
    ensures i == j
  {
  }

  lemma BehindFirst(sizes: seq<nat>, first: nat, i: nat, address: nat)
    requires first <= |sizes| && i < |sizes| && Within(sizes, i, address) && SectorStart(sizes, first) <= address
    ensures first <= i && address < SectorStart(sizes, i + 1)
  {
    if i < first { StartsGrow(sizes, i + 1, first); }
  }

  lemma InOrder(fs: Fs)
    requires fs.Valid() && !fs.writing
    ensures LogOk(fs.image, fs.recs) && End(fs.recs) + ROMFS_ALIGN <= |fs.image| && |fs.image| % ROMFS_ALIGN == 0
    ensures Blank(fs.image, End(fs.recs), |fs.image| - End(fs.recs))
  {
  }

  lemma Inside(sizes: seq<nat>, first: nat, last: nat, length: nat)
    requires first <= |sizes| && length == Total(sizes) - SectorStart(sizes, first) && last < length
    ensures SectorStart(sizes, first) + last < Total(sizes)
  {
  }

  lemma AllErased(was: seq<byte>, last: nat, upTo: int)
    requires |was| % ROMFS_ALIGN == 0 && last + ROMFS_ALIGN <= |was| && Blank(was, last, |was| - last) && last < upTo
    ensures LogOk(Erased(was, 0, upTo), []) && Blank(Erased(was, 0, upTo), 0, |was|)
  {
  }
}
