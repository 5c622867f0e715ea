/** The write-once file system: open, read, write, seek, close and directory scans over its flash image. */
module Wofs {
  import opened Bytes
  import opened WofsLog
  import opened WofsFiles

  const TOTAL_MAX_FDS := 8
  const EMPTY_FIELD := 0xFFFF_FFFF

  datatype FD = FD(baseaddr: nat, offset: nat, size: nat, read: bool, write: bool, append: bool)

  const EMPTY_FD := FD(EMPTY_FIELD, EMPTY_FIELD, EMPTY_FIELD, false, false, false)

  datatype Flags = Flags(wronly: bool, rdwr: bool, append: bool, creat: bool, trunc: bool, excl: bool)

  datatype Errno = ENFILE | EEXIST | EACCES | EROFS | ENOSPC | ENOENT | EINVAL | EBADF

  datatype OpenResult = Opened(fd: nat) | OpenFailed(errno: Errno)

  /** The file open for writing, if there is one. */
  datatype Writer = NoWriter | Writing(fd: nat, name: seq<byte>, data: seq<byte>)

  predicate IsEmpty(f: FD) { f.baseaddr == EMPTY_FIELD && f.offset == EMPTY_FIELD && f.size == EMPTY_FIELD }

  function Used(t: seq<FD>): nat {
    if t == [] then 0 else Used(t[..|t| - 1]) + if IsEmpty(t[|t| - 1]) then 0 else 1
  }

  lemma {:induction false} UsedChange(t: seq<FD>, i: nat, f: FD)
    requires i < |t|
    ensures Used(t[i := f]) == Used(t) - (if IsEmpty(t[i]) then 0 else 1) + (if IsEmpty(f) then 0 else 1)
  {
    var n := |t| - 1;
    if i < n {
      assert t[i := f][..n] == t[..n][i := f];
      UsedChange(t[..n], i, f);
    } else {
      assert t[i := f][..n] == t[..n];
    }
  }

  lemma {:induction false} UsedAll(t: seq<FD>)
    ensures Used(t) <= |t|
    ensures Used(t) == |t| ==> forall i :: 0 <= i < |t| ==> !IsEmpty(t[i])
    ensures (forall i :: 0 <= i < |t| ==> !IsEmpty(t[i])) ==> Used(t) == |t|
  {
    if t != [] { UsedAll(t[..|t| - 1]); }
  }

  // ---- what descriptors stand for ----

  /** A descriptor open for reading stands for a record, live or not. */
  ghost predicate Reads(f: FD, recs: seq<Record>, k: nat) {
    && k < |recs| && f.baseaddr == DataAt(StartAt(recs, k), recs[k].name) && f.size == |recs[k].data|
    && f.offset <= f.size
    && f.read && !f.write && !f.append
  }

  ghost predicate Writes(f: FD, recs: seq<Record>, name: seq<byte>, data: seq<byte>) {
    f.baseaddr == DataAt(End(recs), name) && f.size == |data| && f.offset <= f.size && (f.write || f.append)
  }

  ghost predicate TableOk(t: seq<FD>, recs: seq<Record>, owner: map<nat, nat>, w: Writer) {
    && |t| == TOTAL_MAX_FDS && (w.Writing? ==> w.fd < TOTAL_MAX_FDS && Writes(t[w.fd], recs, w.name, w.data))
    && forall i :: 0 <= i < TOTAL_MAX_FDS ==>
         if IsEmpty(t[i]) then t[i] == EMPTY_FD
         else (w.Writing? && i == w.fd) || (i in owner && Reads(t[i], recs, owner[i]))
  }

  ghost predicate ImageOk(img: seq<byte>, recs: seq<Record>, w: Writer) {
    && |img| < EMPTY_FIELD
    && match w
       case NoWriter => LogOk(img, recs)
       case Writing(_, name, data) => WritingOk(img, recs, name, data) && Absent(recs, Folded(name))
  }

  /** Records keep their contents, so a file open for reading keeps its contents even when it is deleted. */
  ghost predicate SameContents(recs: seq<Record>, recs': seq<Record>) {
    |recs| <= |recs'| && forall k :: 0 <= k < |recs| ==> recs'[k].name == recs[k].name && recs'[k].data == recs[k].data
  }

  /** Positions and contents of records do not change when a record is deleted or added. */
  lemma ReadsKept(f: FD, recs: seq<Record>, recs': seq<Record>, k: nat)
    requires Reads(f, recs, k) && |recs| <= |recs'| && forall j :: 0 <= j < |recs| ==>
               recs'[j].name == recs[j].name && recs'[j].data == recs[j].data
    ensures Reads(f, recs', k)
  {
    SamePositions(recs, recs', k);
  }

  /** The length of a write of n bytes at the address at, on a device of max bytes. */
  function Clamp(at: nat, n: nat, max: nat): int {
    if (at + n) % TWO_32 > max - ROMFS_ALIGN then max - at - ROMFS_ALIGN else n
  }

  /** The end of the write does not wrap around, or it wraps around to an address near the end of the device. */
  predicate ClampRight(at: nat, n: nat, max: nat) { at + n < TWO_32 || at + n - TWO_32 > max - ROMFS_ALIGN }

  /** What is written ends within the device exactly then, and then it is as much as there is room for. */
  lemma ClampIff(at: nat, n: nat, max: nat)
    requires n < TWO_32 && at + ROMFS_ALIGN <= max < TWO_32
    ensures at + Clamp(at, n, max) <= max - ROMFS_ALIGN <==> ClampRight(at, n, max)
    ensures Clamp(at, n, max) == Min(n, max - at - ROMFS_ALIGN) <==> ClampRight(at, n, max)
  {
    assert (at + n) % TWO_32 == if at + n < TWO_32 then at + n else at + n - TWO_32;
  }

  /** A length near 2^32 behind 4096 bytes of a device of 64 KB: nothing is cut off. */
  lemma ClampMissed()
    ensures !ClampRight(4096, 0xFFFF_F000, 0x10000) && Clamp(4096, 0xFFFF_F000, 0x10000) == 0xFFFF_F000
  {
  }

  class Fs {
    var image: seq<byte>
    var fdTable: seq<FD>
    var numFd: int
    var writing: bool
    ghost var recs: seq<Record>
    ghost var owner: map<nat, nat>
    ghost var writer: Writer

    ghost predicate Valid()
      reads this
    {
      && ImageOk(image, recs, writer) && Unique(recs) && TableOk(fdTable, recs, owner, writer)
      && numFd == Used(fdTable) && (writing <==> writer.Writing?)
    }

    /** Flash writes go onto erased cells only. */
    method WriteFlash(from: seq<byte>, toaddr: nat)
      requires toaddr + |from| <= |image| && Blank(image, toaddr, |from|)
      modifies this`image
      ensures image == Patch(old(image), toaddr, from)
    {
      image := image[..toaddr] + from + image[toaddr + |from|..];
    }

    constructor (size: nat)
      requires size % ROMFS_ALIGN == 0 && ROMFS_ALIGN <= size < EMPTY_FIELD
      ensures Valid() && recs == [] && |image| == size && writer == NoWriter
    {
      image := seq(size, _ => ERASED);
      fdTable := seq(TOTAL_MAX_FDS, _ => EMPTY_FD);
      numFd := 0;
      writing := false;
      recs := [];
      owner := map[];
      writer := NoWriter;
      new;
      NoneUsed(fdTable);
    }

    // ---- romfs_open_file ----

    /** The characters of the name at i, up to its end. */
    method ReadName(i: nat, ghost name: seq<byte>) returns (fsname: seq<byte>)
      requires i + |name| < |image| && image[i..i + |name|] == name && image[i + |name|] == 0 && 0 !in name
               && |name| <= DM_MAX_FNAME_LENGTH
      ensures fsname == name
    {
      fsname := [];
      var j := 0;
      while j < DM_MAX_FNAME_LENGTH
        invariant j == |fsname| <= |name| && fsname == name[..j]
      {
        assert j < |name| ==> image[i + j] == name[j];
        if image[i + j] == 0 {
          break;
        }
        fsname := fsname + [image[i + j]];
        j := j + 1;
      }
    }

    method OpenFile(fname: seq<byte>) returns (found: bool, baseaddr: nat, size: nat, last: nat, ghost k: nat)
      requires LogOk(image, recs)
      ensures if found then k < |recs| && !recs[k].deleted && Folded(recs[k].name) == Folded(fname)
                            && baseaddr == DataAt(StartAt(recs, k), recs[k].name) && size == |recs[k].data|
              else last == End(recs) && Absent(recs, Folded(fname))
    {
      hide DataAt, DelAt, NextAt, StartAt, Align, Folded, LogOk, Le32;
      found, baseaddr, size, last := false, 0, 0, 0;
      var i := 0;
      k := 0;
      StartOf(recs);
      while true
        invariant k <= |recs| && i == StartAt(recs, k) && !found
        invariant forall j :: 0 <= j < k && !recs[j].deleted ==> Folded(recs[j].name) != Folded(fname)
        decreases |recs| - k
      {
        Scan(image, recs, k);
        if image[i] == ERASED {
          assert k == |recs|;
          last := i;
          return;
        }
        var fsname := ReadName(i, recs[k].name);
        var j := i + |fsname| + 1;
        j := Align(j);
        var isDeleted := image[j] == WOFS_FILE_DELETED;
        j := j + WOFS_DEL_FIELD_SIZE;
        var fsize := Le32(image, j);
        j := j + ROMFS_SIZE_LEN;
        if Folded(fname) == Folded(fsname) && !isDeleted {
          found, baseaddr, size := true, j, fsize;
          return;
        }
        i := Align(j + fsize);
        k := k + 1;
      }
    }

    method FindEmptyFd() returns (i: int)
      requires |fdTable| == TOTAL_MAX_FDS
      ensures -1 <= i < TOTAL_MAX_FDS && (i >= 0 ==> IsEmpty(fdTable[i])) && (i < 0 ==> Used(fdTable) == TOTAL_MAX_FDS)
    {
      i := 0;
      while i < TOTAL_MAX_FDS
        invariant 0 <= i <= TOTAL_MAX_FDS && forall j :: 0 <= j < i ==> !IsEmpty(fdTable[j])
      {
        if IsEmpty(fdTable[i]) {
          return;
        }
        i := i + 1;
      }
      UsedAll(fdTable);
      i := -1;
    }

    // ---- romfs_open_r ----

    /** Puts a descriptor into the first free place. */
    method Occupy(i: nat, f: FD)
      requires i < |fdTable| == TOTAL_MAX_FDS && IsEmpty(fdTable[i]) && !IsEmpty(f) && numFd == Used(fdTable)
      modifies this`fdTable, this`numFd
      ensures fdTable == old(fdTable)[i := f] && numFd == Used(fdTable) == old(numFd) + 1
    {
      UsedChange(fdTable, i, f);
      fdTable := fdTable[i := f];
      numFd := numFd + 1;
    }

    /** The part of an open that makes a new file, in place of the one found if there is one. */
    method Create(path: seq<byte>, flags: Flags, present: bool, baseaddr: nat, ghost k: nat) returns (res: OpenResult)
      requires Valid() && !writing && GoodName(path) && Wants(flags) && numFd < TOTAL_MAX_FDS
      requires if present then k < |recs| && !recs[k].deleted && Folded(recs[k].name) == Folded(path)
               && baseaddr == DataAt(StartAt(recs, k), recs[k].name)
               else Absent(recs, Folded(path))
      modifies this
      ensures Valid() && Files(recs) == Files(old(recs)) - {Folded(path)} && |image| == |old(image)|
              && |recs| == |old(recs)| && End(recs) == End(old(recs))
      ensures SameContents(old(recs), recs) && owner == old(owner)
      ensures res == OpenFailed(ENOSPC) <==> NoSpace(|image|, End(recs), path)
      ensures res == OpenFailed(ENOSPC) ==> !writing && numFd == old(numFd) && fdTable == old(fdTable)
      ensures res != OpenFailed(ENOSPC) ==>
                res.Opened? && numFd == old(numFd) + 1 && old(TOTAL_MAX_FDS == |fdTable| && IsFreeFd(res, fdTable))
                                            && writer == Writing(res.fd, path, [])
      ensures res.Opened? ==>
                && OneMore(old(fdTable), fdTable, res.fd)
                && Mode(fdTable[res.fd], !flags.wronly, flags.wronly || flags.rdwr, flags.append)
    {
      hide LogOk, WritingOk, Reads, Writes, Unique, Absent, Files, Folded, StartAt, DataAt, DelAt, Used, HeaderAt,
           PendingAt;
      ghost var r0 := recs;
      NotThere(recs, Folded(path));
      if present {
        Tombstone(image, recs, k);
        DataIs(StartAt(recs, k), recs[k].name);
        DeletedFiles(recs, k);
        WriteFlash(TOMBSTONE, baseaddr - ROMFS_SIZE_LEN - WOFS_DEL_FIELD_SIZE);
        TableDeleted(fdTable, recs, k, owner);
        recs := Deleted(recs, k);
      }
      OnlyGoodNames(image, recs);
      var found, b, sz, firstfree, kk := OpenFile([1]);
      InLog(image, recs);
      if |image| - firstfree + 1 < |path| + 1 + WOFS_MIN_NEEDED_SIZE + WOFS_DEL_FIELD_SIZE {
        return OpenFailed(ENOSPC);
      }
      var i := FindEmptyFd();
      if i < 0 {
        return OpenFailed(ENFILE);
      }
      RoomForHeader(|image|, firstfree, path);
      Begin(image, recs, path);
      WriteFlash(path + [0], firstfree);
      PathPlace(firstfree, path);
      firstfree := firstfree + |path| + 1;
      firstfree := Align(firstfree);
      firstfree := firstfree + ROMFS_SIZE_LEN + WOFS_DEL_FIELD_SIZE;
      writing := true;
      writer := Writing(i, path, []);
      var f := FD(firstfree, 0, 0, !flags.wronly, flags.wronly || flags.rdwr, flags.append);
      NewWriter(f, recs, path);
      Occupy(i, f);
      res := Opened(i);
    }

    /** The part of an open that gives a file to read. */
    method OpenExisting(baseaddr: nat, size: nat, ghost k: nat) returns (res: OpenResult)
      requires Valid() && !writing && numFd < TOTAL_MAX_FDS && k < |recs|
               && baseaddr == DataAt(StartAt(recs, k), recs[k].name) && size == |recs[k].data|
      modifies this`fdTable, this`numFd, this`owner
      ensures Valid() && |fdTable| == |old(fdTable)| == TOTAL_MAX_FDS && IsFreeFd(res, old(fdTable))
      ensures OneMore(old(fdTable), fdTable, res.fd) && Mode(fdTable[res.fd], true, false, false)
              && numFd == old(numFd) + 1
      ensures owner == old(owner)[res.fd := k]
      ensures fdTable[res.fd].offset == 0 && res.fd in owner && owner[res.fd] == k && Reads(fdTable[res.fd], recs, k)
    {
      hide LogOk, WritingOk, Reads, Writes, Unique, Absent, Files, Folded, StartAt, DataAt, Used;
      UsedAll(fdTable);
      var i := FindEmptyFd();
      if i < 0 {
        return OpenFailed(ENFILE);
      }
      var f := FD(baseaddr, 0, size, true, false, false);
      BaseInImage(image, recs, k);
      NewReader(f, recs, k);
      owner := owner[i := k];
      Occupy(i, f);
      res := Opened(i);
    }

    /** A new file has been begun, empty and open for writing, or there is no space for it. */
    ghost predicate Made(path: seq<byte>, res: OpenResult)
      reads this
    {
      if NoSpace(|image|, End(recs), path) then res == OpenFailed(ENOSPC) && !writing
      else res.Opened? && writing && writer == Writing(res.fd, path, [])
    }

    method Open(path: seq<byte>, flags: Flags) returns (res: OpenResult)
      requires Valid() && !writing && GoodName(path) && (flags.creat ==> Wants(flags))
      modifies this
      ensures Valid() && OpenOk(path, flags, Folded(path) in Files(old(recs)), old(numFd) == TOTAL_MAX_FDS, res)
      ensures Files(recs) == if old(numFd) < TOTAL_MAX_FDS && Makes(flags, Folded(path) in Files(old(recs)))
                             then Files(old(recs)) - {Folded(path)} else Files(old(recs))
      ensures |image| == |old(image)| && End(recs) == End(old(recs))
      ensures res.OpenFailed? ==> !writing && fdTable == old(fdTable) && numFd == old(numFd)
      ensures res.Opened? ==> OneMore(old(fdTable), fdTable, res.fd) && numFd == old(numFd) + 1
                              && Mode(fdTable[res.fd], !flags.wronly, flags.wronly || flags.rdwr, flags.append)
      ensures SameContents(old(recs), recs) && forall i :: i in old(owner) && res != Opened(i) ==>
                i in owner && owner[i] == old(owner)[i]
      // the same by flags: O_CREAT for a new file, O_EXCL, O_TRUNC, other write access, and reading
      ensures old(numFd) < TOTAL_MAX_FDS && Folded(path) !in Files(old(recs)) ==>
                if flags.creat then Made(path, res) && Files(recs) == Files(old(recs))
                else res == OpenFailed(if flags.wronly || flags.rdwr || flags.append then EACCES else ENOENT)
      ensures old(numFd) < TOTAL_MAX_FDS && Folded(path) in Files(old(recs)) ==>
                if flags.creat && flags.excl then res == OpenFailed(EEXIST)
                else if flags.trunc && (flags.wronly || flags.rdwr) then Made(path, res) && Folded(path) !in Files(recs)
                else if flags.wronly || flags.rdwr || flags.append then res == OpenFailed(EACCES)
                else res.Opened? && !writing && IsOpen(res.fd) && View(res.fd) == Files(old(recs))[Folded(path)]
    {
      hide LogOk, WritingOk, Reads, Writes, Unique, Absent, Files, Folded, StartAt, DataAt, Used, TableOk, ImageOk;
      LogNow(image, recs, writer, fdTable, owner);
      if numFd == TOTAL_MAX_FDS {
        return OpenFailed(ENFILE);
      }
      var present, baseaddr, size, firstfree, k := OpenFile(path);
      Presence(recs, path, present, k);
      if flags.creat && flags.excl && present {
        return OpenFailed(EEXIST);
      }
      var mustCreate := MustCreate(flags, present);
      if Wants(flags) && !mustCreate {
        return OpenFailed(EACCES);
      }
      if Wants(flags) && writing {
        return OpenFailed(EROFS);
      }
      if mustCreate {
        res := Create(path, flags, present, baseaddr, k);
      } else {
        if !present {
          return OpenFailed(ENOENT);
        }
        res := OpenExisting(baseaddr, size, k);
      }
    }

    /** What an open answers, and what the descriptor it gives stands for. */
    ghost predicate OpenOk(path: seq<byte>, flags: Flags, present: bool, full: bool, res: OpenResult)
      reads this
    {
      if full then res == OpenFailed(ENFILE)
      else if flags.creat && flags.excl && present then res == OpenFailed(EEXIST)
      else if Wants(flags) && !MustCreate(flags, present) then res == OpenFailed(EACCES)
      else if MustCreate(flags, present) then
        if NoSpace(|image|, End(recs), path) then res == OpenFailed(ENOSPC)
        else res.Opened? && writer == Writing(res.fd, path, [])
      else if !present then res == OpenFailed(ENOENT)
      else res.Opened? && writer == NoWriter && res.fd < |fdTable| && fdTable[res.fd].offset == 0
           && res.fd in owner && owner[res.fd] < |recs| && Reads(fdTable[res.fd], recs, owner[res.fd])
           && Folded(path) in Files(recs) && recs[owner[res.fd]].data == Files(recs)[Folded(path)]
    }

    // ---- romfs_write_r, romfs_read_r, romfs_lseek_r, romfs_close_r ----

    predicate IsOpen(fd: nat)
      reads this
    {
      fd < |fdTable| && !IsEmpty(fdTable[fd])
    }

    ghost predicate IsWriter(fd: nat)
      reads this
    {
      writer.Writing? && fd == writer.fd
    }

    /** The contents that an open descriptor stands for. */
    ghost function View(fd: nat): seq<byte>
      requires Valid() && IsOpen(fd)
      reads this
    {
      if IsWriter(fd) then writer.data else recs[owner[fd]].data
    }

    /** A write at the end of a file: the length is cut to what is left of the device, see ClampIff. */
    predicate CutRight(fd: nat, n: nat)
      requires fd < |fdTable|
      reads this
    {
      var f := fdTable[fd];
      (f.write || f.append) && (f.append || f.offset == f.size) ==> ClampRight(f.baseaddr + f.size, n, |image|)
    }

    /** The space check: one byte is kept for the end mark and the rest for the alignment. */
    method CutLength(f: FD, n: nat) returns (len: int)
      ensures len == Clamp(f.baseaddr + f.size, n, |image|)
    {
      len := n;
      if (f.baseaddr + f.size + len) % TWO_32 > |image| - ROMFS_ALIGN {
        len := |image| - (f.baseaddr + f.size) - ROMFS_ALIGN;
      }
    }

    method Write(fd: nat, bytes: seq<byte>) returns (len: int)
      requires Valid() && IsOpen(fd) && |bytes| < TWO_32 && CutRight(fd, |bytes|)
      modifies this`image, this`fdTable, this`writer
      ensures Valid() && |image| == |old(image)|
      ensures !old(IsWriter(fd)) ==>
                len == -1 && writer == old(writer) && fdTable == old(fdTable) && image == old(image)
      ensures old(IsWriter(fd)) ==>
                0 <= len <= |bytes| && writer == old(writer).(data := old(writer.data) + bytes[..len])
      ensures old(IsWriter(fd)) ==> len == if old(fdTable[fd].append || fdTable[fd].offset == fdTable[fd].size)
                                          then Min(|bytes|, |image| - ROMFS_ALIGN - (DataAt(End(recs), writer.name)
                                              + |old(writer.data)|)) else 0
      ensures old(IsWriter(fd)) ==> fdTable == if old(fdTable[fd].append || fdTable[fd].offset == fdTable[fd].size)
                                              then old(fdTable)[fd := old(fdTable[fd]).(offset := |writer.data|,
                                                  size := |writer.data|)] else old(fdTable)
    {
      hide ImageOk, TableOk, WritingOk, Reads, Unique, Absent, Files, Folded, StartAt, DataAt, Used, Clamp, ClampRight;
      TableSize(fdTable, recs, owner, writer);
      OpenKind(fdTable, recs, owner, writer, fd);
      var f := fdTable[fd];
      if !f.write && !f.append {
        return -1;
      }
      WriterImage(image, recs, writer);
      PendingFits(image, recs, writer.name, writer.data);
      if f.append {
        f := f.(offset := f.size);
      }
      if f.offset != f.size {
        assert bytes[..0] == [] && writer.data + [] == writer.data;
        return 0;
      }
      ClampIff(f.baseaddr + f.size, |bytes|, |image|);
      len := CutLength(f, |bytes|);
      Extend(image, recs, writer.name, writer.data, bytes[..len]);
      WriteFlash(bytes[..len], f.offset + f.baseaddr);
      f := f.(offset := f.offset + len, size := f.size + len);
      UsedChange(fdTable, fd, f);
      TableWritten(fdTable, recs, owner, writer, f, writer.data + bytes[..len]);
      fdTable := fdTable[fd := f];
      writer := writer.(data := writer.data + bytes[..len]);
    }

    method Read(fd: nat, len: nat) returns (actlen: int, bytes: seq<byte>)
      requires Valid() && IsOpen(fd)
      modifies this`fdTable
      ensures Valid() && |fdTable| == |old(fdTable)| && IsOpen(fd) && View(fd) == old(View(fd))
      ensures !old(fdTable[fd].read) ==> actlen == -1 && bytes == [] && fdTable == old(fdTable)
      ensures old(fdTable[fd].read) ==>
        && actlen == Min(len, |View(fd)| - old(fdTable[fd].offset)) && 0 <= actlen
        && bytes == View(fd)[old(fdTable[fd].offset)..old(fdTable[fd].offset) + actlen]
        && fdTable == old(fdTable)[fd := old(fdTable[fd]).(offset := old(fdTable[fd].offset) + actlen)]
    {
      hide ImageOk, TableOk, Unique, Used;
      TableSize(fdTable, recs, owner, writer);
      var f := fdTable[fd];
      OpenKind(fdTable, recs, owner, writer, fd);
      ContentsThere(image, recs, writer, fdTable, owner, fd);
      actlen := Min(len, f.size - f.offset);
      if !f.read {
        return -1, [];
      }
      SliceOfSlice(image, f.baseaddr, f.size, f.offset, actlen);
      bytes := image[f.offset + f.baseaddr..f.offset + f.baseaddr + actlen];
      TableSeek(image, fdTable, recs, owner, writer, fd, f.offset + actlen);
      fdTable := fdTable[fd := f.(offset := f.offset + actlen)];
    }

    method Lseek(fd: nat, off: int, whence: Whence) returns (newpos: int)
      requires Valid() && IsOpen(fd)
      modifies this`fdTable
      ensures Valid() && |fdTable| == |old(fdTable)|
      ensures newpos == if Target(old(fdTable[fd]), off, whence) <= old(fdTable[fd].size)
                then Target(old(fdTable[fd]), off, whence) else -1
      ensures fdTable == if newpos == -1 then old(fdTable) else old(fdTable)[fd := old(fdTable[fd]).(offset := newpos)]
    {
      hide ImageOk, TableOk, Unique, Used;
      TableSize(fdTable, recs, owner, writer);
      var f := fdTable[fd];
      OpenKind(fdTable, recs, owner, writer, fd);
      ContentsThere(image, recs, writer, fdTable, owner, fd);
      newpos := match whence case SeekSet => off case SeekCur => f.offset + off case SeekEnd => f.size + off;
      newpos := newpos % TWO_32;
      if newpos > f.size {
        return -1;
      }
      TableSeek(image, fdTable, recs, owner, writer, fd, newpos);
      fdTable := fdTable[fd := f.(offset := newpos)];
    }

    /** The size of the file open for writing goes into its erased place. */
    method Seal(f: FD)
      requires Valid() && writing && f == fdTable[writer.fd]
      modifies this`image, this`recs, this`writer, this`writing
      ensures ImageOk(image, recs, writer) && Unique(recs) && writer == NoWriter && !writing && |image| == |old(image)|
      ensures TableOk(fdTable[old(writer).fd := EMPTY_FD], recs, owner, NoWriter)
      ensures recs == old(recs) + [Record(old(writer).name, false, old(writer).data)]
      ensures Files(recs) == Files(old(recs))[Folded(old(writer).name) := old(writer).data]
    {
      hide LogOk, WritingOk, Reads, Unique, Absent, Files, Folded, StartAt, DataAt, DelAt, Used;
      var temp := LeBytes(f.size);
      Finish(image, recs, writer.name, writer.data);
      DataIs(End(recs), writer.name);
      AddedFiles(recs, Record(writer.name, false, writer.data));
      TableAdded(fdTable, recs, owner, writer, Record(writer.name, false, writer.data));
      WriteFlash(temp, f.baseaddr - ROMFS_SIZE_LEN);
      recs := recs + [Record(writer.name, false, writer.data)];
      writer := NoWriter;
      writing := false;
    }

    method Close(fd: nat)
      requires Valid() && IsOpen(fd)
      modifies this
      ensures Valid() && fdTable == old(fdTable)[fd := EMPTY_FD] && numFd == old(numFd) - 1 && |image| == |old(image)|
      ensures if old(IsWriter(fd)) then !writing
              && recs == old(recs) + [Record(old(writer).name, false, old(writer).data)]
                                        && Files(recs) == Files(old(recs))[Folded(old(writer).name) := old(writer).data]
              else recs == old(recs) && writer == old(writer) && image == old(image)
    {
      hide ImageOk, Reads, Writes, Unique, Absent, Files, Folded, StartAt, DataAt, DelAt, Used;
      OpenKind(fdTable, recs, owner, writer, fd);
      UsedChange(fdTable, fd, EMPTY_FD);
      var f := fdTable[fd];
      if f.write || f.append {
        Seal(f);
      }
      fdTable := fdTable[fd := EMPTY_FD];
      numFd := numFd - 1;
    }

    // ---- romfs_readdir_r ----

    /** The next live record from the directory position off, which is where record k begins. */
    method Readdir(off0: nat, ghost k0: nat) returns (ent: Dirent, off: nat, ghost k: nat)
      requires Valid() && !writing && k0 <= |recs| && off0 == StartAt(recs, k0)
      ensures k0 <= k <= |recs| && off == StartAt(recs, k)
      ensures match ent
              case NoEntry => Listing(recs, k0) == []
              case Found(e) => Listing(recs, k0) == [e] + Listing(recs, k)
    {
      hide LogOk, Reads, Unique, Folded, StartAt, DataAt, DelAt, NextAt, Align, Used, TableOk, Le32;
      off := off0;
      k := k0;
      while true
        invariant k0 <= k <= |recs| && off == StartAt(recs, k) && Listing(recs, k) == Listing(recs, k0)
        decreases |recs| - k
      {
        Scan(image, recs, k);
        if image[off] == ERASED {
          return NoEntry, off, k;
        }
        var name := ReadName(off, recs[k].name);
        var pos := off + |name| + 1;
        pos := Align(pos);
        var isDeleted := image[pos] == WOFS_FILE_DELETED;
        pos := pos + WOFS_DEL_FIELD_SIZE;
        var fsize := Le32(image, pos);
        pos := pos + ROMFS_SIZE_LEN;
        pos := pos + fsize;
        pos := Align(pos);
        off := pos;
        k := k + 1;
        if !isDeleted {
          return Found(Entry(name, fsize)), off, k;
        }
      }
    }
  }

  datatype Dirent = NoEntry | Found(entry: Entry)

  function Min(a: int, b: int): int { if a < b then a else b }

  datatype Whence = SeekSet | SeekCur | SeekEnd

  /** The position asked for, in the 32 bits it is computed in. */
  function Target(f: FD, off: int, whence: Whence): nat {
    (off + match whence case SeekSet => 0 case SeekCur => f.offset case SeekEnd => f.size) % TWO_32
  }

  /** A seek counts from the beginning, from the current offset or from the end, and on files below 2^31 bytes it
      succeeds exactly if that is a place in the file. */
  lemma SeekIff(f: FD, off: int, whence: Whence)
    requires f.offset <= f.size < 0x8000_0000 && -0x8000_0000 <= off < 0x8000_0000
    ensures var pos := off + (if whence == SeekCur then f.offset else if whence == SeekEnd then f.size else 0);
            && (Target(f, off, whence) <= f.size <==> 0 <= pos <= f.size)
            && (0 <= pos <= f.size ==> Target(f, off, whence) == pos)
  {
    var pos := off + (if whence == SeekCur then f.offset else if whence == SeekEnd then f.size else 0);
    assert Target(f, off, whence) == pos % TWO_32;
    assert pos < 0 ==> pos % TWO_32 == pos + TWO_32;
  }

  /** An open makes a file unless it must be new and is there. */
  predicate Makes(flags: Flags, present: bool) { MustCreate(flags, present) && !(flags.creat && flags.excl && present) }

  /** A file is made if it is asked for and missing, or there and to be truncated. */
  predicate MustCreate(flags: Flags, present: bool) {
    (flags.creat && !present) || (flags.trunc && (flags.wronly || flags.rdwr) && present)
  }

  predicate Wants(flags: Flags) { flags.wronly || flags.rdwr || flags.append }

  /** A free place was taken, and no other descriptor changed. */
  ghost predicate OneMore(was: seq<FD>, now: seq<FD>, fd: nat) {
    |was| == |now| && fd < |was| && IsEmpty(was[fd]) && forall i :: 0 <= i < |was| && i != fd ==> now[i] == was[i]
  }

  predicate Mode(f: FD, read: bool, write: bool, append: bool) {
    f.read == read && f.write == write && f.append == append }

  predicate IsFreeFd(res: OpenResult, t: seq<FD>)
    requires |t| == TOTAL_MAX_FDS
  {
    res.Opened? && res.fd < TOTAL_MAX_FDS && IsEmpty(t[res.fd])
  }

  /** romfs_open_r's test for enough room. */
  predicate NoSpace(max: nat, last: nat, path: seq<byte>) {
    max - last + 1 < |path| + 1 + WOFS_MIN_NEEDED_SIZE + WOFS_DEL_FIELD_SIZE
  }

  /** An open is refused for lack of space only if not one byte could be written to the file, and otherwise there is
      room for its header and the four bytes that a write leaves. */
  lemma RefusedIfFull(max: nat, last: nat, path: seq<byte>)
    requires max % 4 == 0 && last % 4 == 0
    ensures if NoSpace(max, last, path) then max <= DataAt(last, path) + ROMFS_ALIGN
            else DataAt(last, path) + ROMFS_ALIGN <= max
  {
    AlignFacts(last + |path| + 1);
    RecordSpan(last, Record(path, false, []));
    DataIs(last, path);
    if !NoSpace(max, last, path) { RoomForHeader(max, last, path); }
    hide Align;
  }

  /** A device of 20 bytes with one file "a" of one byte: a truncating open of that file, by Fs.Open, finds no space
      and has deleted it. */
  lemma LostByTruncation() returns (img: seq<byte>, recs: seq<Record>)
    ensures LogOk(img, recs) && Unique(recs) && Folded([97]) in Files(recs) && NoSpace(|img|, End(recs), [97])
    ensures Files(recs) - {Folded([97])} == map[]
  {
    var r := Record([97], false, [7]);
    img, recs := SmallImage(), [r];
    OneRecord(r);
    SmallRecord(r);
    OneFile(r);
    hide Files, RecordAt, StartAt, Folded, DelAt, DataAt, NextAt;
    assert img[16] == img[17] == img[18] == img[19] == ERASED;
  }

  function SmallImage(): seq<byte> {
    [97, 0, ERASED, ERASED, ERASED, ERASED, ERASED, ERASED, 1, 0, 0, 0, 7, ERASED, ERASED, ERASED,
     ERASED, ERASED, ERASED, ERASED]
  }

  lemma SmallRecord(r: Record)
    requires r == Record([97], false, [7])
    ensures RecordAt(SmallImage(), 0, r)
  {
    OneRecord(r);
    hide DelAt, DataAt, NextAt, StartAt;
    var img := SmallImage();
    assert img[0..1] == [97] && img[12..13] == [7];
  }

  lemma OneFile(r: Record)
    requires !r.deleted
    ensures Files([r]) == map[Folded(r.name) := r.data] && Unique([r])
  {
    assert [r][..0] == [];
    assert Files([r][..0]) == map[];
    hide Folded;
  }

  lemma OneRecord(r: Record)
    requires r == Record([97], false, [7])
    ensures DelAt(0, r.name) == 4 && DataAt(0, r.name) == 12 && NextAt(0, r) == 16 && StartAt([r], 0) == 0
            && End([r]) == 16
  {
    assert StartAt([r], 1) == NextAt(StartAt([r], 0), r);
  }

  lemma NoneUsed(t: seq<FD>)
    requires forall i :: 0 <= i < |t| ==> t[i] == EMPTY_FD
    ensures Used(t) == 0
  {
    if t != [] { NoneUsed(t[..|t| - 1]); }
  }

  lemma StartOf(recs: seq<Record>)
    ensures StartAt(recs, 0) == 0
  {
  }

  /** What a scan reads of a record. */
  ghost predicate ScanOk(img: seq<byte>, s: nat, r: Record, next: nat) {
    && s + |r.name| < |img| && img[s..s + |r.name|] == r.name && img[s + |r.name|] == 0 && 0 !in r.name
    && |r.name| <= DM_MAX_FNAME_LENGTH
    && Align(s + |r.name| + 1) == DelAt(s, r.name) && DelAt(s, r.name) + 8 <= |img|
    && DataAt(s, r.name) == DelAt(s, r.name) + 8
    && (img[DelAt(s, r.name)] == WOFS_FILE_DELETED <==> r.deleted) && Le32(img, DelAt(s, r.name) + 4) == |r.data|
    && Align(DataAt(s, r.name) + |r.data|) == next && img[s] != ERASED
  }

  lemma ScanRecord(img: seq<byte>, s: nat, r: Record)
    requires RecordAt(img, s, r)
    ensures ScanOk(img, s, r, NextAt(s, r))
  {
    RecordSpan(s, r);
    hide Align, Le32, Blank;
    assert img[s..s + |r.name|][0] == r.name[0];
  }

  /** What a scan finds at the beginning of record k, or behind the last one. */
  lemma Scan(img: seq<byte>, recs: seq<Record>, k: nat)
    requires LogOk(img, recs) && k <= |recs|
    ensures StartAt(recs, k) < |img| && (k == |recs| ==> img[StartAt(recs, k)] == ERASED)
    ensures k < |recs| ==> ScanOk(img, StartAt(recs, k), recs[k], StartAt(recs, k + 1))
  {
    hide ScanOk, RecordAt, NextAt, DelAt, DataAt, Align, Le32;
    if k < |recs| {
      ScanRecord(img, StartAt(recs, k), recs[k]);
      Starts(recs, k, |recs|);
    }
  }

  lemma NotThere(recs: seq<Record>, f: seq<byte>)
    ensures Absent(recs, f) ==> Files(recs) - {f} == Files(recs)
  {
    FileIn(recs, f);
    hide Files, Absent;
  }

  lemma TableDeleted(t: seq<FD>, recs: seq<Record>, k: nat, owner: map<nat, nat>)
    requires TableOk(t, recs, owner, NoWriter) && k < |recs|
    ensures TableOk(t, Deleted(recs, k), owner, NoWriter)
  {
    hide Reads;
    forall i | 0 <= i < TOTAL_MAX_FDS && !IsEmpty(t[i])
      ensures Reads(t[i], Deleted(recs, k), owner[i])
    {
      ReadsKept(t[i], recs, Deleted(recs, k), owner[i]);
    }
  }

  lemma NotTheNoFile(name: seq<byte>)
    requires GoodName(name)
    ensures Folded(name) != Folded([1])
  {
    assert Folded([1]) == [1];
    assert |Folded(name)| == |name| && Folded(name)[0] == Fold(name[0]);
    assert |name| == 1 ==> name == [name[0]];
  }

  /** No record has the name that stands for no file. */
  lemma OnlyGoodNames(img: seq<byte>, recs: seq<Record>)
    requires LogOk(img, recs)
    ensures forall k :: 0 <= k < |recs| ==> Folded(recs[k].name) != Folded([1])
  {
    hide Folded;
    forall k | 0 <= k < |recs|
      ensures Folded(recs[k].name) != Folded([1])
    {
      assert RecordAt(img, StartAt(recs, k), recs[k]);
      NotTheNoFile(recs[k].name);
    }
  }

  lemma InLog(img: seq<byte>, recs: seq<Record>)
    requires LogOk(img, recs)
    ensures End(recs) + 4 <= |img| && |img| % 4 == 0 && End(recs) % 4 == 0
  {
    Starts(recs, 0, |recs|);
  }

  lemma PathPlace(s: nat, path: seq<byte>)
    ensures Align(s + |path| + 1) + 8 == DataAt(s, path)
  {
  }

  lemma NewWriter(f: FD, recs: seq<Record>, name: seq<byte>)
    requires f.baseaddr == DataAt(End(recs), name) && f.offset == 0 && f.size == 0 && (f.write || f.append)
    ensures Writes(f, recs, name, [])
  {
  }

  lemma Presence(recs: seq<Record>, path: seq<byte>, present: bool, k: nat)
    requires Unique(recs)
    requires if present then k < |recs| && !recs[k].deleted && Folded(recs[k].name) == Folded(path)
               else Absent(recs, Folded(path))
    ensures present <==> Folded(path) in Files(recs)
    ensures present ==> Files(recs)[Folded(path)] == recs[k].data
  {
    hide Folded, Files;
    FileIn(recs, Folded(path));
    if present { FileIs(recs, k); }
  }

  lemma BaseInImage(img: seq<byte>, recs: seq<Record>, k: nat)
    requires LogOk(img, recs) && k < |recs|
    ensures DataAt(StartAt(recs, k), recs[k].name) <= |img|
  {
    assert RecordAt(img, StartAt(recs, k), recs[k]);
    hide DataAt, StartAt, NextAt, DelAt, Blank;
  }

  lemma NewReader(f: FD, recs: seq<Record>, k: nat)
    requires k < |recs| && f.baseaddr == DataAt(StartAt(recs, k), recs[k].name) && f.offset == 0
             && f.size == |recs[k].data| && f.read && !f.write && !f.append
    ensures Reads(f, recs, k)
  {
  }

  lemma LogNow(img: seq<byte>, recs: seq<Record>, w: Writer, t: seq<FD>, owner: map<nat, nat>)
    requires ImageOk(img, recs, w) && TableOk(t, recs, owner, w)
    ensures w == NoWriter ==> LogOk(img, recs)
    ensures |t| == TOTAL_MAX_FDS && Used(t) <= TOTAL_MAX_FDS
  {
    UsedAll(t);
  }

  /** An open descriptor is either the writer's or a reader's. */
  lemma OpenKind(t: seq<FD>, recs: seq<Record>, owner: map<nat, nat>, w: Writer, fd: nat)
    requires TableOk(t, recs, owner, w) && fd < |t| && !IsEmpty(t[fd])
    ensures (w.Writing? && fd == w.fd) <==> (t[fd].write || t[fd].append)
    ensures w.Writing? && fd == w.fd ==> Writes(t[fd], recs, w.name, w.data)
    ensures !(w.Writing? && fd == w.fd) ==> fd in owner && Reads(t[fd], recs, owner[fd])
  {
    hide DataAt, StartAt;
  }

  lemma PendingFits(img: seq<byte>, recs: seq<Record>, name: seq<byte>, data: seq<byte>)
    requires WritingOk(img, recs, name, data)
    ensures DataAt(End(recs), name) + |data| + ROMFS_ALIGN <= |img|
  {
    hide DataAt, StartAt, DelAt, HeaderAt, Blank;
  }

  /** The bytes a descriptor stands for are in the image where it points. */
  lemma ContentsThere(img: seq<byte>, recs: seq<Record>, w: Writer, t: seq<FD>, owner: map<nat, nat>, fd: nat)
    requires ImageOk(img, recs, w) && TableOk(t, recs, owner, w) && fd < |t| && !IsEmpty(t[fd])
    ensures var f := t[fd];
            var v := if w.Writing? && fd == w.fd then w.data else if fd in owner && owner[fd] < |recs|
                then recs[owner[fd]].data else [];
            f.baseaddr + f.size <= |img| && f.size == |v| && img[f.baseaddr..f.baseaddr + f.size] == v
                && f.offset <= f.size
  {
    hide DataAt, StartAt, DelAt, NextAt, HeaderAt, Blank, Le32, TableOk, RecordAt, LogOk, WritingOk;
    OpenKind(t, recs, owner, w, fd);
    if w.Writing? && fd == w.fd {
      PendingThere(img, recs, w.name, w.data);
    } else if w.Writing? {
      RecordIn(img, recs, w.name, w.data, owner[fd]);
      RecordThere(img, StartAt(recs, owner[fd]), recs[owner[fd]]);
    } else {
      RecordInLog(img, recs, owner[fd]);
      RecordThere(img, StartAt(recs, owner[fd]), recs[owner[fd]]);
    }
  }

  lemma PendingThere(img: seq<byte>, recs: seq<Record>, name: seq<byte>, data: seq<byte>)
    requires WritingOk(img, recs, name, data)
    ensures var a := DataAt(End(recs), name); a + |data| <= |img| && img[a..a + |data|] == data
  {
    hide DataAt, StartAt, DelAt, HeaderAt, Blank, RecordAt;
  }

  lemma RecordIn(img: seq<byte>, recs: seq<Record>, name: seq<byte>, data: seq<byte>, k: nat)
    requires WritingOk(img, recs, name, data) && k < |recs|
    ensures RecordAt(img, StartAt(recs, k), recs[k])
  {
    hide DataAt, StartAt, DelAt, PendingAt, Blank, RecordAt;
  }

  lemma RecordInLog(img: seq<byte>, recs: seq<Record>, k: nat)
    requires LogOk(img, recs) && k < |recs|
    ensures RecordAt(img, StartAt(recs, k), recs[k])
  {
    hide DataAt, StartAt, DelAt, Blank, RecordAt;
  }

  lemma RecordThere(img: seq<byte>, s: nat, r: Record)
    requires RecordAt(img, s, r)
    ensures DataAt(s, r.name) + |r.data| <= |img| && img[DataAt(s, r.name)..DataAt(s, r.name) + |r.data|] == r.data
  {
    hide DataAt, DelAt, NextAt, HeaderAt, Le32;
  }

  lemma TableAdded(t: seq<FD>, recs: seq<Record>, owner: map<nat, nat>, w: Writer, r: Record)
    requires TableOk(t, recs, owner, w) && w.Writing?
    ensures TableOk(t[w.fd := EMPTY_FD], recs + [r], owner, NoWriter)
  {
    hide Reads;
    forall i | 0 <= i < TOTAL_MAX_FDS && i != w.fd && !IsEmpty(t[i])
      ensures Reads(t[i], recs + [r], owner[i])
    {
      ReadsKept(t[i], recs, recs + [r], owner[i]);
    }
  }

  lemma SliceOfSlice(img: seq<byte>, a: nat, size: nat, off: nat, n: nat)
    requires a + size <= |img| && off + n <= size
    ensures img[off + a..off + a + n] == img[a..a + size][off..off + n]
  {
    var l, r := img[off + a..off + a + n], img[a..a + size][off..off + n];
    assert |l| == |r| && forall i :: 0 <= i < n ==> l[i] == r[i];
  }

  lemma TableSize(t: seq<FD>, recs: seq<Record>, owner: map<nat, nat>, w: Writer)
    requires TableOk(t, recs, owner, w)
    ensures |t| == TOTAL_MAX_FDS
  {
  }

  lemma WriterImage(img: seq<byte>, recs: seq<Record>, w: Writer)
    requires w.Writing?
    ensures ImageOk(img, recs, w) <==>
              |img| < EMPTY_FIELD && WritingOk(img, recs, w.name, w.data) && Absent(recs, Folded(w.name))
    ensures forall img', data :: |img'| == |img| && ImageOk(img, recs, w) && WritingOk(img', recs, w.name, data) ==>
              ImageOk(img', recs, w.(data := data))
  {
    hide WritingOk, Absent, Folded;
  }

  lemma TableWritten(t: seq<FD>, recs: seq<Record>, owner: map<nat, nat>, w: Writer, f: FD, data: seq<byte>)
    requires TableOk(t, recs, owner, w) && w.Writing? && Writes(f, recs, w.name, data) && !IsEmpty(f)
    ensures w.fd < |t| && TableOk(t[w.fd := f], recs, owner, w.(data := data))
  {
    hide Reads, Writes;
  }

  /** Moving a file position within the file. */
  lemma TableSeek(img: seq<byte>, t: seq<FD>, recs: seq<Record>, owner: map<nat, nat>, w: Writer, fd: nat, off: nat)
    requires ImageOk(img, recs, w) && TableOk(t, recs, owner, w) && fd < |t| && !IsEmpty(t[fd]) && off <= t[fd].size
    ensures var f := t[fd].(offset := off);
            TableOk(t[fd := f], recs, owner, w) && Used(t[fd := f]) == Used(t) && !IsEmpty(f)
  {
    hide ImageOk, Used, DataAt, StartAt, Reads, Writes;
    var f := t[fd].(offset := off);
    ContentsThere(img, recs, w, t, owner, fd);
    ImageSize(img, recs, w);
    UsedChange(t, fd, f);
    if w.Writing? && fd == w.fd { WritesSeek(t[fd], recs, w, off); } else { ReadsSeek(t[fd], recs, owner[fd], off); }
  }

  lemma ImageSize(img: seq<byte>, recs: seq<Record>, w: Writer)
    requires ImageOk(img, recs, w)
    ensures |img| < EMPTY_FIELD
  {
  }

  lemma ReadsSeek(f: FD, recs: seq<Record>, k: nat, off: nat)
    requires Reads(f, recs, k) && off <= f.size
    ensures Reads(f.(offset := off), recs, k)
  {
  }

  lemma WritesSeek(f: FD, recs: seq<Record>, w: Writer, off: nat)
    requires w.Writing? && Writes(f, recs, w.name, w.data) && off <= f.size
    ensures Writes(f.(offset := off), recs, w.name, w.data)
  {
  }
}
