/** The unaligned flash writer: whatever the address and length, only whole aligned units are programmed. */
module FlashWriter {
  import opened Words
  import opened BinMaps
  import opened Masks
  import opened Bytes

  /** Flash with bytes written at a, and nothing else changed. */
  function Written(mem: seq<byte>, a: nat, bytes: seq<byte>): seq<byte>
    requires a + |bytes| <= |mem|
  {
    mem[..a] + bytes + mem[a + |bytes|..]
  }

  class Flash {
    const mem: array<byte>
    /** INTERNAL_FLASH_START_ADDRESS, and the write unit as a power of two. */
    const start: word
    const logUnit: nat

    function Unit(): nat { Pow2(logUnit) }

    ghost predicate Valid() {
      logUnit < 32 && start % Unit() == 0 && mem.Length % Unit() == 0 && start + mem.Length < TWO_32
    }

    /** platform_s_flash_write programs whole units; a cell outside [lo, hi) is only programmed with what it holds. */
    method ProgramUnits(bytes: seq<byte>, toaddr: nat, ghost lo: nat, ghost hi: nat)
      requires Valid() && start <= toaddr && toaddr + |bytes| <= start + mem.Length
      requires toaddr % Unit() == 0 && |bytes| % Unit() == 0
      requires OnlyWithin(mem[..], toaddr - start, bytes, lo - start, hi - start)
      modifies mem
      ensures mem[..] == Written(old(mem[..]), toaddr - start, bytes)
    {
      hide Pow2, Written, OnlyWithin;
      ghost var was := mem[..];
      NoneWritten(was, toaddr - start);
      var i := 0;
      while i < |bytes|
        invariant 0 <= i <= |bytes| && mem[..] == Written(was, toaddr - start, bytes[..i])
      {
        ghost var before := mem[..];
        mem[toaddr - start + i] := bytes[i];
        OneMore(was, toaddr - start, bytes, i);
        assert mem[..] == before[toaddr - start + i := bytes[i]];
        i := i + 1;
      }
      assert bytes[..i] == bytes;
    }

    /** The unit at addr with a part of it replaced: bytes up to the end of the unit or of the data. */
    method PatchedUnit(addr: nat, offset: nat, bytes: seq<byte>) returns (tmp: seq<byte>, count: nat)
      requires start <= addr && addr + Unit() <= start + mem.Length && offset < Unit()
      ensures count == (if |bytes| <= Unit() - offset then |bytes| else Unit() - offset)
      ensures tmp == Written(mem[addr - start..addr - start + Unit()], offset, bytes[..count])
    {
      var unit := Pow2(logUnit);
      tmp := mem[addr - start..addr - start + unit];
      ghost var was := tmp;
      count := 0;
      var i := offset;
      while count < |bytes| && i < unit
        invariant i == offset + count && count <= |bytes| && i <= unit && |tmp| == unit == |was|
        invariant tmp == Written(was, offset, bytes[..count])
      {
        assert bytes[..count + 1] == bytes[..count] + [bytes[count]];
        ghost var before := tmp;
        tmp := tmp[i := bytes[count]];
        i := i + 1;
        count := count + 1;
      }
    }

    /** A part of one unit: the unit is programmed with the rest of it as it was. */
    method WritePart(addr: nat, offset: nat, bytes: seq<byte>, ghost lo: nat, ghost hi: nat) returns (count: nat)
      requires Valid() && start <= addr && addr + Unit() <= start + mem.Length && addr % Unit() == 0 && offset < Unit()
      requires lo <= addr + offset && addr + offset + |bytes| <= hi
      modifies mem
      ensures count == (if |bytes| <= Unit() - offset then |bytes| else Unit() - offset)
      ensures mem[..] == Written(old(mem[..]), addr - start + offset, bytes[..count])
    {
      hide Pow2, Written, OnlyWithin;
      var tmp;
      assert mem[addr - start..addr - start + Unit()] == mem[..][addr - start..addr - start + Unit()];
      tmp, count := PatchedUnit(addr, offset, bytes);
      PartWritten(mem[..], addr - start, Unit(), offset, bytes[..count], lo - start, hi - start);
      UnitMultiple(Unit());
      ProgramUnits(tmp, addr, lo, hi);
    }

    /** The part of the data that begins at an aligned address: whole units, and the beginning of one more. */
    method WriteAligned(bytes: seq<byte>, toaddr: nat, ghost lo: nat, ghost hi: nat)
      requires Valid() && start <= toaddr && toaddr % Unit() == 0 && toaddr + |bytes| <= start + mem.Length
               && lo <= toaddr && toaddr + |bytes| == hi
      modifies mem
      ensures mem[..] == Written(old(mem[..]), toaddr - start, bytes)
    {
      hide Pow2, And, Written, Not;
      var blkmask := Pow2(logUnit) - 1;
      ghost var m0 := mem[..];
      var rest := And(|bytes|, blkmask);
      AndMask(|bytes|, logUnit);
      AlignedDown(|bytes|, logUnit);
      TailBelow(toaddr, |bytes|, start, mem.Length, Unit());
      var whole := And(|bytes|, Not(blkmask));
      NoneWritten(m0, toaddr - start);
      if whole != 0 {
        AllWithin(m0, toaddr - start, bytes[..whole], lo - start, hi - start);
        ProgramUnits(bytes[..whole], toaddr, lo, hi);
      }
      assert whole == 0 ==> bytes[..whole] == [];
      if rest != 0 {
        var count := WritePart(toaddr + whole, 0, bytes[whole..], lo, hi);
        assert bytes[whole..][..count] == bytes[whole..];
      }
      Joined(m0, mem[..], toaddr - start, bytes, whole);
    }

    /** platform_flash_write. */
    method Write(bytes: seq<byte>, toaddr: nat) returns (ssize: nat)
      requires Valid() && start <= toaddr && toaddr + |bytes| <= start + mem.Length
      modifies mem
      ensures ssize == |bytes| && mem[..] == Written(old(mem[..]), toaddr - start, bytes)
    {
      hide Pow2, And, Written, Not;
      ghost var m0 := mem[..];
      var blkmask := Pow2(logUnit) - 1;
      AndMask(toaddr, logUnit);
      AlignedDown(toaddr, logUnit);
      UnitBelow(toaddr, start, mem.Length, Unit());
      ssize := |bytes|;
      var rest := And(toaddr, blkmask);
      if rest != 0 {
        var temp := And(toaddr, Not(blkmask));
        var count := WritePart(temp, rest, bytes, toaddr, toaddr + |bytes|);
        if count == |bytes| {
          assert bytes[..count] == bytes;
          return;
        }
        WriteAligned(bytes[count..], temp + Pow2(logUnit), toaddr, toaddr + |bytes|);
        Joined(m0, mem[..], toaddr - start, bytes, count);
      } else {
        WriteAligned(bytes, toaddr, toaddr, toaddr + |bytes|);
      }
    }
  }

  /** A cell outside [lo, hi) gets what it holds. */
  ghost predicate OnlyWithin(mem: seq<byte>, a: nat, bytes: seq<byte>, lo: int, hi: int) {
    a + |bytes| <= |mem| && forall i :: 0 <= i < |bytes| ==> lo <= a + i < hi || bytes[i] == mem[a + i]
  }

  lemma PartWritten(mem: seq<byte>, a: nat, unit: nat, offset: nat, bs: seq<byte>, lo: int, hi: int)
    requires a + unit <= |mem| && offset + |bs| <= unit && lo <= a + offset && a + offset + |bs| <= hi
    ensures var tmp := Written(mem[a..a + unit], offset, bs);
            |tmp| == unit && OnlyWithin(mem, a, tmp, lo, hi) && Written(mem, a, tmp) == Written(mem, a + offset, bs)
  {
  }

  lemma AllWithin(mem: seq<byte>, a: nat, bs: seq<byte>, lo: int, hi: int)
    requires a + |bs| <= |mem| && lo <= a && a + |bs| <= hi
    ensures OnlyWithin(mem, a, bs, lo, hi)
  {
  }

  lemma OneMore(mem: seq<byte>, a: nat, bytes: seq<byte>, i: nat)
    requires i < |bytes| && a + |bytes| <= |mem|
    ensures |Written(mem, a, bytes[..i])| == |mem|
            && Written(mem, a, bytes[..i])[a + i := bytes[i]] == Written(mem, a, bytes[..i + 1])
  {
    assert bytes[..i + 1] == bytes[..i] + [bytes[i]];
  }

  lemma NoneWritten(mem: seq<byte>, a: nat)
    requires a <= |mem|
    ensures Written(mem, a, []) == mem
  {
  }

  lemma WrittenTwice(mem: seq<byte>, a: nat, x: seq<byte>, y: seq<byte>)
    requires a + |x| + |y| <= |mem|
    ensures |Written(mem, a, x)| == |mem| && Written(Written(mem, a, x), a + |x|, y) == Written(mem, a, x + y)
  {
  }

  /** The data written in two parts. */
  lemma Joined(m0: seq<byte>, m2: seq<byte>, a: nat, bytes: seq<byte>, n: nat)
    requires n <= |bytes| && a + |bytes| <= |m0|
    requires if n == |bytes| then m2 == Written(m0, a, bytes[..n])
             else
               && |Written(m0, a, bytes[..n])| == |m0|
               && m2 == Written(Written(m0, a, bytes[..n]), a + n, bytes[n..])
    ensures m2 == Written(m0, a, bytes)
  {
    hide Written;
    WrittenTwice(m0, a, bytes[..n], bytes[n..]);
    assert bytes[..n] + bytes[n..] == bytes;
    assert n == |bytes| ==> bytes[..n] == bytes;
  }

  lemma UnitMultiple(unit: nat)
    requires unit > 0
    ensures unit % unit == 0
  {
  }

  lemma MultipleOf(q: nat, unit: nat)
    requires unit > 0
    ensures unit * q % unit == 0
  {
    DivUnique(unit * q, unit, q, 0);
    DivMod(unit * q, unit);
  }

  lemma DivMod(x: nat, unit: nat)
    requires unit > 0
    ensures x == unit * (x / unit) + x % unit && x % unit < unit
  {
  }

  lemma Parts(x: nat, unit: nat) returns (q: nat, r: nat)
    requires unit > 0
    ensures x == unit * q + r && r == x % unit < unit && x - r == unit * q && (x - r) % unit == 0
  {
    DivMod(x, unit);
    q, r := x / unit, x % unit;
    MultipleOf(q, unit);
  }

  /** The unit that holds an unaligned address lies within flash whose bounds are aligned. */
  lemma UnitBelow(x: nat, start: nat, length: nat, unit: nat)
    requires unit > 0 && start % unit == 0 && length % unit == 0 && start <= x <= start + length
    ensures var down := x - x % unit;
            && down >= 0 && down % unit == 0 && start <= down
            && (x % unit != 0 ==> down + unit <= start + length && (down + unit) % unit == 0)
  {
    var q, r := Parts(x, unit);
    var s, _ := Parts(start, unit);
    var l, _ := Parts(length, unit);
    BetweenUnits(q, r, s, l, unit);
    MultipleOf(q + 1, unit);
    NextMultiple(q, unit);
  }

  lemma NextMultiple(q: nat, unit: nat)
    ensures unit * (q + 1) == unit * q + unit
  {
  }

  lemma BetweenUnits(q: nat, r: nat, s: nat, l: nat, unit: nat)
    requires r < unit && unit * s <= unit * q + r <= unit * s + unit * l
    ensures unit * s <= unit * q && (r > 0 ==> unit * q + unit <= unit * s + unit * l)
  {
    NextMultiple(q, unit);
    SumMultiple(s, l, unit);
    if s > q { MulMonotone(unit, q + 1, s); }
    if s + l <= q { MulMonotone(unit, s + l, q); } else { MulMonotone(unit, q + 1, s + l); }
  }

  lemma SumMultiple(s: nat, l: nat, unit: nat)
    ensures unit * s + unit * l == unit * (s + l)
  {
  }

  /** The whole units of n bytes at an aligned address, and the unit of what remains. */
  lemma TailBelow(x: nat, n: nat, start: nat, length: nat, unit: nat)
    requires unit > 0 && start % unit == 0 && length % unit == 0 && start <= x && x % unit == 0
             && x + n <= start + length
    ensures var whole := n - n % unit;
            && whole >= 0 && whole % unit == 0 && (x + whole) % unit == 0 && n % unit < unit
            && (n % unit != 0 ==> x + whole + unit <= start + length)
  {
    var q, _ := Parts(x, unit);
    var p, r := Parts(n, unit);
    var s, _ := Parts(start, unit);
    var l, _ := Parts(length, unit);
    SumMultiple(q, p, unit);
    MultipleOf(q + p, unit);
    BetweenUnits(q + p, r, s, l, unit);
  }
}
