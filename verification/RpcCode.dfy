/** The printer and the parser as they run: an advancing position in a byte buffer and an error flag. */
module RpcCode {
  import opened Bytes
  import opened Rpc
  import opened RpcParser

  // ---- printing ----

  /** The bytes bs were written at p, and nothing else. */
  ghost predicate Wrote(was: seq<byte>, now: seq<byte>, p: nat, bs: seq<byte>) {
    p + |bs| <= |was| && now == was[..p] + bs + was[p + |bs|..]
  }

  lemma WroteTwice(a: seq<byte>, b: seq<byte>, c: seq<byte>, p: nat, x: seq<byte>, y: seq<byte>)
    requires Wrote(a, b, p, x) && Wrote(b, c, p + |x|, y)
    ensures Wrote(a, c, p, x + y)
  {
    assert b[..p + |x|] == a[..p] + x;
    assert b[p + |x| + |y|..] == a[p + |x| + |y|..];
  }

  /** memcpy. */
  method Copy(buf: array<byte>, p: nat, bs: seq<byte>)
    requires p + |bs| <= buf.Length
    modifies buf
    ensures Wrote(old(buf[..]), buf[..], p, bs)
  {
    var i := 0;
    ghost var was := buf[..];
    while i < |bs|
      invariant 0 <= i <= |bs|
      invariant forall j :: 0 <= j < buf.Length ==> buf[j] == if p <= j < p + i then bs[j - p] else was[j]
    {
      buf[p + i] := bs[i];
      i := i + 1;
    }
  }

  method PutByte(buf: array<byte>, p0: nat, v: byte) returns (p: nat)
    requires p0 < buf.Length
    modifies buf
    ensures p == p0 + 1 && Wrote(old(buf[..]), buf[..], p0, [v])
  {
    p := p0;
    buf[p] := v;
    p := p + 1;
  }

  method WriteU8(buf: array<byte>, p0: nat, v: byte) returns (p: nat)
    requires p0 + 2 <= buf.Length
    modifies buf
    ensures p == p0 + 2 && Wrote(old(buf[..]), buf[..], p0, [TYPE_INT_8, v])
  {
    p := p0;
    buf[p] := TYPE_INT_8;
    buf[p + 1] := v;
    p := p + 2;
  }

  method WriteOpId(buf: array<byte>, p0: nat, v: byte) returns (p: nat)
    requires p0 + 2 <= buf.Length
    modifies buf
    ensures p == p0 + 2 && Wrote(old(buf[..]), buf[..], p0, [TYPE_OP_ID, v])
  {
    p := p0;
    buf[p] := TYPE_OP_ID;
    buf[p + 1] := v;
    p := p + 2;
  }

  method WriteU16(buf: array<byte>, p0: nat, v: u16) returns (p: nat)
    requires p0 + 3 <= buf.Length
    modifies buf
    ensures p == p0 + 3 && Wrote(old(buf[..]), buf[..], p0, [TYPE_INT_16] + Bytes16(v))
  {
    p := p0;
    buf[p] := TYPE_INT_16;
    buf[p + 1] := v % 256;
    buf[p + 2] := v / 256 % 256;
    p := p + 3;
  }

  method WriteU32(buf: array<byte>, p0: nat, v: u32) returns (p: nat)
    requires p0 + 5 <= buf.Length
    modifies buf
    ensures p == p0 + 5 && Wrote(old(buf[..]), buf[..], p0, [TYPE_INT_32] + Bytes32(v))
  {
    p := p0;
    buf[p] := TYPE_INT_32;
    buf[p + 1] := v % 256;
    buf[p + 2] := v / 256 % 256;
    buf[p + 3] := v / 0x1_0000 % 256;
    buf[p + 4] := v / 0x100_0000 % 256;
    p := p + 5;
  }

  method WritePtr(buf: array<byte>, p0: nat, src: seq<byte>) returns (p: nat)
    requires |src| < TWO_32 && p0 + PTR_HEADER_SIZE + |src| <= buf.Length
    modifies buf
    ensures p == p0 + PTR_HEADER_SIZE + |src|
            && Wrote(old(buf[..]), buf[..], p0, [TYPE_PTR, TYPE_INT_32] + Bytes32(|src|) + src)
  {
    p := p0;
    ghost var m0 := buf[..];
    buf[p] := TYPE_PTR;
    p := p + 1;
    ghost var m1 := buf[..];
    p := WriteU32(buf, p, |src|);
    ghost var m2 := buf[..];
    Copy(buf, p, src);
    p := p + |src|;
    WroteTwice(m0, m1, m2, p0, [TYPE_PTR], [TYPE_INT_32] + Bytes32(|src|));
    assert [TYPE_PTR] + ([TYPE_INT_32] + Bytes32(|src|)) == [TYPE_PTR, TYPE_INT_32] + Bytes32(|src|);
    WroteTwice(m0, m2, buf[..], p0, [TYPE_PTR, TYPE_INT_32] + Bytes32(|src|), src);
  }

  method WriteSmallPtr(buf: array<byte>, p0: nat, src: seq<byte>) returns (p: nat)
    requires |src| < TWO_16 && p0 + SMALL_PTR_HEADER_SIZE + |src| <= buf.Length
    modifies buf
    ensures p == p0 + SMALL_PTR_HEADER_SIZE + |src|
            && Wrote(old(buf[..]), buf[..], p0, [TYPE_SMALL_PTR, TYPE_INT_16] + Bytes16(|src|) + src)
  {
    p := p0;
    ghost var m0 := buf[..];
    buf[p] := TYPE_SMALL_PTR;
    p := p + 1;
    ghost var m1 := buf[..];
    p := WriteU16(buf, p, |src|);
    ghost var m2 := buf[..];
    Copy(buf, p, src);
    p := p + |src|;
    WroteTwice(m0, m1, m2, p0, [TYPE_SMALL_PTR], [TYPE_INT_16] + Bytes16(|src|));
    assert [TYPE_SMALL_PTR] + ([TYPE_INT_16] + Bytes16(|src|)) == [TYPE_SMALL_PTR, TYPE_INT_16] + Bytes16(|src|);
    WroteTwice(m0, m2, buf[..], p0, [TYPE_SMALL_PTR, TYPE_INT_16] + Bytes16(|src|), src);
  }

  method WriteArg(buf: array<byte>, p0: nat, a: Arg) returns (p: nat)
    requires Fits(a) && p0 + |Printed(a)| <= buf.Length
    modifies buf
    ensures p == p0 + |Printed(a)| && Wrote(old(buf[..]), buf[..], p0, Printed(a))
  {
    match a
    case Op(id) => p := WriteOpId(buf, p0, id);
    case Res(id) =>
      buf[p0] := ResponseTag(id);
      p := p0 + 1;
    case U8(b) => p := WriteU8(buf, p0, b);
    case U16(h) => p := WriteU16(buf, p0, h);
    case U32(l) => p := WriteU32(buf, p0, l);
    case S32(i) => p := WriteU32(buf, p0, Unsigned(i));
    case Ptr(data) => p := WritePtr(buf, p0, data);
    case SmallPtr(data) => p := WriteSmallPtr(buf, p0, data);
  }

  /** A type mark followed by a number. */
  lemma WroteMark(m0: seq<byte>, m1: seq<byte>, m2: seq<byte>, p: nat, t: byte, n: u32)
    requires Wrote(m0, m1, p, [t]) && Wrote(m1, m2, p + 1, [TYPE_INT_32] + Bytes32(n))
    ensures Wrote(m0, m2, p, [t, TYPE_INT_32] + Bytes32(n))
  {
    hide Wrote, Bytes32;
    WroteTwice(m0, m1, m2, p, [t], [TYPE_INT_32] + Bytes32(n));
    assert [t] + ([TYPE_INT_32] + Bytes32(n)) == [t, TYPE_INT_32] + Bytes32(n);
  }

  lemma WroteSize(m0: seq<byte>, m1: seq<byte>, m2: seq<byte>, p: nat, n: nat)
    requires Wrote(m0, m1, p, [TYPE_PKT_SIZE]) && Wrote(m1, m2, p + 1, [TYPE_INT_16] + Bytes16(n % TWO_16))
    ensures Wrote(m0, m2, p, SizeMark(n))
  {
    hide Wrote, Bytes16;
    Bytes16Wrap(n);
    WroteTwice(m0, m1, m2, p, [TYPE_PKT_SIZE], [TYPE_INT_16] + Bytes16(n));
    assert [TYPE_PKT_SIZE] + ([TYPE_INT_16] + Bytes16(n)) == SizeMark(n);
  }

  method StartPacket(buf: array<byte>, packetPtr: nat) returns (p: nat)
    requires packetPtr + START_OFFSET + 6 <= buf.Length
    modifies buf
    ensures p == packetPtr + START_OFFSET + 6 && Wrote(old(buf[..]), buf[..], packetPtr + START_OFFSET, StartMark())
  {
    hide Wrote, Bytes32;
    ghost var m0 := buf[..];
    p := PutByte(buf, packetPtr + START_OFFSET, TYPE_START);
    ghost var m1 := buf[..];
    p := WriteU32(buf, p, PACKET_SIG);
    WroteMark(m0, m1, buf[..], packetPtr + START_OFFSET, TYPE_START, PACKET_SIG);
  }

  /** The end mark was written at p0, and then the size at the front. */
  ghost predicate Ended(was: seq<byte>, now: seq<byte>, p0: nat, packetPtr: nat) {
    && packetPtr <= p0
    && exists m: seq<byte> ::
         Wrote(was, m, p0, EndMark()) && Wrote(m, now, packetPtr, SizeMark(p0 + 6 - packetPtr))
  }

  /** The end mark behind the arguments. */
  method PutEndMark(buf: array<byte>, p0: nat) returns (p: nat)
    requires p0 + 6 <= buf.Length
    modifies buf
    ensures p == p0 + 6 && Wrote(old(buf[..]), buf[..], p0, EndMark())
  {
    hide Wrote, Bytes32;
    ghost var m0 := buf[..];
    p := PutByte(buf, p0, TYPE_END);
    ghost var m1 := buf[..];
    p := WriteU32(buf, p, NOT_PACKET_SIG);
    WroteMark(m0, m1, buf[..], p0, TYPE_END, NOT_PACKET_SIG);
  }

  /** The length of the packet at its start. */
  method PutSize(buf: array<byte>, packetPtr: nat, n: nat) returns (p: nat)
    requires packetPtr + START_OFFSET <= buf.Length
    modifies buf
    ensures p == packetPtr + 1 && Wrote(old(buf[..]), buf[..], packetPtr, SizeMark(n))
  {
    hide Wrote, Bytes16, SizeMark;
    ghost var m0 := buf[..];
    p := PutByte(buf, packetPtr, TYPE_PKT_SIZE);
    ghost var m1 := buf[..];
    var _ := WriteU16(buf, p, n % TWO_16);
    WroteSize(m0, m1, buf[..], packetPtr, n);
  }

  method EndPacket(buf: array<byte>, packetPtr: nat, p0: nat) returns (p: nat)
    requires p0 + 6 <= buf.Length && packetPtr + START_OFFSET <= p0
    modifies buf
    ensures p == packetPtr + 1 && Ended(old(buf[..]), buf[..], p0, packetPtr)
  {
    hide Wrote, SizeMark, EndMark;
    p := PutEndMark(buf, p0);
    p := PutSize(buf, packetPtr, p - packetPtr);
  }

  function StartMark(): seq<byte> { [TYPE_START, TYPE_INT_32] + Bytes32(PACKET_SIG) }

  function EndMark(): seq<byte> { [TYPE_END, TYPE_INT_32] + Bytes32(NOT_PACKET_SIG) }

  function SizeMark(n: nat): seq<byte> { [TYPE_PKT_SIZE, TYPE_INT_16] + Bytes16(n) }

  lemma Bytes16Wrap(n: nat)
    ensures Bytes16(n % TWO_16) == Bytes16(n)
  {
    var q, r := n / TWO_16, n % TWO_16;
    assert n == 256 * (256 * q) + r && r == 256 * (r / 256) + r % 256;
    assert n / 256 == 256 * q + r / 256;
  }

  /** eluarpc_gen_write puts the packet at the beginning of the buffer. */
  method GenWrite(buf: array<byte>, args: seq<Arg>)
    requires AllFit(args) && |Packet(args)| <= buf.Length
    modifies buf
    ensures Wrote(old(buf[..]), buf[..], 0, Packet(args))
  {
    hide Wrote, Body, Printed, StartMark, EndMark, Ended, Fits, Packet, Marked;
    ghost var m0 := buf[..];
    MarkedParts(args);
    var p := StartPacket(buf, 0);
    ghost var done := StartMark();
    var i := 0;
    BodyFrom(args, 0);
    while i < |args|
      invariant 0 <= i <= |args| && p == START_OFFSET + |done|
      invariant Wrote(m0, buf[..], START_OFFSET, done)
      invariant done + Body(args[i..]) == StartMark() + Body(args)
    {
      ghost var m1 := buf[..];
      BodyFrom(args, i);
      p := WriteArg(buf, p, args[i]);
      WroteTwice(m0, m1, buf[..], START_OFFSET, done, Printed(args[i]));
      assert done + (Printed(args[i]) + Body(args[i + 1..])) == (done + Printed(args[i])) + Body(args[i + 1..]);
      done := done + Printed(args[i]);
      i := i + 1;
    }
    BodyFrom(args, i);
    assert done + [] == done;
    ghost var m2 := buf[..];
    var _ := EndPacket(buf, 0, p);
    Finished(m0, m2, buf[..], args, p);
  }

  /** The parts of a packet and their lengths. */
  lemma MarkedParts(args: seq<Arg>)
    requires AllFit(args)
    ensures Marked(args) == StartMark() + Body(args) + EndMark() && |StartMark()| == 6 && |EndMark()| == 6
    ensures |Packet(args)| == START_OFFSET + |Marked(args)|
            && Packet(args) == SizeMark(START_OFFSET + |Marked(args)|) + Marked(args)
    ensures |SizeMark(START_OFFSET + |Marked(args)|)| == 4
  {
    hide Body;
    assert Marked(args) == StartMark() + Body(args) + EndMark();
  }

  lemma BodyFrom(args: seq<Arg>, i: nat)
    requires AllFit(args) && i <= |args|
    ensures AllFit(args[i..]) && |Body(args[i..])| >= 0
    ensures i == 0 ==> args[i..] == args
    ensures i == |args| ==> Body(args[i..]) == []
    ensures i < |args| ==>
              Fits(args[i]) && AllFit(args[i + 1..]) && Body(args[i..]) == Printed(args[i]) + Body(args[i + 1..])
  {
    hide Printed;
    if i < |args| {
      assert args[i..] == [args[i]] + args[i + 1..];
      assert AllFit(args[i + 1..]);
      BodyCons(args[i], args[i + 1..]);
    }
  }

  /** The two parts of a packet, one behind the other. */
  lemma PartsMake(m0: seq<byte>, m: seq<byte>, m4: seq<byte>, size: seq<byte>, rest: seq<byte>)
    requires |size| == 4 && Wrote(m0, m, 4, rest) && Wrote(m, m4, 0, size)
    ensures Wrote(m0, m4, 0, size + rest)
  {
    assert m[4..] == rest + m0[4 + |rest|..];
    assert m4 == m[..0] + size + m[4..];
    assert m4 == size + rest + m0[4 + |rest|..];
  }

  lemma Finished(m0: seq<byte>, m2: seq<byte>, m4: seq<byte>, args: seq<Arg>, p: nat)
    requires AllFit(args) && p == START_OFFSET + |StartMark() + Body(args)|
             && Wrote(m0, m2, START_OFFSET, StartMark() + Body(args))
    requires Ended(m2, m4, p, 0)
    ensures Wrote(m0, m4, 0, Packet(args))
  {
    hide StartMark, EndMark, SizeMark, Body, Marked, Wrote, AllFit;
    MarkedParts(args);
    var m :| Wrote(m2, m, p, EndMark()) && Wrote(m, m4, 0, SizeMark(p + 6));
    WroteTwice(m0, m2, m, START_OFFSET, StartMark() + Body(args), EndMark());
    SizeOfMark(p + 6);
    PartsMake(m0, m, m4, SizeMark(p + 6), Marked(args));
  }

  lemma SizeOfMark(n: nat)
    ensures |SizeMark(n)| == 4
  {
  }
}
