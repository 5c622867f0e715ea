/** The parser as it runs: an advancing position in memory and the error flag, which is never cleared on the way. */
module RpcReader {
  import opened Bytes
  import opened Rpc
  import opened RpcParser

  /** What is stored through the caller's pointers stands for an argument. */
  ghost predicate Stands(b: nat -> byte, v: Val, a: Arg) {
    match a
    case Op(_) => v == NoVal
    case Res(_) => v == NoVal
    case U8(x) => v == VU8(x)
    case U16(x) => v == VU16(x)
    case U32(x) => v == VU32(x)
    case S32(x) => v == VS32(x)
    case Ptr(data) => StandsForBlock(b, v, data)
    case SmallPtr(data) => StandsForBlock(b, v, data)
  }

  ghost predicate StandsForBlock(b: nat -> byte, v: Val, data: seq<byte>) {
    if data == [] then v == VNull else v.VPtr? && Slice(b, v.at, v.len) == data
  }

  lemma ValStands(b: nat -> byte, p: nat, f: Fmt)
    ensures Stands(b, ValAt(b, p, f), ArgAt(b, p, f))
  {
    hide Value16, Value32;
  }

  lemma {:induction false} ValsStand(b: nat -> byte, p: nat, fs: seq<Fmt>, i: nat)
    requires i < |fs|
    ensures |ValsAt(b, p, fs)| == |ArgsAt(b, p, fs)| == |fs| && Stands(b, ValsAt(b, p, fs)[i], ArgsAt(b, p, fs)[i])
    decreases |fs|
  {
    hide Stands, Printed, ArgAt, ValAt, AllTagsOk, TagsOk, Body, AllFit;
    Lengths(b, p, fs);
    FirstFmt(b, p, fs);
    var q := p + |Printed(ArgAt(b, p, fs[0]))|;
    if i == 0 {
      ValStands(b, p, fs[0]);
    } else {
      ValsStand(b, q, fs[1..], i - 1);
    }
  }

  /** Reading a printed packet with its own formats succeeds, and what is stored stands for what was printed. */
  lemma ReadBack(b: nat -> byte, args: seq<Arg>)
    requires AllFit(args) && Holds(b, 0, Packet(args))
    ensures PacketOk(b, FmtsOf(args)) && |ValsAt(b, START_OFFSET + 6, FmtsOf(args))| == |args|
    ensures forall i :: 0 <= i < |args| ==> Stands(b, ValsAt(b, START_OFFSET + 6, FmtsOf(args))[i], args[i])
  {
    hide PacketOk, AllFit, Holds, Packet, Stands, ValsAt, ArgsAt;
    RoundTrip(b, args);
    Lengths(b, START_OFFSET + 6, FmtsOf(args));
    forall i | 0 <= i < |args|
      ensures Stands(b, ValsAt(b, START_OFFSET + 6, FmtsOf(args))[i], args[i])
    {
      ValsStand(b, START_OFFSET + 6, FmtsOf(args), i);
    }
  }

  lemma {:induction false} Lengths(b: nat -> byte, p: nat, fs: seq<Fmt>)
    ensures |ValsAt(b, p, fs)| == |ArgsAt(b, p, fs)| == |fs|
    decreases |fs|
  {
    if fs != [] {
      Lengths(b, p + |Printed(ArgAt(b, p, fs[0]))|, fs[1..]);
    }
  }

  class Reader {
    var failed: bool

    constructor ()
      ensures !failed
    {
      failed := false;
    }

    method Expect(b: nat -> byte, p: nat, v: byte) returns (q: nat)
      modifies this
      ensures q == p + 1 && failed == (old(failed) || b(p) != v)
    {
      if b(p) != v { failed := true; }
      q := p + 1;
    }

    method ReadU8(b: nat -> byte, p: nat) returns (q: nat, v: byte)
      modifies this
      ensures q == p + 2 && v == b(p + 1) && failed == (old(failed) || b(p) != TYPE_INT_8)
    {
      q := Expect(b, p, TYPE_INT_8);
      v := b(q);
      q := q + 1;
    }

    method ExpectOpId(b: nat -> byte, p: nat, id: byte) returns (q: nat)
      modifies this
      ensures q == p + 2 && failed == (old(failed) || b(p) != TYPE_OP_ID || b(p + 1) != id)
    {
      q := Expect(b, p, TYPE_OP_ID);
      var temp := b(q);
      q := q + 1;
      if temp != id { failed := true; }
    }

    method ReadU16(b: nat -> byte, p: nat) returns (q: nat, v: u16)
      modifies this
      ensures q == p + 3 && v == Value16(b, p + 1) && failed == (old(failed) || b(p) != TYPE_INT_16)
    {
      q := Expect(b, p, TYPE_INT_16);
      v := b(q);
      v := v + b(q + 1) * 256;
      q := q + 2;
    }

    method ReadU32(b: nat -> byte, p: nat) returns (q: nat, v: u32)
      modifies this
      ensures q == p + 5 && v == Value32(b, p + 1) && failed == (old(failed) || b(p) != TYPE_INT_32)
    {
      q := Expect(b, p, TYPE_INT_32);
      v := b(q);
      v := v + b(q + 1) * 256;
      v := v + b(q + 2) * 0x1_0000;
      v := v + b(q + 3) * 0x100_0000;
      q := q + 4;
    }

    method ReadPtr(b: nat -> byte, p: nat) returns (q: nat, len: u32)
      modifies this
      ensures len == Value32(b, p + 2) && q == p + PTR_HEADER_SIZE + len
      ensures failed == (old(failed) || b(p) != TYPE_PTR || b(p + 1) != TYPE_INT_32)
    {
      hide Value32;
      q := Expect(b, p, TYPE_PTR);
      q, len := ReadU32(b, q);
      q := q + len;
    }

    method ReadSmallPtr(b: nat -> byte, p: nat) returns (q: nat, len: u16)
      modifies this
      ensures len == Value16(b, p + 2) && q == p + SMALL_PTR_HEADER_SIZE + len
      ensures failed == (old(failed) || b(p) != TYPE_SMALL_PTR || b(p + 1) != TYPE_INT_16)
    {
      hide Value16;
      q := Expect(b, p, TYPE_SMALL_PTR);
      q, len := ReadU16(b, q);
      q := q + len;
    }

    /** One format character: the position moves past what its argument would be printed as. */
    method ReadArg(b: nat -> byte, p: nat, f: Fmt) returns (q: nat, v: Val)
      modifies this
      ensures q == p + |Printed(ArgAt(b, p, f))| && v == ValAt(b, p, f) && failed == (old(failed) || !TagsOk(b, p, f))
    {
      hide Value16, Value32;
      v := NoVal;
      match f
      case FOp(id) => q := ExpectOpId(b, p, id);
      case FRes(id) => q := Expect(b, p, ResponseTag(id));
      case FU8 =>
        var x;
        q, x := ReadU8(b, p);
        v := VU8(x);
      case FU16 =>
        var x;
        q, x := ReadU16(b, p);
        v := VU16(x);
      case FU32 =>
        var x;
        q, x := ReadU32(b, p);
        v := VU32(x);
      case FS32 =>
        var x;
        q, x := ReadU32(b, p);
        v := VS32(Signed(x));
      case FPtr =>
        var x;
        q, x := ReadPtr(b, p);
        v := if q == p + PTR_HEADER_SIZE then VNull else VPtr(p + PTR_HEADER_SIZE, x);
      case FSmallPtr =>
        var x;
        q, x := ReadSmallPtr(b, p);
        v := if q == p + SMALL_PTR_HEADER_SIZE then VNull else VPtr(p + SMALL_PTR_HEADER_SIZE, x);
    }

    method MatchStart(b: nat -> byte) returns (q: nat)
      modifies this
      ensures q == START_OFFSET + 6 && failed == (old(failed) || !MarkOk(b, START_OFFSET, TYPE_START, PACKET_SIG))
    {
      hide Value32;
      var sig;
      q := Expect(b, START_OFFSET, TYPE_START);
      q, sig := ReadU32(b, q);
      if sig != PACKET_SIG { failed := true; }
    }

    method MatchEnd(b: nat -> byte, p: nat) returns (q: nat)
      modifies this
      ensures q == p + 6 && failed == (old(failed) || !MarkOk(b, p, TYPE_END, NOT_PACKET_SIG))
    {
      hide Value32;
      var sig;
      q := Expect(b, p, TYPE_END);
      q, sig := ReadU32(b, q);
      if sig != NOT_PACKET_SIG { failed := true; }
    }

    /** eluarpc_gen_read: it reports success exactly when PacketOk holds, and stores the values either way. */
    method GenRead(b: nat -> byte, fs: seq<Fmt>) returns (ok: bool, vals: seq<Val>)
      modifies this
      ensures ok == PacketOk(b, fs) && vals == ValsAt(b, START_OFFSET + 6, fs) && failed == !ok
    {
      hide Printed, ArgAt, ValAt, TagsOk, MarkOk, PacketOk, ValsAt, AllTagsOk, Body, ArgsAt;
      failed := false;
      var p: nat := MatchStart(b);
      ghost var start := START_OFFSET + 6;
      vals := [];
      var i := 0;
      ghost var ok0 := !failed;
      while i < |fs|
        invariant 0 <= i <= |fs|
        invariant vals + ValsAt(b, p, fs[i..]) == ValsAt(b, start, fs[0..])
        invariant (!failed && AllTagsOk(b, p, fs[i..])) == (ok0 && AllTagsOk(b, start, fs[0..]))
        invariant p + BodyLength(b, p, fs[i..]) == start + BodyLength(b, start, fs[0..])
      {
        var v;
        OneFmt(b, p, fs[i..]);
        assert fs[i..][0] == fs[i] && fs[i..][1..] == fs[i + 1..];
        ghost var rest := ValsAt(b, p + |Printed(ArgAt(b, p, fs[i]))|, fs[i + 1..]);
        assert vals + ([ValAt(b, p, fs[i])] + rest) == (vals + [ValAt(b, p, fs[i])]) + rest;
        p, v := ReadArg(b, p, fs[i]);
        vals := vals + [v];
        i := i + 1;
      }
      assert fs[0..] == fs && fs[i..] == [];
      NoFmts(b, p);
      assert vals + [] == vals;
      var _ := MatchEnd(b, p);
      ok := !failed;
      PacketParts(b, fs);
    }

    /** eluarpc_get_packet_size. */
    method GetPacketSize(b: nat -> byte) returns (ok: bool, size: u16)
      modifies this
      ensures ok == (b(0) == TYPE_PKT_SIZE && b(1) == TYPE_INT_16) && size == Value16(b, 2)
    {
      failed := false;
      var p := Expect(b, 0, TYPE_PKT_SIZE);
      p, size := ReadU16(b, p);
      ok := !failed;
    }
  }

  // ---- the recursions of the format, one step at a time ----

  ghost predicate MarkOk(b: nat -> byte, p: nat, t: byte, n: u32) {
    b(p) == t && b(p + 1) == TYPE_INT_32 && Value32(b, p + 2) == n }

  ghost function BodyLength(b: nat -> byte, p: nat, fs: seq<Fmt>): nat { |Body(ArgsAt(b, p, fs))| }

  lemma OneFmt(b: nat -> byte, p: nat, fs: seq<Fmt>)
    requires fs != []
    ensures var q := p + |Printed(ArgAt(b, p, fs[0]))|;
            && ValsAt(b, p, fs) == [ValAt(b, p, fs[0])] + ValsAt(b, q, fs[1..])
            && (AllTagsOk(b, p, fs) <==> TagsOk(b, p, fs[0]) && AllTagsOk(b, q, fs[1..]))
            && p + BodyLength(b, p, fs) == q + BodyLength(b, q, fs[1..])
  {
    hide Printed, ArgAt, ValAt, TagsOk, Body, ArgsAt;
    FirstFmt(b, p, fs);
  }

  lemma NoFmts(b: nat -> byte, p: nat)
    ensures ValsAt(b, p, []) == [] && AllTagsOk(b, p, []) && BodyLength(b, p, []) == 0
  {
  }

  lemma PacketParts(b: nat -> byte, fs: seq<Fmt>)
    ensures PacketOk(b, fs) <==>
            && MarkOk(b, START_OFFSET, TYPE_START, PACKET_SIG) && AllTagsOk(b, START_OFFSET + 6, fs)
            && MarkOk(b, START_OFFSET + 6 + BodyLength(b, START_OFFSET + 6, fs), TYPE_END, NOT_PACKET_SIG)
  {
    hide Body, ArgsAt, AllTagsOk, Value32;
  }
}
