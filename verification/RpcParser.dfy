/** eluarpc_gen_read: it succeeds exactly on what eluarpc_gen_write prints. */
module RpcParser {
  import opened Bytes
  import opened Rpc

  /** Format characters with what they expect. */
  datatype Fmt = FOp(id: byte) | FRes(id: byte) | FU8 | FU16 | FU32 | FS32 | FPtr | FSmallPtr

  /** What is stored through the caller's pointers; an empty block comes back as a null pointer. */
  datatype Val = NoVal | VU8(b: byte) | VU16(h: u16) | VU32(l: u32) | VS32(i: s32) | VPtr(at: nat, len: u32) | VNull

  function Slice(b: nat -> byte, p: nat, n: nat): (s: seq<byte>)
    ensures |s| == n && forall i :: 0 <= i < n ==> s[i] == b(p + i)
  {
    seq(n, i requires 0 <= i < n => b(p + i))
  }

  /** The argument that the bytes at p stand for. */
  function ArgAt(b: nat -> byte, p: nat, f: Fmt): (a: Arg)
    ensures Fits(a)
  {
    match f
    case FOp(id) => Op(id)
    case FRes(id) => Res(id)
    case FU8 => U8(b(p + 1))
    case FU16 => U16(Value16(b, p + 1))
    case FU32 => U32(Value32(b, p + 1))
    case FS32 => S32(Signed(Value32(b, p + 1)))
    case FPtr => Ptr(Slice(b, p + PTR_HEADER_SIZE, Value32(b, p + 2)))
    case FSmallPtr => SmallPtr(Slice(b, p + SMALL_PTR_HEADER_SIZE, Value16(b, p + 2)))
  }

  /** The type marks at p are the expected ones. */
  predicate TagsOk(b: nat -> byte, p: nat, f: Fmt) {
    match f
    case FOp(id) => b(p) == TYPE_OP_ID && b(p + 1) == id
    case FRes(id) => b(p) == ResponseTag(id)
    case FU8 => b(p) == TYPE_INT_8
    case FU16 => b(p) == TYPE_INT_16
    case FU32 => b(p) == TYPE_INT_32
    case FS32 => b(p) == TYPE_INT_32
    case FPtr => b(p) == TYPE_PTR && b(p + 1) == TYPE_INT_32
    case FSmallPtr => b(p) == TYPE_SMALL_PTR && b(p + 1) == TYPE_INT_16
  }

  function ValAt(b: nat -> byte, p: nat, f: Fmt): Val {
    match f
    case FOp(_) => NoVal
    case FRes(_) => NoVal
    case FU8 => VU8(b(p + 1))
    case FU16 => VU16(Value16(b, p + 1))
    case FU32 => VU32(Value32(b, p + 1))
    case FS32 => VS32(Signed(Value32(b, p + 1)))
    case FPtr => if Value32(b, p + 2) == 0 then VNull else VPtr(p + PTR_HEADER_SIZE, Value32(b, p + 2))
    case FSmallPtr => if Value16(b, p + 2) == 0 then VNull else VPtr(p + SMALL_PTR_HEADER_SIZE, Value16(b, p + 2))
  }

  function FmtOf(a: Arg): Fmt {
    match a
    case Op(id) => FOp(id)
    case Res(id) => FRes(id)
    case U8(_) => FU8
    case U16(_) => FU16
    case U32(_) => FU32
    case S32(_) => FS32
    case Ptr(_) => FPtr
    case SmallPtr(_) => FSmallPtr
  }

  lemma SignedBack(n: u32)
    ensures Unsigned(Signed(n)) == n
  {
  }

  lemma {:induction false} HoldsAppend(b: nat -> byte, p: nat, x: seq<byte>, y: seq<byte>)
    ensures Holds(b, p, x + y) <==> Holds(b, p, x) && Holds(b, p + |x|, y)
  {
    if Holds(b, p, x + y) {
      forall i | 0 <= i < |y|
        ensures b(p + |x| + i) == y[i]
      {
        assert b(p + (|x| + i)) == (x + y)[|x| + i];
      }
      forall i | 0 <= i < |x|
        ensures b(p + i) == x[i]
      {
        assert b(p + i) == (x + y)[i];
      }
    }
    if Holds(b, p, x) && Holds(b, p + |x|, y) {
      forall i | 0 <= i < |x + y|
        ensures b(p + i) == (x + y)[i]
      {
        if i >= |x| { assert b(p + |x| + (i - |x|)) == y[i - |x|]; }
      }
    }
  }

  lemma HoldsOne(b: nat -> byte, p: nat, v: byte)
    ensures Holds(b, p, [v]) <==> b(p) == v
  {
    if Holds(b, p, [v]) { assert b(p + 0) == [v][0]; }
  }

  lemma HoldsTwo(b: nat -> byte, p: nat, v: byte, w: byte)
    ensures Holds(b, p, [v, w]) <==> b(p) == v && b(p + 1) == w
  {
    if Holds(b, p, [v, w]) { assert b(p + 0) == [v, w][0] && b(p + 1) == [v, w][1]; }
  }

  lemma Block32(b: nat -> byte, p: nat, data: seq<byte>)
    requires |data| < TWO_32
    ensures Holds(b, p, [TYPE_PTR, TYPE_INT_32] + Bytes32(|data|) + data)
            <==> b(p) == TYPE_PTR && b(p + 1) == TYPE_INT_32 && Value32(b, p + 2) == |data| && Holds(b, p + 6, data)
  {
    HoldsAppend(b, p, [TYPE_PTR, TYPE_INT_32] + Bytes32(|data|), data);
    HoldsAppend(b, p, [TYPE_PTR, TYPE_INT_32], Bytes32(|data|));
    HoldsTwo(b, p, TYPE_PTR, TYPE_INT_32);
    Value32Of(b, p + 2, |data|);
    hide Holds, Value32;
    assert |Bytes32(|data|)| == 4;
  }

  lemma Block16(b: nat -> byte, p: nat, data: seq<byte>)
    requires |data| < TWO_16
    ensures Holds(b, p, [TYPE_SMALL_PTR, TYPE_INT_16] + Bytes16(|data|) + data)
            <==>
            && b(p) == TYPE_SMALL_PTR && b(p + 1) == TYPE_INT_16 && Value16(b, p + 2) == |data|
            && Holds(b, p + 4, data)
  {
    HoldsAppend(b, p, [TYPE_SMALL_PTR, TYPE_INT_16] + Bytes16(|data|), data);
    HoldsAppend(b, p, [TYPE_SMALL_PTR, TYPE_INT_16], Bytes16(|data|));
    HoldsTwo(b, p, TYPE_SMALL_PTR, TYPE_INT_16);
    Value16Of(b, p + 2, |data|);
    hide Holds, Value16;
    assert |Bytes16(|data|)| == 2;
  }

  lemma Number32(b: nat -> byte, p: nat, n: u32)
    ensures Holds(b, p, [TYPE_INT_32] + Bytes32(n)) <==> b(p) == TYPE_INT_32 && Value32(b, p + 1) == n
  {
    HoldsAppend(b, p, [TYPE_INT_32], Bytes32(n));
    HoldsOne(b, p, TYPE_INT_32);
    Value32Of(b, p + 1, n);
    hide Holds, Value32;
  }

  lemma Number16(b: nat -> byte, p: nat, n: u16)
    ensures Holds(b, p, [TYPE_INT_16] + Bytes16(n)) <==> b(p) == TYPE_INT_16 && Value16(b, p + 1) == n
  {
    HoldsAppend(b, p, [TYPE_INT_16], Bytes16(n));
    HoldsOne(b, p, TYPE_INT_16);
    Value16Of(b, p + 1, n);
    hide Holds, Value16;
  }

  lemma SliceHeld(b: nat -> byte, p: nat, data: seq<byte>)
    ensures Holds(b, p, data) <==> Slice(b, p, |data|) == data
  {
  }

  /** One argument: the type marks are right exactly if memory holds the printed form of what is read there. */
  lemma ArgPrinted(b: nat -> byte, p: nat, f: Fmt)
    ensures TagsOk(b, p, f) <==> Holds(b, p, Printed(ArgAt(b, p, f)))
  {
    match f
    case FOp(id) => HoldsTwo(b, p, TYPE_OP_ID, id);
    case FRes(id) => HoldsOne(b, p, ResponseTag(id));
    case FU8 => HoldsTwo(b, p, TYPE_INT_8, b(p + 1));
    case FU16 => Number16(b, p, Value16(b, p + 1));
    case FU32 => Number32(b, p, Value32(b, p + 1));
    case FS32 => SignedBack(Value32(b, p + 1)); Number32(b, p, Value32(b, p + 1));
    case FPtr => Block32(b, p, Slice(b, p + PTR_HEADER_SIZE, Value32(b, p + 2)));
    case FSmallPtr => Block16(b, p, Slice(b, p + SMALL_PTR_HEADER_SIZE, Value16(b, p + 2)));
  }

  /** Reading the printed form of an argument with its own format character gives it back. */
  lemma PrintedArg(b: nat -> byte, p: nat, a: Arg)
    requires Fits(a) && Holds(b, p, Printed(a))
    ensures ArgAt(b, p, FmtOf(a)) == a
  {
    match a
    case Op(id) =>
    case Res(id) =>
    case U8(v) => HoldsTwo(b, p, TYPE_INT_8, v);
    case U16(h) => Number16(b, p, h);
    case U32(l) => Number32(b, p, l);
    case S32(i) => Number32(b, p, Unsigned(i));
    case Ptr(data) => Block32(b, p, data); SliceHeld(b, p + 6, data);
    case SmallPtr(data) => Block16(b, p, data); SliceHeld(b, p + 4, data);
  }

  // ---- whole formats ----

  function ArgsAt(b: nat -> byte, p: nat, fs: seq<Fmt>): (args: seq<Arg>)
    ensures AllFit(args)
    decreases |fs|
  {
    if fs == [] then [] else [ArgAt(b, p, fs[0])] + ArgsAt(b, p + |Printed(ArgAt(b, p, fs[0]))|, fs[1..])
  }

  function ValsAt(b: nat -> byte, p: nat, fs: seq<Fmt>): seq<Val>
    decreases |fs|
  {
    if fs == [] then [] else [ValAt(b, p, fs[0])] + ValsAt(b, p + |Printed(ArgAt(b, p, fs[0]))|, fs[1..])
  }

  predicate AllTagsOk(b: nat -> byte, p: nat, fs: seq<Fmt>)
    decreases |fs|
  {
    fs == [] || (TagsOk(b, p, fs[0]) && AllTagsOk(b, p + |Printed(ArgAt(b, p, fs[0]))|, fs[1..]))
  }

  function FmtsOf(args: seq<Arg>): seq<Fmt> { seq(|args|, i requires 0 <= i < |args| => FmtOf(args[i])) }

  /** One step of the recursions over formats. */
  lemma FirstFmt(b: nat -> byte, p: nat, fs: seq<Fmt>)
    requires fs != []
    ensures var a := ArgAt(b, p, fs[0]);
            var q := p + |Printed(a)|;
            && ArgsAt(b, p, fs) == [a] + ArgsAt(b, q, fs[1..])
            && (AllTagsOk(b, p, fs) <==> TagsOk(b, p, fs[0]) && AllTagsOk(b, q, fs[1..]))
            && Body(ArgsAt(b, p, fs)) == Printed(a) + Body(ArgsAt(b, q, fs[1..]))
  {
    hide TagsOk, Printed, ArgAt, Fits;
    var a := ArgAt(b, p, fs[0]);
    BodyCons(a, ArgsAt(b, p + |Printed(a)|, fs[1..]));
  }

  lemma BodyCons(a: Arg, rest: seq<Arg>)
    requires Fits(a) && AllFit(rest)
    ensures AllFit([a] + rest) && Body([a] + rest) == Printed(a) + Body(rest)
  {
    hide Fits, Printed;
    assert ([a] + rest)[1..] == rest;
  }

  lemma ArgsStep(b: nat -> byte, p: nat, fs: seq<Fmt>, q: nat)
    requires fs != [] && q == p + |Printed(ArgAt(b, p, fs[0]))|
    requires AllTagsOk(b, q, fs[1..]) <==> Holds(b, q, Body(ArgsAt(b, q, fs[1..])))
    ensures AllTagsOk(b, p, fs) <==> Holds(b, p, Body(ArgsAt(b, p, fs)))
  {
    hide *;
    FirstFmt(b, p, fs);
    ArgPrinted(b, p, fs[0]);
    HoldsAppend(b, p, Printed(ArgAt(b, p, fs[0])), Body(ArgsAt(b, q, fs[1..])));
  }

  lemma {:induction false} ArgsPrinted(b: nat -> byte, p: nat, fs: seq<Fmt>)
    ensures AllTagsOk(b, p, fs) <==> Holds(b, p, Body(ArgsAt(b, p, fs)))
    decreases |fs|
  {
    if fs == [] {
      assert Body([]) == [];
    } else {
      var q := p + |Printed(ArgAt(b, p, fs[0]))|;
      ArgsPrinted(b, q, fs[1..]);
      hide *;
      ArgsStep(b, p, fs, q);
    }
  }

  /** The bytes of the first argument, and those of the others. */
  lemma FirstArg(b: nat -> byte, p: nat, args: seq<Arg>)
    requires AllFit(args) && Holds(b, p, Body(args)) && args != []
    ensures Fits(args[0]) && AllFit(args[1..]) && Holds(b, p, Printed(args[0]))
            && Holds(b, p + |Printed(args[0])|, Body(args[1..]))
  {
    hide Holds, Printed;
    HoldsAppend(b, p, Printed(args[0]), Body(args[1..]));
  }

  lemma PrintedStep(b: nat -> byte, p: nat, args: seq<Arg>, q: nat)
    requires args != [] && Fits(args[0]) && q == p + |Printed(args[0])| && ArgAt(b, p, FmtOf(args[0])) == args[0]
    requires ArgsAt(b, q, FmtsOf(args[1..])) == args[1..]
    ensures ArgsAt(b, p, FmtsOf(args)) == args
  {
    hide *;
    FmtsCons(args);
    FirstFmt(b, p, FmtsOf(args));
    assert [args[0]] + args[1..] == args;
  }

  lemma {:induction false} PrintedArgs(b: nat -> byte, p: nat, args: seq<Arg>)
    requires AllFit(args) && Holds(b, p, Body(args))
    ensures ArgsAt(b, p, FmtsOf(args)) == args
    decreases |args|
  {
    hide *;
    if args == [] {
      NoArgs(b, p);
    } else {
      FirstArg(b, p, args);
      PrintedArg(b, p, args[0]);
      PrintedArgs(b, p + |Printed(args[0])|, args[1..]);
      PrintedStep(b, p, args, p + |Printed(args[0])|);
    }
  }

  lemma NoArgs(b: nat -> byte, p: nat)
    ensures FmtsOf([]) == [] && ArgsAt(b, p, []) == []
  {
  }

  lemma FmtsCons(args: seq<Arg>)
    requires args != []
    ensures FmtsOf(args) != [] && FmtsOf(args)[0] == FmtOf(args[0]) && FmtsOf(args)[1..] == FmtsOf(args[1..])
  {
  }

  /** Start mark, arguments and end mark. */
  predicate PacketOk(b: nat -> byte, fs: seq<Fmt>) {
    var p := START_OFFSET;
    var q := p + 6 + |Body(ArgsAt(b, p + 6, fs))|;
    && b(p) == TYPE_START && b(p + 1) == TYPE_INT_32 && Value32(b, p + 2) == PACKET_SIG && AllTagsOk(b, p + 6, fs)
    && b(q) == TYPE_END && b(q + 1) == TYPE_INT_32 && Value32(b, q + 2) == NOT_PACKET_SIG
  }

  lemma Mark(b: nat -> byte, p: nat, t: byte, n: u32)
    ensures Holds(b, p, [t, TYPE_INT_32] + Bytes32(n)) <==>
              b(p) == t && b(p + 1) == TYPE_INT_32 && Value32(b, p + 2) == n
  {
    HoldsAppend(b, p, [t, TYPE_INT_32], Bytes32(n));
    HoldsTwo(b, p, t, TYPE_INT_32);
    Value32Of(b, p + 2, n);
    hide Holds, Value32;
  }

  /** The parser's conditions hold exactly if printing what it reads gives the bytes it read, from the start mark to the
      end mark. */
  lemma ParsedIsPrinted(b: nat -> byte, fs: seq<Fmt>)
    ensures PacketOk(b, fs) <==> Holds(b, START_OFFSET, Marked(ArgsAt(b, START_OFFSET + 6, fs)))
  {
    hide Holds, Value32, AllTagsOk, Body, ArgsAt;
    var p := START_OFFSET;
    var args := ArgsAt(b, p + 6, fs);
    var q := p + 6 + |Body(args)|;
    ArgsPrinted(b, p + 6, fs);
    Mark(b, p, TYPE_START, PACKET_SIG);
    Mark(b, q, TYPE_END, NOT_PACKET_SIG);
    var start, end := [TYPE_START, TYPE_INT_32] + Bytes32(PACKET_SIG),
        [TYPE_END, TYPE_INT_32] + Bytes32(NOT_PACKET_SIG);
    assert |start| == 6;
    HoldsAppend(b, p, start + Body(args), end);
    HoldsAppend(b, p, start, Body(args));
    assert Marked(args) == (start + Body(args)) + end;
  }

  /** Parsing a printed packet with the formats it was printed with succeeds and gives the arguments back. */
  lemma RoundTrip(b: nat -> byte, args: seq<Arg>)
    requires AllFit(args) && Holds(b, 0, Packet(args))
    ensures PacketOk(b, FmtsOf(args)) && ArgsAt(b, START_OFFSET + 6, FmtsOf(args)) == args
  {
    var size := [TYPE_PKT_SIZE, TYPE_INT_16] + Bytes16(START_OFFSET + |Marked(args)|);
    assert |size| == 4;
    HoldsAppend(b, 0, size, Marked(args));
    var start, end := [TYPE_START, TYPE_INT_32] + Bytes32(PACKET_SIG),
        [TYPE_END, TYPE_INT_32] + Bytes32(NOT_PACKET_SIG);
    assert |start| == 6 && Marked(args) == (start + Body(args)) + end;
    HoldsAppend(b, 4, start + Body(args), end);
    HoldsAppend(b, 4, start, Body(args));
    PrintedArgs(b, 10, args);
    ParsedIsPrinted(b, FmtsOf(args));
    hide Holds, PacketOk, Body, ArgsAt;
  }
}
