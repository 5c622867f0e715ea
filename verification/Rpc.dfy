/** eLua's remote procedure call packets: the format, the printer and the parser. */
module Rpc {
  import opened Bytes

  const TYPE_INT_8: byte := 1
  const TYPE_INT_16: byte := 2
  const TYPE_INT_32: byte := 3
  const TYPE_PTR: byte := 4
  const TYPE_START: byte := 5
  const TYPE_END: byte := 6
  const TYPE_OP_ID: byte := 7
  const TYPE_SMALL_PTR: byte := 8
  const TYPE_PKT_SIZE: byte := 0xA5
  const PACKET_SIG := 0x18AF_C284
  const NOT_PACKET_SIG := 0xE750_3D7B
  const OP_RES_MOD := 0x80
  const START_OFFSET := 4
  const PTR_HEADER_SIZE := 6
  const SMALL_PTR_HEADER_SIZE := 4
  const TWO_16 := 0x1_0000
  const TWO_31 := 0x8000_0000

  type u16 = x: int | 0 <= x < 0x1_0000
  type u32 = x: int | 0 <= x < 0x1_0000_0000
  type s32 = x: int | -0x8000_0000 <= x < 0x8000_0000

  // ---- numbers as bytes ----

  function Bytes16(n: nat): seq<byte> { [n % 256, n / 256 % 256] }

  function Bytes32(n: nat): seq<byte> { [n % 256, n / 256 % 256, n / 0x1_0000 % 256, n / 0x100_0000 % 256] }

  function Value16(b: nat -> byte, p: nat): u16 { b(p) + b(p + 1) * 256 }

  function Value32(b: nat -> byte, p: nat): u32 { b(p) + b(p + 1) * 256 + b(p + 2) * 0x1_0000 + b(p + 3) * 0x100_0000 }

  /** Memory b holds the bytes bs at p. */
  ghost predicate Holds(b: nat -> byte, p: nat, bs: seq<byte>) {
    forall i :: 0 <= i < |bs| ==> b(p + i) == bs[i]
  }

  lemma Digits(n: u32)
    ensures n % 256 + n / 256 % 256 * 256 + n / 0x1_0000 % 256 * 0x1_0000 + n / 0x100_0000 % 256 * 0x100_0000 == n
    ensures n < TWO_16 ==> n % 256 + n / 256 % 256 * 256 == n
  {
    var a := n / 256;
    var c := a / 256;
    assert c == n / 0x1_0000;
    assert c / 256 == n / 0x100_0000;
  }

  lemma Value32Of(b: nat -> byte, p: nat, n: u32)
    ensures Holds(b, p, Bytes32(n)) <==> Value32(b, p) == n
  {
    var v0: int, v1: int, v2: int, v3: int := b(p), b(p + 1), b(p + 2), b(p + 3);
    Digits(n);
    if Value32(b, p) == n {
      LowDigits(v0, v1, v2, v3);
    }
    if Holds(b, p, Bytes32(n)) {
      assert b(p + 0) == Bytes32(n)[0] && b(p + 1) == Bytes32(n)[1] && b(p + 2) == Bytes32(n)[2]
             && b(p + 3) == Bytes32(n)[3];
    }
  }

  lemma LowDigits(v0: int, v1: int, v2: int, v3: int)
    requires 0 <= v0 < 256 && 0 <= v1 < 256 && 0 <= v2 < 256 && 0 <= v3 < 256
    ensures var n := v0 + v1 * 256 + v2 * 0x1_0000 + v3 * 0x100_0000;
            n % 256 == v0 && n / 256 % 256 == v1 && n / 0x1_0000 % 256 == v2 && n / 0x100_0000 % 256 == v3
  {
    var n := v0 + v1 * 256 + v2 * 0x1_0000 + v3 * 0x100_0000;
    var a := v1 + v2 * 256 + v3 * 0x1_0000;
    var c := v2 + v3 * 256;
    assert n == a * 256 + v0 && n / 256 == a;
    assert a == c * 256 + v1 && a / 256 == c && n / 0x1_0000 == c;
    assert c / 256 == v3 && n / 0x100_0000 == v3;
  }

  lemma Value16Of(b: nat -> byte, p: nat, n: u16)
    ensures Holds(b, p, Bytes16(n)) <==> Value16(b, p) == n
  {
    var v0: int, v1: int := b(p), b(p + 1);
    Digits(n);
    if Value16(b, p) == n { LowDigits(v0, v1, 0, 0); }
    if Holds(b, p, Bytes16(n)) {
      assert b(p + 0) == Bytes16(n)[0] && b(p + 1) == Bytes16(n)[1];
    }
  }

  /** Numbers travel with their low byte first. */
  lemma LowByteFirst(n: u32)
    ensures var b := Bytes32(n);
            |b| == 4 && n == b[0] as int + 256 * b[1] as int + 0x1_0000 * b[2] as int + 0x100_0000 * b[3] as int
    ensures n < TWO_16 ==> |Bytes16(n)| == 2 && n == Bytes16(n)[0] as int + 256 * Bytes16(n)[1] as int
  {
    Digits(n);
  }

  /** Signed values travel as their 32-bit two's complement. */
  function Unsigned(n: s32): u32 { if n < 0 then n + TWO_32 else n }

  function Signed(n: u32): s32 { if n >= TWO_31 then n - TWO_32 else n }

  lemma TwosComplement(i: s32, l: u32)
    ensures Unsigned(i) == i % TWO_32 && Signed(Unsigned(i)) == i && Unsigned(Signed(l)) == l
  {
  }

  // ---- arguments ----

  /** Format characters with their arguments: o, r, c, h, l, i and L, p, P. */
  datatype Arg =
    | Op(id: byte)
    | Res(id: byte)
    | U8(b: byte)
    | U16(h: u16)
    | U32(l: u32)
    | S32(i: s32)
    | Ptr(data: seq<byte>)
    | SmallPtr(data: seq<byte>)

  /** ELUARPC_OP_RES_MOD | id. */
  function ResponseTag(id: byte): byte { if id < OP_RES_MOD then id + OP_RES_MOD else id }

  /** A response tag has the top bit set and the other bits of the ID, so IDs below 128 keep different tags. */
  lemma TagBits(id: byte, other: byte)
    ensures ResponseTag(id) / 128 == 1 && ResponseTag(id) % 128 == id % 128
    ensures ResponseTag(id) == ResponseTag(other) <==> id % 128 == other % 128
  {
  }

  predicate Fits(a: Arg) {
    match a
    case Ptr(data) => |data| < TWO_32
    case SmallPtr(data) => |data| < TWO_16
    case _ => true
  }

  function Printed(a: Arg): seq<byte>
    requires Fits(a)
  {
    match a
    case Op(id) => [TYPE_OP_ID, id]
    case Res(id) => [ResponseTag(id)]
    case U8(b) => [TYPE_INT_8, b]
    case U16(h) => [TYPE_INT_16] + Bytes16(h)
    case U32(l) => [TYPE_INT_32] + Bytes32(l)
    case S32(i) => [TYPE_INT_32] + Bytes32(Unsigned(i))
    case Ptr(data) => [TYPE_PTR, TYPE_INT_32] + Bytes32(|data|) + data
    case SmallPtr(data) => [TYPE_SMALL_PTR, TYPE_INT_16] + Bytes16(|data|) + data
  }

  predicate AllFit(args: seq<Arg>) { forall i :: 0 <= i < |args| ==> Fits(args[i]) }

  function Body(args: seq<Arg>): seq<byte>
    requires AllFit(args)
  {
    if args == [] then [] else Printed(args[0]) + Body(args[1..])
  }

  /** The packet from its start mark to its end mark. */
  function Marked(args: seq<Arg>): seq<byte>
    requires AllFit(args)
  {
    [TYPE_START, TYPE_INT_32] + Bytes32(PACKET_SIG) + Body(args) + [TYPE_END, TYPE_INT_32] + Bytes32(NOT_PACKET_SIG)
  }

  /** The whole packet; its first four bytes give its size modulo 65536. */
  function Packet(args: seq<Arg>): seq<byte>
    requires AllFit(args)
  {
    [TYPE_PKT_SIZE, TYPE_INT_16] + Bytes16(START_OFFSET + |Marked(args)|) + Marked(args)
  }

  // ---- the size field ----

  predicate SizeFieldOk(bs: seq<byte>) { |bs| >= START_OFFSET && bs[0] == TYPE_PKT_SIZE && bs[1] == TYPE_INT_16 }

  function SizeField(bs: seq<byte>): nat
    requires |bs| >= START_OFFSET
  {
    var lo: int, hi: int := bs[2], bs[3];
    lo + hi * 256
  }

  /** A packet below 65536 bytes says how long it is. */
  lemma PacketSize(args: seq<Arg>)
    requires AllFit(args) && |Packet(args)| < TWO_16
    ensures SizeFieldOk(Packet(args)) && SizeField(Packet(args)) == |Packet(args)| > START_OFFSET
  {
    Digits(|Packet(args)|);
    hide Marked;
    assert |Packet(args)| == START_OFFSET + |Marked(args)|;
  }
}
