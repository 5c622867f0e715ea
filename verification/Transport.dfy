/** The memory transport of the RFS server: it puts a request together byte by byte. */
module Transport {
  import opened Bytes
  import opened Rpc

  const MAX_PACKET_SIZE := 4096
  const ELUARPC_WRITE_REQUEST_EXTRA := 29
  const BUFFER_SIZE := MAX_PACKET_SIZE + ELUARPC_WRITE_REQUEST_EXTRA

  /** The request is there: as many bytes as its size field says. */
  predicate Complete(got: seq<byte>) { |got| > START_OFFSET && SizeFieldOk(got) && SizeField(got) == |got| }

  /** Bytes that come after a complete request, or after a malformed size field, are dropped. */
  predicate Deaf(got: seq<byte>) { Complete(got) || (|got| >= START_OFFSET && !SizeFieldOk(got)) }

  function Feed(got: seq<byte>, c: byte): seq<byte> { if Deaf(got) then got else got + [c] }

  function FeedAll(got: seq<byte>, cs: seq<byte>): seq<byte>
    decreases |cs|
  {
    if cs == [] then got else FeedAll(Feed(got, cs[0]), cs[1..])
  }

  lemma {:induction false} FeedAppend(got: seq<byte>, cs: seq<byte>, ds: seq<byte>)
    ensures FeedAll(got, cs + ds) == FeedAll(FeedAll(got, cs), ds)
    decreases |cs|
  {
    if cs == [] {
      assert cs + ds == ds;
    } else {
      assert (cs + ds)[1..] == cs[1..] + ds;
      FeedAppend(Feed(got, cs[0]), cs[1..], ds);
    }
  }

  /** A part of a packet is complete only if it is all of it. */
  lemma PartOfPacket(args: seq<Arg>, n: nat)
    requires AllFit(args) && |Packet(args)| < TWO_16 && n <= |Packet(args)|
    ensures Deaf(Packet(args)[..n]) <==> n == |Packet(args)|
    ensures Complete(Packet(args)[..n]) <==> n == |Packet(args)|
  {
    PacketSize(args);
    hide Packet;
    var p := Packet(args);
    if n >= START_OFFSET { assert p[..n][0] == p[0] && p[..n][1] == p[1] && p[..n][2] == p[2] && p[..n][3] == p[3]; }
    assert p[..|p|] == p;
  }

  /** Feeding a packet to an idle transport rebuilds it byte for byte. */
  lemma {:induction false} Rebuilt(args: seq<Arg>, n: nat)
    requires AllFit(args) && |Packet(args)| < TWO_16 && n <= |Packet(args)|
    ensures FeedAll([], Packet(args)[..n]) == Packet(args)[..n]
  {
    hide Packet, Feed, Complete, Deaf, AllFit;
    var p := Packet(args);
    if n > 0 {
      Rebuilt(args, n - 1);
      assert p[..n] == p[..n - 1] + [p[n - 1]];
      FeedAppend([], p[..n - 1], [p[n - 1]]);
      FedPart(args, n - 1);
      FeedOne(p[..n - 1], p[n - 1]);
    } else {
      assert p[..0] == [];
    }
  }

  lemma FeedOne(got: seq<byte>, c: byte)
    ensures FeedAll(got, [c]) == Feed(got, c)
  {
    hide Feed;
    assert [c][1..] == [];
  }

  lemma FedPart(args: seq<Arg>, n: nat)
    requires AllFit(args) && |Packet(args)| < TWO_16 && n < |Packet(args)|
    ensures Feed(Packet(args)[..n], Packet(args)[n]) == Packet(args)[..n] + [Packet(args)[n]]
  {
    PartOfPacket(args, n);
    hide Packet, Complete, Deaf;
  }

  // ---- what a size field does to the buffer ----

  /** A size field in order says more than four bytes and no more than the buffer has. */
  predicate HeaderFits(got: seq<byte>) {
    |got| >= START_OFFSET && SizeFieldOk(got) ==> START_OFFSET < SizeField(got) <= BUFFER_SIZE }

  /** A request never has more bytes than its size field says, if that says more than four. */
  predicate InStep(got: seq<byte>) {
    |got| > START_OFFSET && SizeFieldOk(got) && SizeField(got) > START_OFFSET ==> |got| <= SizeField(got) }

  lemma FeedKeeps(got: seq<byte>, c: byte)
    requires InStep(got)
    ensures InStep(Feed(got, c)) && (|got| >= START_OFFSET ==> (HeaderFits(Feed(got, c)) <==> HeaderFits(got)))
    ensures |got| <= BUFFER_SIZE && HeaderFits(got) ==> |Feed(got, c)| <= BUFFER_SIZE
  {
  }

  /** Bytes after a complete request or a malformed size field change nothing any more. */
  lemma {:induction false} DeafForEver(got: seq<byte>, cs: seq<byte>)
    requires Deaf(got)
    ensures FeedAll(got, cs) == got
    decreases |cs|
  {
    hide Deaf;
    if cs != [] { DeafForEver(got, cs[1..]); }
  }

  lemma {:induction false} StaysInside(got: seq<byte>, cs: seq<byte>)
    requires |got| >= START_OFFSET && InStep(got) && |got| <= BUFFER_SIZE && HeaderFits(got)
    ensures |FeedAll(got, cs)| <= BUFFER_SIZE
    decreases |cs|
  {
    hide InStep, HeaderFits;
    if cs != [] {
      FeedKeeps(got, cs[0]);
      StaysInside(Feed(got, cs[0]), cs[1..]);
    }
  }

  /** As long as the size is not reached, or with a size that never is, every byte is stored. */
  lemma {:induction false} StoresAll(got: seq<byte>, cs: seq<byte>)
    requires |got| >= START_OFFSET && SizeFieldOk(got) && InStep(got) && !Complete(got)
    requires SizeField(got) <= START_OFFSET || |got| + |cs| <= SizeField(got)
    ensures FeedAll(got, cs) == got + cs
    decreases |cs|
  {
    if cs == [] {
      assert got + cs == got;
    } else {
      assert Feed(got, cs[0]) == got + [cs[0]];
      if |cs| > 1 {
        StoresAll(got + [cs[0]], cs[1..]);
      } else {
        assert FeedAll(got + [cs[0]], cs[1..]) == got + [cs[0]];
      }
      assert got + cs == (got + [cs[0]]) + cs[1..];
    }
  }

  /** Once the size field is there, it decides whether the bytes that follow can ever overrun the buffer. */
  lemma NeverOverrunsIff(got: seq<byte>)
    requires START_OFFSET <= |got| <= BUFFER_SIZE && InStep(got) && !Complete(got)
    ensures (forall cs :: |FeedAll(got, cs)| <= BUFFER_SIZE) <==> HeaderFits(got)
  {
    if HeaderFits(got) {
      forall cs
        ensures |FeedAll(got, cs)| <= BUFFER_SIZE
      {
        StaysInside(got, cs);
      }
    } else {
      var cs: seq<byte> := seq(BUFFER_SIZE + 1 - |got|, _ => 0);
      StoresAll(got, cs);
      assert |FeedAll(got, cs)| == BUFFER_SIZE + 1;
    }
  }

  /** A header that says four bytes, which is its own length: the bytes behind it run over the end of the buffer. */
  lemma FourByteRequest() returns (got: seq<byte>, cs: seq<byte>)
    ensures got == [TYPE_PKT_SIZE, TYPE_INT_16, 4, 0] && FeedAll([], got) == got
            && |FeedAll(got, cs)| == BUFFER_SIZE + 1
  {
    got := [TYPE_PKT_SIZE, TYPE_INT_16, 4, 0];
    cs := seq(BUFFER_SIZE - 3, _ => 0);
    StoresAll(got, cs);
    FirstFour(got);
  }

  /** The first four bytes are always stored. */
  lemma FirstFour(bs: seq<byte>)
    requires |bs| == START_OFFSET
    ensures FeedAll([], bs) == bs
  {
    hide Feed, FeedAll;
    FeedsFour([], bs);
    FedShort([], bs[0]);
    FedShort([bs[0]], bs[1]);
    FedShort([bs[0], bs[1]], bs[2]);
    FedShort([bs[0], bs[1], bs[2]], bs[3]);
    assert [bs[0], bs[1], bs[2]] + [bs[3]] == bs;
    assert [] + [bs[0]] == [bs[0]] && [bs[0]] + [bs[1]] == [bs[0], bs[1]];
    assert [bs[0], bs[1]] + [bs[2]] == [bs[0], bs[1], bs[2]];
  }

  lemma FedShort(got: seq<byte>, c: byte)
    requires |got| < START_OFFSET
    ensures Feed(got, c) == got + [c]
  {
  }

  lemma FeedsFour(got: seq<byte>, bs: seq<byte>)
    requires |bs| == 4
    ensures FeedAll(got, bs) == Feed(Feed(Feed(Feed(got, bs[0]), bs[1]), bs[2]), bs[3])
  {
    hide Feed;
    assert bs[1..][1..] == bs[2..] && bs[2..][1..] == bs[3..] && bs[3..][1..] == [];
    var a := Feed(got, bs[0]);
    var b := Feed(a, bs[1]);
    var c := Feed(b, bs[2]);
    assert FeedAll(got, bs) == FeedAll(a, bs[1..]);
    assert FeedAll(a, bs[1..]) == FeedAll(b, bs[2..]);
    assert FeedAll(b, bs[2..]) == FeedAll(c, bs[3..]);
    assert FeedAll(c, bs[3..]) == FeedAll(Feed(c, bs[3]), []);
  }

  datatype ReadState = READ_LENGTH | READ_REQUEST | REQUEST_DONE

  class MemTransport {
    var readLen: nat
    var expectedLen: int
    var readState: ReadState
    var responseFlag: bool
    const buffer: array<byte>
    /** The bytes of the request so far. */
    ghost var got: seq<byte>

    ghost predicate Valid()
      reads this, buffer
    {
      && buffer.Length == BUFFER_SIZE && |got| <= BUFFER_SIZE && buffer[..|got|] == got
      && responseFlag == Complete(got)
      && match readState
         case READ_LENGTH => |got| < START_OFFSET && readLen == |got|
         case READ_REQUEST => |got| >= START_OFFSET && SizeFieldOk(got) && !Complete(got)
             && readLen == |got| - START_OFFSET && expectedLen == SizeField(got) - START_OFFSET
         case REQUEST_DONE => Deaf(got)
    }

    constructor ()
      ensures Valid() && got == [] && fresh(buffer)
    {
      readLen, expectedLen, readState, responseFlag := 0, 0, READ_LENGTH, false;
      buffer := new byte[BUFFER_SIZE];
      got := [];
    }

    /** rfs_mem_start_request. */
    method StartRequest()
      requires buffer.Length == BUFFER_SIZE
      modifies this
      ensures Valid() && got == []
    {
      readState := READ_LENGTH;
      readLen, expectedLen := 0, 0;
      responseFlag := false;
      got := [];
    }

    /** eluarpc_get_packet_size on the buffer. */
    method PacketSizeOf() returns (ok: bool, size: u16)
      requires buffer.Length == BUFFER_SIZE
      ensures ok == SizeFieldOk(buffer[..]) && size == SizeField(buffer[..])
    {
      ok := true;
      if buffer[0] != TYPE_PKT_SIZE { ok := false; }
      if buffer[1] != TYPE_INT_16 { ok := false; }
      var hi: int := buffer[3];
      size := buffer[2] + hi * 256;
    }

    /** rfs_mem_read_request_packet; -1 stands for no byte and starts over. */
    method ReadRequestPacket(c: int) returns (res: bool)
      requires Valid() && -1 <= c < 256 && (c != -1 ==> |Feed(got, c)| <= BUFFER_SIZE)
      modifies this, buffer
      ensures Valid() && got == if c == -1 then [] else Feed(old(got), c)
      ensures forall i :: |got| <= i < BUFFER_SIZE ==> buffer[i] == old(buffer[i])
      ensures res <==> c != -1 && !(|old(got)| < |got| == START_OFFSET && !SizeFieldOk(got))
    {
      res := true;
      if c == -1 {
        StartRequest();
        return false;
      }
      match readState
      case READ_LENGTH =>
        buffer[readLen] := c;
        readLen := readLen + 1;
        got := got + [c];
        if readLen == START_OFFSET {
          readLen := 0;
          var ok, size := PacketSizeOf();
          if !ok {
            readState := REQUEST_DONE;
            res := false;
          } else {
            readState := READ_REQUEST;
            expectedLen := size - START_OFFSET;
          }
        }
      case READ_REQUEST =>
        buffer[START_OFFSET + readLen] := c;
        readLen := readLen + 1;
        ghost var before := got;
        got := got + [c];
        if readLen == expectedLen {
          readState := REQUEST_DONE;
          responseFlag := true;
        }
      case REQUEST_DONE =>
    }

    /** rfs_mem_has_response. */
    method HasResponse() returns (r: bool)
      requires Valid()
      ensures r == Complete(got)
    {
      r := responseFlag;
    }

    /** server_execute_request: the server rewrites the buffer in place. */
    method ExecuteRequest(server: seq<byte> -> seq<byte>)
      requires |server(buffer[..])| == buffer.Length
      modifies buffer
      ensures buffer[..] == server(old(buffer[..]))
    {
      var now := server(buffer[..]);
      var i := 0;
      while i < buffer.Length
        invariant 0 <= i <= buffer.Length && buffer[..i] == now[..i]
      {
        buffer[i] := now[i];
        i := i + 1;
      }
      assert buffer[..] == buffer[..i] && now == now[..i];
    }

    /** rfs_mem_write_response: executes the request, and says how long the response at the front of the buffer is. */
    method WriteResponse(server: seq<byte> -> seq<byte>) returns (len: nat)
      requires buffer.Length == BUFFER_SIZE && |server(buffer[..])| == BUFFER_SIZE
      modifies buffer
      ensures buffer[..] == server(old(buffer[..])) && len == if SizeFieldOk(buffer[..]) then SizeField(buffer[..])
                else 0
    {
      ExecuteRequest(server);
      var ok, size := PacketSizeOf();
      len := if ok then size else 0;
    }
  }
}
