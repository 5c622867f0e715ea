/** The multiplexer's service loop on its variables. */
module Multiplexer {
  import opened Bytes
  import opened Rpc
  import opened Sermux
  import opened SermuxRuns
  import opened Transport
  import opened MuxSteps

  class ServiceLoop {
    const rfsServiceId: sid
    const server: Server
    var serviceIdIn: sid
    var serviceIdOut: sid
    var gotEsc: bool
    var prevSent: int
    var rfsSize: nat
    var rfsPtr: nat
    const transport: MemTransport
    /** What went to the serial line and to the ports. */
    var wire: seq<byte>
    var ports: seq<Char>
    ghost var log: Log

    ghost function End(): End
      reads this
    {
      Sermux.End(Mux, serviceIdIn, serviceIdOut, gotEsc, prevSent, false)
    }

    ghost predicate Valid()
      reads this, transport, transport.buffer
    {
      && ServerOk(server) && transport.Valid() && Sane(End()) && rfsPtr + rfsSize <= BUFFER_SIZE
      && !Complete(transport.got) && log.wire == wire && log.ports == ports
    }

    /** The state of the loop as MuxSteps describes it: the waiting part of a response is a stretch of the buffer. */
    ghost function State(): Loop
      requires Valid()
      reads this, transport, transport.buffer
    {
      Loop(rfsServiceId, End(), transport.got, transport.buffer[rfsPtr..rfsPtr + rfsSize], transport.buffer[..], log)
    }

    constructor (rfs: sid, server: Server)
      requires ServerOk(server)
      ensures Valid() && State() == StartLoop(rfs, transport.buffer[..]) && this.server == server && fresh(transport)
              && fresh(transport.buffer)
    {
      rfsServiceId, this.server := rfs, server;
      serviceIdIn, serviceIdOut, gotEsc, prevSent := -1, -1, false, -1;
      rfsSize, rfsPtr := 0, 0;
      wire, ports := [], [];
      log := Log([], [], [], [], [], [], []);
      transport := new MemTransport();
    }

    method TransportSendByte(b: byte)
      modifies this`wire
      ensures wire == old(wire) + [b]
    {
      wire := wire + [b];
    }

    /** A byte of a port or of a response, with its service ID if that changed. */
    method SendChar(service: byte, c: byte)
      modifies this`prevSent, this`serviceIdOut, this`wire
      ensures End() == AfterSend(old(End()), Char(service, c))
              && wire == old(wire) + SendBytes(old(End()), Char(service, c))
    {
      hide Flip;
      ghost var start := wire;
      prevSent := c;
      if service != serviceIdOut {
        TransportSendByte(service);
      }
      if c == ESCAPE_CHAR || c == FORCE_SID_CHAR || SERVICE_ID_FIRST <= c <= SERVICE_ID_LAST {
        TransportSendByte(ESCAPE_CHAR);
        TransportSendByte(Flip(c));
        prevSent := ESC_MASK + Flip(c);
      } else {
        TransportSendByte(c);
      }
      serviceIdOut := service;
      assert wire == start + SendBytes(old(End()), Char(service, c));
    }

    /** A byte of the line: its reply, and the character it completes, if any. */
    method LineByte(b: byte) returns (go: bool, out: seq<Char>)
      requires Sane(End())
      modifies this`serviceIdIn, this`gotEsc, this`prevSent, this`wire
      ensures go == !Receive(old(End()), b).end.failed
      ensures go ==>
                && End() == Receive(old(End()), b).end && out == Receive(old(End()), b).out
                && wire == old(wire) + Receive(old(End()), b).reply
    {
      hide Flip;
      ghost var start := wire;
      go, out := true, [];
      if b != ESCAPE_CHAR {
        if SERVICE_ID_FIRST <= b <= SERVICE_ID_LAST {
          serviceIdIn := b;
        } else if b == FORCE_SID_CHAR {
          if prevSent == -1 {
            return false, [];
          }
          TransportSendByte(serviceIdOut);
          if prevSent >= ESC_MASK {
            TransportSendByte(ESCAPE_CHAR);
          }
          TransportSendByte(prevSent % ESC_MASK);
          assert wire == start + Receive(old(End()), b).reply;
          prevSent := -1;
        } else {
          var c := b;
          if gotEsc {
            c := Flip(c);
            if c != ESCAPE_CHAR && c != FORCE_SID_CHAR && (c < SERVICE_ID_FIRST || c > SERVICE_ID_LAST) {
              return false, [];
            }
            gotEsc := false;
          }
          if serviceIdIn == -1 {
            TransportSendByte(FORCE_SID_CHAR);
          } else {
            out := [Char(serviceIdIn, c)];
          }
        }
      } else {
        gotEsc := true;
      }
    }

    /** A decoded byte for the RFS server: rfs_mem_read_request_packet, and the response if the request is complete. */
    method RfsByte(c: byte)
      requires transport.Valid() && rfsSize == 0 && rfsPtr <= BUFFER_SIZE && ServerOk(server)
               && |Feed(transport.got, c)| <= BUFFER_SIZE
      modifies this`rfsSize, this`rfsPtr, transport, transport.buffer
      ensures transport.Valid() && rfsPtr + rfsSize <= BUFFER_SIZE
      ensures AskedGives(old(transport.got), old(transport.buffer[..]), c, server,
                         transport.got, transport.buffer[rfsPtr..rfsPtr + rfsSize], transport.buffer[..])
    {
      hide Complete, Feed, SizeFieldOk, SizeField, ServerOk;
      ghost var was, got := transport.buffer[..], Feed(transport.got, c);
      var _ := transport.ReadRequestPacket(c);
      FedBuffer(was, transport.buffer[..], got);
      var has := transport.HasResponse();
      if has {
        ServerSize(server, transport.buffer[..]);
        var size := transport.WriteResponse(server);
        rfsSize := size;
        if size > 0 { rfsPtr := 0; }
        transport.StartRequest();
      }
    }

    /** The next byte of a response. */
    method AnswerTurn()
      requires Valid() && rfsSize > 0
      modifies this`rfsSize, this`rfsPtr, this`prevSent, this`serviceIdOut, this`wire, this`log
      ensures Valid() && State() == Answered(old(State()))
    {
      hide Complete, ServerOk, AfterSend, SendBytes, Sane;
      ghost var buffer := transport.buffer[..];
      var c := transport.buffer[rfsPtr];
      NextOf(buffer, rfsPtr, rfsSize);
      rfsPtr := rfsPtr + 1;
      rfsSize := rfsSize - 1;
      SendSane(End(), Char(SERVICE_ID_FIRST, c));
      SendChar(SERVICE_ID_FIRST, c);
      log := log.(events := log.events + [Put(Char(SERVICE_ID_FIRST, c))], wire := wire, sent := log.sent + [c]);
    }

    method PortTurn(c: Char)
      requires Valid() && rfsSize == 0 && IsService(c.sid)
      modifies this`prevSent, this`serviceIdOut, this`wire, this`log
      ensures Valid() && State() == Sent(old(State()), c)
    {
      hide Complete, ServerOk, AfterSend, SendBytes, Sane;
      SendSane(End(), c);
      SendChar(c.sid, c.data);
      log := log.(events := log.events + [Put(c)], wire := wire);
    }

    method LineTurn(b: byte) returns (go: bool, out: seq<Char>)
      requires Valid() && rfsSize == 0
      modifies this`serviceIdIn, this`gotEsc, this`prevSent, this`wire, this`log
      ensures go == !Receive(old(End()), b).end.failed
      ensures go ==> Valid() && State() == Heard(old(State()), b) && out == Receive(old(End()), b).out
    {
      hide Complete, ServerOk, Receive, Sane;
      ReceiveSane(End(), b);
      go, out := LineByte(b);
      log := log.(events := log.events + [Got(b)], wire := wire);
    }

    method PortByte(c: Char)
      requires Valid()
      modifies this`ports, this`log
      ensures Valid() && State() == Forwarded(old(State()), c)
    {
      hide Complete, ServerOk, Sane;
      ports := ports + [c];
      log := log.(out := log.out + [c], ports := ports);
    }

    method RfsTurn(c: Char)
      requires Valid() && rfsSize == 0 && c.sid == rfsServiceId && |Feed(transport.got, c.data)| <= BUFFER_SIZE
      modifies this`rfsSize, this`rfsPtr, this`log, transport, transport.buffer
      ensures Valid() && State() == Asked(old(State()), c, server)
    {
      hide Complete, Feed, SizeFieldOk, SizeField, ServerOk, Sane, Response;
      ghost var m := State();
      RfsByte(c.data);
      log := Asked(m, c, server).log;
      NothingComplete();
    }

    /** One turn of the loop. It goes on unless the protocol is violated; v is not used while a response is being
        sent. */
    method ServeOnce(v: Input) returns (go: bool)
      requires Valid() && Room(State(), v) && (v.Port? ==> IsService(v.c.sid))
      modifies this, transport, transport.buffer
      ensures go == !Turn(old(State()), v, server).end.failed
      ensures go ==> Valid() && State() == Turn(old(State()), v, server)
    {
      hide Complete, Feed, SizeFieldOk, SizeField, ServerOk, Receive, AfterSend, SendBytes, Sane, Asked, Answered;
      go := true;
      if rfsSize > 0 {
        AnswerTurn();
      } else {
        match v
        case Port(c) => PortTurn(c);
        case Line(b) =>
          var out;
          ghost var e := End();
          go, out := LineTurn(b);
          if !go { FailedSilently(e, b); }
          if go && out != [] {
            if out[0].sid == rfsServiceId {
              RfsTurn(out[0]);
            } else {
              PortByte(out[0]);
            }
          }
      }
    }
  }

  /** The service ID of port i; offset is 1 next to the RFS service. */
  function PortService(i: nat, offset: nat): int { SERVICE_ID_FIRST + i + offset }

  /** These are service IDs for all ports exactly if ports and offset together are at most eight; the check of the
      number of ports leaves out the offset, so eight ports next to the RFS service pass it although the last one has
      none. */
  lemma PortsAreServices(ports: nat, offset: nat)
    requires ports > 0
    ensures (forall i: nat :: i < ports ==> IsService(PortService(i, offset))) <==> ports + offset <= 8
    ensures !IsService(PortService(7, 1))
    ensures PortService(0, offset) == SERVICE_ID_FIRST + offset
            && forall i: nat, j: nat :: i < j ==> PortService(i, offset) < PortService(j, offset)
  {
    if ports + offset > 8 {
      assert !IsService(PortService(ports - 1, offset));
    }
  }

  lemma FailedSilently(e: End, b: byte)
    requires Sane(e) && Receive(e, b).end.failed && !e.failed
    ensures Receive(e, b).out == []
  {
    hide Flip;
  }

  lemma NextOf(b: seq<byte>, p: nat, n: nat)
    requires n > 0 && p + n <= |b|
    ensures b[p..p + n] != [] && b[p..p + n][0] == b[p] && b[p..p + n][1..] == b[p + 1..p + n]
  {
  }

  /** What a byte for the RFS server makes of the request, the waiting response and the buffer. */
  ghost predicate AskedGives(got0: seq<byte>, buffer0: seq<byte>, c: byte, server: Server, got: seq<byte>,
          pending: seq<byte>, buffer: seq<byte>) {
    && ServerOk(server) && |Feed(got0, c)| <= |buffer0|
    && var fed := Feed(got0, c);
       var full := fed + buffer0[|fed|..];
       if Complete(fed) then got == [] && pending == Response(server(full)) && buffer == server(full)
       else got == fed && pending == [] && buffer == full
  }

  lemma ServerSize(server: Server, b: seq<byte>)
    requires ServerOk(server)
    ensures |server(b)| == |b| && (SizeFieldOk(server(b)) ==> SizeField(server(b)) <= |b|)
  {
  }

  lemma FedBuffer(was: seq<byte>, now: seq<byte>, got: seq<byte>)
    requires |was| == |now| && |got| <= |now| && now[..|got|] == got
             && forall i :: |got| <= i < |now| ==> now[i] == was[i]
    ensures now == got + was[|got|..]
  {
  }

  lemma NothingComplete()
    ensures !Complete([])
  {
  }
}
