/** Whole runs of the multiplexer: what its log always satisfies, response priority, and a request from end to end. */
module MuxRuns {
  import opened Bytes
  import opened Rpc
  import opened RpcParser
  import opened RpcReader
  import opened Sermux
  import opened SermuxRuns
  import opened Transport
  import opened MuxSteps

  /** The end of the link is where the logged events lead, and what they delivered is what was logged. */
  ghost predicate Followed(m: Loop) {
    && Sane(m.end) && m.end.kind == Mux
    && PutsOk(m.log.events) && Run(Fresh(Mux), m.log.events) == Outcome(m.end, m.log.out)
  }

  /** The bytes that came are those of the requests and of the one being put together, and after them the bytes that
      were dropped because the size field is malformed. */
  ghost predicate Accounted(requests: seq<seq<byte>>, got: seq<byte>, came: seq<byte>) {
    Flat(requests) + got <= came && (!Deaf(got) ==> Flat(requests) + got == came)
  }

  /** Every byte for the RFS server is in a request that was executed or in the one being put together, or was
      dropped. */
  ghost predicate Requested(m: Loop) {
    && Accounted(m.log.requests, m.got, BytesFor(m.rfs, m.log.out))
    && (forall i :: 0 <= i < |m.log.requests| ==> Complete(m.log.requests[i]))
    && !Complete(m.got) && InStep(m.got) && |m.got| <= |m.buffer| && (m.pending == [] ==> m.buffer[..|m.got|] == m.got)
  }

  /** Every byte of a response has been sent or still waits, in the buffer it was written to. */
  ghost predicate Responded(m: Loop) {
    && m.log.sent + m.pending == Flat(m.log.answers)
    && (m.pending != [] ==> m.got == [] && |m.pending| <= |m.buffer| && exists k: nat :: Unsent(m.buffer, m.pending, k))
  }

  ghost predicate Unsent(buffer: seq<byte>, pending: seq<byte>, k: nat) {
    k + |pending| <= |buffer| && buffer[k..k + |pending|] == pending }

  lemma UnsentNext(buffer: seq<byte>, pending: seq<byte>, k: nat)
    requires pending != [] && Unsent(buffer, pending, k)
    ensures Unsent(buffer, pending[1..], k + 1)
  {
    assert buffer[k + 1..k + |pending|] == buffer[k..k + |pending|][1..];
  }

  lemma UnsentResponse(b: seq<byte>)
    requires SizeFieldOk(b) ==> SizeField(b) <= |b|
    ensures |Response(b)| <= |b| && Unsent(b, Response(b), 0)
  {
    hide SizeFieldOk, SizeField;
  }

  ghost predicate Inv(m: Loop) { Followed(m) && Requested(m) && Responded(m) && |m.buffer| == BUFFER_SIZE }

  /** When there is a turn: the loop has not stopped, a port has a service ID, and the buffer has room. */
  ghost predicate Orderly(m: Loop, v: Input)
    requires Sane(m.end)
  {
    !m.end.failed && Room(m, v) && (v.Port? ==> IsService(v.c.sid))
  }

  lemma FreshSane()
    ensures Sane(Fresh(Mux))
  {
  }

  lemma SentKeeps(m: Loop, c: Char)
    requires Followed(m) && IsService(c.sid)
    ensures Followed(Sent(m, c))
  {
    hide Sane, PutsOk, AfterSend, SendBytes;
    FreshSane();
    RunSnoc(Fresh(Mux), m.log.events, Put(c));
    HappenSane(m.end, Put(c));
    assert m.log.out + [] == m.log.out;
    hide Run;
  }

  lemma HeardRuns(m: Loop, b: byte)
    requires Followed(m)
    ensures var n := Heard(m, b);
            && Sane(n.end) && n.end.kind == Mux && PutsOk(n.log.events)
            && Run(Fresh(Mux), n.log.events) == Outcome(n.end, m.log.out + Receive(m.end, b).out)
  {
    hide Sane, PutsOk, Receive;
    FreshSane();
    RunSnoc(Fresh(Mux), m.log.events, Got(b));
    HappenSane(m.end, Got(b));
    hide Run;
  }

  lemma OutOne(e: End, b: byte)
    requires Sane(e)
    ensures Receive(e, b).out == [] || Receive(e, b).out == [Receive(e, b).out[0]]
  {
    hide Flip;
  }

  lemma AnsweredResponds(m: Loop)
    requires Responded(m) && m.pending != []
    ensures Responded(Answered(m))
  {
    hide SendBytes, AfterSend, Unsent;
    var n := Answered(m);
    assert n.log.sent + n.pending == m.log.sent + m.pending;
    var k: nat :| Unsent(m.buffer, m.pending, k);
    UnsentNext(m.buffer, m.pending, k);
  }

  lemma AnsweredRequests(m: Loop)
    requires Requested(m) && Responded(m) && m.pending != []
    ensures Requested(Answered(m))
  {
    hide SendBytes, AfterSend, Unsent, Complete, BytesFor, Accounted;
    assert m.got == [] && m.buffer[..0] == [];
  }

  lemma AnsweredKeeps(m: Loop)
    requires Inv(m) && m.pending != []
    ensures Inv(Answered(m))
  {
    SentKeeps(m, Char(SERVICE_ID_FIRST, m.pending[0]));
    AnsweredRequests(m);
    AnsweredResponds(m);
    hide Sane, Run, PutsOk, Complete, Requested, Responded, SendBytes, AfterSend;
    assert Followed(Answered(m));
  }

  lemma ForwardedKeeps(m: Loop, b: byte, c: Char)
    requires Inv(m) && m.pending == [] && Receive(m.end, b).out == [c] && c.sid != m.rfs
    ensures Inv(Forwarded(Heard(m, b), c))
  {
    hide Sane, Run, PutsOk, PutOk, Receive, Complete, BytesFor;
    HeardRuns(m, b);
    BytesForAppend(m.rfs, m.log.out, [c]);
    BytesForOne(m.rfs, c);
    assert BytesFor(m.rfs, m.log.out) + [] == BytesFor(m.rfs, m.log.out);
    hide Accounted;
  }

  lemma HeardKeeps(m: Loop, b: byte)
    requires Inv(m) && m.pending == [] && Receive(m.end, b).out == []
    ensures Inv(Heard(m, b))
  {
    hide Sane, Run, PutsOk, PutOk, Complete, BytesFor;
    HeardRuns(m, b);
    hide Receive, Accounted;
    assert m.log.out + [] == m.log.out;
  }

  lemma FedIncomplete(requests: seq<seq<byte>>, got: seq<byte>, came: seq<byte>, c: byte)
    requires Accounted(requests, got, came) && !Complete(got)
    ensures !Complete(Feed(got, c)) ==> Accounted(requests, Feed(got, c), came + [c])
    ensures Complete(Feed(got, c)) ==> Accounted(requests + [Feed(got, c)], [], came + [c])
  {
    hide Complete, SizeFieldOk, Flat;
    FlatSnoc(requests, Feed(got, c));
    assert Flat(requests) + (got + [c]) == (Flat(requests) + got) + [c];
    assert Flat(requests) + Feed(got, c) + [] == Flat(requests) + Feed(got, c);
  }

  lemma Incomplete()
    ensures !Complete([]) && !Deaf([]) && InStep([])
  {
  }

  /** A byte for the RFS server. */
  lemma AskedRequests(m: Loop, h: Loop, c: Char, server: Server)
    requires Requested(m) && !Complete(m.got) && m.pending == [] && c.sid == m.rfs
    requires ServerOk(server) && |Feed(m.got, c.data)| <= |m.buffer|
    requires h == m.(end := h.end, log := m.log.(events := h.log.events, wire := h.log.wire))
    ensures Requested(Asked(h, c, server)) && |Asked(h, c, server).buffer| == |m.buffer|
  {
    hide Complete, BytesFor, Flat, SizeFieldOk, Feed, Accounted, Response, InStep;
    FeedKeeps(m.got, c.data);
    BytesForAppend(m.rfs, m.log.out, [c]);
    BytesForOne(m.rfs, c);
    FedIncomplete(m.log.requests, m.got, BytesFor(m.rfs, m.log.out), c.data);
    Incomplete();
    var got := Feed(m.got, c.data);
    var buffer := got + m.buffer[|got|..];
    assert buffer[..|got|] == got && |server(buffer)| == |buffer|;
    assert server(buffer)[..0] == [];
  }

  lemma AskedResponds(m: Loop, c: Char, server: Server)
    requires Responded(m) && m.pending == []
    requires ServerOk(server) && |Feed(m.got, c.data)| <= |m.buffer|
    ensures Responded(Asked(m, c, server))
  {
    hide Complete, SizeFieldOk, SizeField, Feed, Unsent, Response, Flat;
    var n := Asked(m, c, server);
    var buffer := Feed(m.got, c.data) + m.buffer[|Feed(m.got, c.data)|..];
    assert m.log.sent == Flat(m.log.answers) by { assert m.log.sent + [] == m.log.sent; }
    FlatSnoc(m.log.answers, Response(server(buffer)));
    if n.pending != [] {
      assert |server(buffer)| == |buffer|;
      UnsentResponse(server(buffer));
    } else {
      assert m.log.sent + [] == m.log.sent;
    }
  }

  lemma AskedKeeps(m: Loop, b: byte, c: Char, server: Server)
    requires Inv(m) && m.pending == [] && Receive(m.end, b).out == [c] && c.sid == m.rfs
    requires ServerOk(server) && |Feed(m.got, c.data)| <= |m.buffer|
    ensures Inv(Asked(Heard(m, b), c, server))
  {
    hide Sane, Run, PutsOk, PutOk, Receive, Complete, BytesFor, Flat, SizeFieldOk, Accounted, Feed, Response, Unsent;
    HeardRuns(m, b);
    var h := Heard(m, b);
    AskedRequests(m, h, c, server);
    AskedResponds(h, c, server);
    var n := Asked(h, c, server);
    assert n.end == h.end && n.log.events == h.log.events && n.log.out == m.log.out + [c];
    hide Asked, Heard, Responded, Requested;
    assert Followed(n);
  }

  /** Every turn keeps the loop in order. */
  lemma TurnKeeps(m: Loop, v: Input, server: Server)
    requires Inv(m) && Orderly(m, v) && ServerOk(server)
    ensures Inv(Turn(m, v, server))
  {
    hide Requested, Responded, Answered, Asked, Forwarded, Heard, Deaf, Receive, Feed, Sane, PutsOk, Run;
    if m.pending != [] {
      AnsweredKeeps(m);
    } else {
      match v
      case Port(c) => PortKeeps(m, c);
      case Line(b) =>
        OutOne(m.end, b);
        var out := Receive(m.end, b).out;
        if out == [] {
          HeardKeeps(m, b);
        } else if out[0].sid == m.rfs {
          AskedKeeps(m, b, out[0], server);
        } else {
          ForwardedKeeps(m, b, out[0]);
        }
    }
  }

  lemma PortKeeps(m: Loop, c: Char)
    requires Inv(m) && m.pending == [] && IsService(c.sid)
    ensures Inv(Sent(m, c))
  {
    SentKeeps(m, c);
    hide Followed, Complete, BytesFor, Flat;
  }

  // ---- runs ----

  lemma TurnSane(m: Loop, v: Input, server: Server)
    requires ServerOk(server) && Sane(m.end) && Orderly(m, v)
    ensures Sane(Turn(m, v, server).end) && Turn(m, v, server).rfs == m.rfs
  {
    hide Receive, Feed, Complete, SendBytes, AfterSend, Response, Sane;
    if m.pending != [] {
      SendSane(m.end, Char(SERVICE_ID_FIRST, m.pending[0]));
    } else {
      match v
      case Port(c) => SendSane(m.end, c);
      case Line(b) => ReceiveSane(m.end, b);
    }
  }

  ghost predicate Runs(m: Loop, vs: seq<Input>, server: Server)
    requires Sane(m.end) && ServerOk(server)
    decreases |vs|
  {
    vs == []
    || (Orderly(m, vs[0]) && (TurnSane(m, vs[0], server); Runs(Turn(m, vs[0], server), vs[1..], server)))
  }

  ghost function After(m: Loop, vs: seq<Input>, server: Server): (n: Loop)
    requires Sane(m.end) && ServerOk(server) && Runs(m, vs, server)
    ensures Sane(n.end)
    decreases |vs|
  {
    if vs == [] then m
    else
      TurnSane(m, vs[0], server);
      After(Turn(m, vs[0], server), vs[1..], server)
  }

  lemma StartKeeps(rfs: sid, buffer: seq<byte>)
    requires |buffer| == BUFFER_SIZE
    ensures Inv(StartLoop(rfs, buffer))
  {
    Incomplete();
    var m := StartLoop(rfs, buffer);
    assert Flat([]) + [] == [] && BytesFor(rfs, []) == [] && buffer[..0] == [];
  }

  /** One turn of a run. */
  lemma RunStep(m: Loop, vs: seq<Input>, server: Server)
    requires Inv(m) && ServerOk(server) && Runs(m, vs, server) && vs != []
    ensures Sane(m.end) && Orderly(m, vs[0]) && Room(m, vs[0])
    ensures var n := Turn(m, vs[0], server);
            && Inv(n) && n.rfs == m.rfs && Sane(n.end) && Runs(n, vs[1..], server)
            && After(m, vs, server) == After(n, vs[1..], server)
  {
    TurnKeeps(m, vs[0], server);
    TurnSane(m, vs[0], server);
    hide Followed, Requested, Responded, Turn, Orderly, Sane;
  }

  lemma AfterNone(m: Loop, server: Server)
    requires Sane(m.end) && ServerOk(server)
    ensures Runs(m, [], server) && After(m, [], server) == m
  {
    hide Sane;
  }

  lemma InvSane(m: Loop)
    requires Inv(m)
    ensures Sane(m.end)
  {
    hide Sane, Requested, Responded;
  }

  lemma {:induction false} AfterKeeps(m: Loop, vs: seq<Input>, server: Server)
    requires Inv(m) && ServerOk(server) && Runs(m, vs, server)
    ensures Inv(After(m, vs, server)) && After(m, vs, server).rfs == m.rfs
    decreases |vs|
  {
    hide *;
    InvSane(m);
    if vs == [] {
      AfterNone(m, server);
    } else {
      RunStep(m, vs, server);
      AfterKeeps(Turn(m, vs[0], server), vs[1..], server);
    }
  }

  /** The state of the multiplexer after the inputs vs. */
  ghost function Reached(rfs: sid, buffer: seq<byte>, vs: seq<Input>, server: Server): (m: Loop)
    requires ServerOk(server) && Runs(StartLoop(rfs, buffer), vs, server)
    ensures Sane(m.end)
  {
    After(StartLoop(rfs, buffer), vs, server)
  }

  /** Every run from the start keeps the loop in order. */
  lemma RunKeeps(rfs: sid, buffer: seq<byte>, vs: seq<Input>, server: Server)
    requires |buffer| == BUFFER_SIZE && ServerOk(server) && Runs(StartLoop(rfs, buffer), vs, server)
    ensures Inv(Reached(rfs, buffer, vs, server)) && Reached(rfs, buffer, vs, server).rfs == rfs
  {
    StartKeeps(rfs, buffer);
    hide Inv, Runs, After;
    AfterKeeps(StartLoop(rfs, buffer), vs, server);
  }

  /** The events of sending bytes on the first service. */
  function Puts(bs: seq<byte>): seq<Event> { seq(|bs|, i requires 0 <= i < |bs| => Put(Char(SERVICE_ID_FIRST, bs[i]))) }

  /** n is m after bs, the beginning of its response, was sent, and nothing else happened. */
  ghost predicate SentPart(m: Loop, n: Loop, bs: seq<byte>) {
    && m.pending == bs + n.pending && n.buffer == m.buffer && n.got == m.got && n.log.out == m.log.out
    && n.log.requests == m.log.requests
    && n.log.sent == m.log.sent + bs && n.log.events == m.log.events + Puts(bs)
  }

  lemma SentOne(m: Loop)
    requires m.pending != []
    ensures SentPart(m, Answered(m), [m.pending[0]])
  {
    hide SendBytes, AfterSend;
    assert m.pending == [m.pending[0]] + m.pending[1..];
    assert Puts([m.pending[0]]) == [Put(Char(SERVICE_ID_FIRST, m.pending[0]))];
  }

  lemma SentNone(m: Loop)
    ensures SentPart(m, m, [])
  {
    assert m.pending == [] + m.pending && m.log.sent == m.log.sent + [] && m.log.events == m.log.events + Puts([]);
  }

  lemma SentMore(m: Loop, n: Loop, o: Loop, x: seq<byte>, y: seq<byte>)
    requires SentPart(m, n, x) && SentPart(n, o, y)
    ensures SentPart(m, o, x + y)
  {
    assert Puts(x + y) == Puts(x) + Puts(y);
    assert x + (y + o.pending) == (x + y) + o.pending;
  }

  /** Response priority: whatever comes in meanwhile, the next turns send exactly what is left of the response, in
      order and with nothing in between, and the buffer it is read from does not change until it is all sent. */
  lemma {:induction false} Drained(m: Loop, vs: seq<Input>, server: Server)
    requires Inv(m) && ServerOk(server) && Runs(m, vs, server) && |vs| == |m.pending|
    ensures SentPart(m, After(m, vs, server), m.pending) && After(m, vs, server).pending == []
    decreases |vs|
  {
    hide Requested, Responded, Sane, PutsOk, Run, PutOk, Room, Answered, SentPart, Turn, Runs;
    if vs == [] {
      SentNone(m);
    } else {
      hide After;
      RunStep(m, vs, server);
      var n := Turn(m, vs[0], server);
      TurnAnswers(m, vs[0], server);
      SentOne(m);
      PendingNext(m);
      Drained(n, vs[1..], server);
      assert [m.pending[0]] + m.pending[1..] == m.pending;
      SentMore(m, n, After(n, vs[1..], server), [m.pending[0]], n.pending);
    }
  }

  lemma TurnAnswers(m: Loop, v: Input, server: Server)
    requires ServerOk(server) && Sane(m.end) && Room(m, v) && m.pending != []
    ensures Turn(m, v, server) == Answered(m)
  {
    hide Answered;
  }

  lemma PendingNext(m: Loop)
    requires m.pending != []
    ensures Answered(m).pending == m.pending[1..]
  {
  }

  // ---- a request from end to end ----

  ghost predicate AllPackets(ps: seq<seq<Arg>>) {
    forall i :: 0 <= i < |ps| ==> AllFit(ps[i]) && |Packet(ps[i])| < TWO_16 }

  function Packets(ps: seq<seq<Arg>>): seq<seq<byte>>
    requires AllPackets(ps)
  {
    seq(|ps|, i requires 0 <= i < |ps| => Packet(ps[i]))
  }

  lemma {:induction false} FlatFront(rs: seq<seq<byte>>)
    requires rs != []
    ensures Flat(rs) == rs[0] + Flat(rs[1..])
    decreases |rs|
  {
    var n := |rs| - 1;
    if n == 0 {
      assert rs[..0] == [] && rs[1..] == [];
    } else {
      FlatFront(rs[..n]);
      assert rs[..n][1..] == rs[1..][..n - 1] && rs[1..][n - 1] == rs[n];
      assert (rs[0] + Flat(rs[1..][..n - 1])) + rs[n] == rs[0] + (Flat(rs[1..][..n - 1]) + rs[n]);
    }
  }

  /** Two beginnings of the same bytes have the same size field. */
  lemma SameSize(x: seq<byte>, y: seq<byte>, all: seq<byte>)
    requires x <= all && y <= all && |x| >= START_OFFSET && |y| >= START_OFFSET
    ensures SizeFieldOk(x) == SizeFieldOk(y) && SizeField(x) == SizeField(y)
  {
    assert x[0] == all[0] == y[0] && x[1] == all[1] == y[1] && x[2] == all[2] == y[2] && x[3] == all[3] == y[3];
  }

  /** The RFS bytes so far are the beginning of a stream of packets: those that are there in full have been executed,
      and what came of the next one is being put together. */
  /** What is left after the first packet. */
  lemma PacketsRest(requests: seq<seq<byte>>, got: seq<byte>, came: seq<byte>, ps: seq<seq<Arg>>)
    requires AllPackets(ps) && ps != [] && requests != [] && came <= Flat(Packets(ps))
    requires Accounted(requests, got, came) && requests[0] == Packet(ps[0])
    ensures AllPackets(ps[1..])
    ensures var p := Packet(ps[0]);
            && |p| <= |came| && came == p + came[|p|..] && came[|p|..] <= Flat(Packets(ps[1..]))
            && Accounted(requests[1..], got, came[|p|..])
            && Flat(requests) + got == p + (Flat(requests[1..]) + got)
            && Flat(Packets(ps)) == p + Flat(Packets(ps[1..])) && Packets(ps) == [p] + Packets(ps[1..])
  {
    hide Packet, AllFit, Deaf, Flat;
    var p := Packet(ps[0]);
    FlatFront(Packets(ps));
    assert Packets(ps)[1..] == Packets(ps[1..]);
    FlatFront(requests);
    assert Flat(requests) + got == p + (Flat(requests[1..]) + got);
    var all := Flat(Packets(ps));
    assert p == came[..|p|] && all[|p|..] == Flat(Packets(ps[1..]));
    assert came[|p|..] <= all[|p|..];
  }

  lemma {:induction false} PacketStream(requests: seq<seq<byte>>, got: seq<byte>, came: seq<byte>, ps: seq<seq<Arg>>)
    requires AllPackets(ps) && came <= Flat(Packets(ps))
    requires Accounted(requests, got, came) && !Complete(got) && InStep(got)
             && forall i :: 0 <= i < |requests| ==> Complete(requests[i])
    ensures requests <= Packets(ps) && came == Flat(requests) + got
    ensures came == Flat(Packets(ps)) ==> requests == Packets(ps) && got == []
    ensures |requests| == |ps| ==> came == Flat(Packets(ps))
    ensures |requests| < |ps| ==> |got| < |Packet(ps[|requests|])|
    decreases |ps|
  {
    hide Packet, AllFit, Flat, Complete, InStep, Accounted;
    if ps == [] {
      assert Packets(ps) == [];
      NoPackets(requests, got, came);
      assert [] + [] == came;
    } else if requests == [] {
      NoRequestYet(got, came, ps);
    } else {
      FirstIsPacket(requests, got, came, ps);
      PacketsRest(requests, got, came, ps);
      var p := Packet(ps[0]);
      hide Packets;
      PacketStream(requests[1..], got, came[|p|..], ps[1..]);
      assert requests == [p] + requests[1..];
    }
  }

  lemma FirstIsPacket(requests: seq<seq<byte>>, got: seq<byte>, came: seq<byte>, ps: seq<seq<Arg>>)
    requires AllPackets(ps) && ps != [] && requests != [] && came <= Flat(Packets(ps))
    requires Accounted(requests, got, came) && Complete(requests[0])
    ensures requests[0] == Packet(ps[0])
  {
    hide Packet, AllFit, Deaf, Flat, Complete;
    FlatFront(Packets(ps));
    FlatFront(requests);
    FirstRequest(requests[0], ps[0], Flat(Packets(ps)));
  }

  lemma NoRequestYet(got: seq<byte>, came: seq<byte>, ps: seq<seq<Arg>>)
    requires AllPackets(ps) && ps != [] && came <= Flat(Packets(ps))
    requires Accounted([], got, came) && !Complete(got) && InStep(got)
    ensures came == Flat([]) + got && |got| < |Packet(ps[0])| && came != Flat(Packets(ps))
  {
    hide Packet, AllFit, Deaf, Flat, Complete, InStep;
    FlatFront(Packets(ps));
    var all := Flat(Packets(ps));
    var p := Packet(ps[0]);
    FlatNone();
    assert [] + got == got;
    PartOfFirst(got, ps[0], all);
    assert got == p[..|got|];
    PartOfPacket(ps[0], |got|);
  }

  lemma NoPackets(requests: seq<seq<byte>>, got: seq<byte>, came: seq<byte>)
    requires came <= Flat([]) && Accounted(requests, got, came)
             && forall i :: 0 <= i < |requests| ==> Complete(requests[i])
    ensures requests == [] && got == [] && came == [] && Flat([]) == []
  {
    FlatNone();
    assert [] + got == got;
    if requests != [] { FlatFront(requests); }
    hide Flat, Deaf;
  }

  /** What is incomplete and begins like a packet is a proper part of it. */
  lemma PartOfFirst(got: seq<byte>, args: seq<Arg>, all: seq<byte>)
    requires AllFit(args) && |Packet(args)| < TWO_16 && Packet(args) <= all && got <= all && !Complete(got)
             && InStep(got)
    ensures |got| < |Packet(args)|
  {
    PacketSize(args);
    hide Packet;
    if |got| >= START_OFFSET { SameSize(got, Packet(args), all); }
  }

  /** What is complete and begins like a packet is that packet. */
  lemma FirstRequest(r: seq<byte>, args: seq<Arg>, all: seq<byte>)
    requires AllFit(args) && |Packet(args)| < TWO_16 && Packet(args) <= all && r <= all && Complete(r)
    ensures r == Packet(args)
  {
    PacketSize(args);
    hide Packet;
    SameSize(r, Packet(args), all);
    assert r == all[..|r|];
  }

  lemma FlatNone()
    ensures Flat([]) == []
  {
  }

  lemma BytesForPrefix(s: sid, cs: seq<Char>, ds: seq<Char>)
    requires cs <= ds
    ensures BytesFor(s, cs) <= BytesFor(s, ds)
  {
    assert ds == cs + ds[|cs|..];
    BytesForAppend(s, cs, ds[|cs|..]);
  }

  /** A state of the loop in which the plain bytes received so far begin the encoding of cs. */
  ghost predicate Sending(m: Loop, rfs: sid, ps: seq<seq<Arg>>, cs: seq<Char>, rest: seq<byte>)
    requires AllPackets(ps)
  {
    && AllKnown(Mux, cs) && BytesFor(rfs, cs) == Flat(Packets(ps))
    && Plain(Received(m.log.events)) + rest == Wire(-1, cs)
  }

  lemma PacketsServed(m: Loop, ps: seq<seq<Arg>>, cs: seq<Char>, rest: seq<byte>)
    requires Inv(m) && AllPackets(ps) && Sending(m, m.rfs, ps, cs, rest)
    ensures m.log.out <= cs && (m.end.failed <==> Harms(Fresh(Mux), m.log.events) > 0)
    ensures m.log.requests <= Packets(ps) && BytesFor(m.rfs, m.log.out) == Flat(m.log.requests) + m.got
    ensures BytesFor(m.rfs, m.log.out) == BytesFor(m.rfs, cs) ==> m.log.requests == Packets(ps) && m.got == []
    ensures rest == [] && !m.end.failed ==> m.log.requests == Packets(ps)
  {
    hide Packet, AllFit, Complete, Accounted, Run, PutsOk, Wire, Plain, Received, BytesFor, Sane, Responded, InStep;
    Faithful(Mux, cs, m.log.events, rest);
    BytesForPrefix(m.rfs, m.log.out, cs);
    PacketStream(m.log.requests, m.got, BytesFor(m.rfs, m.log.out), ps);
  }

  lemma EventsOk(m: Loop)
    requires Inv(m)
    ensures Sane(Fresh(Mux)) && PutsOk(m.log.events)
  {
  }

  /** In every run from the start: packets sent through the escaping encoder on the RFS service, amid other services'
      bytes and with requests for the service ID anywhere, are rebuilt byte for byte, and each is executed exactly when
      its last byte has been decoded. The loop stops exactly at a request that finds nothing to send again. */
  lemma EndToEnd(rfs: sid, buffer: seq<byte>, vs: seq<Input>, server: Server, ps: seq<seq<Arg>>, cs: seq<Char>,
          rest: seq<byte>)
    requires |buffer| == BUFFER_SIZE && ServerOk(server) && Runs(StartLoop(rfs, buffer), vs, server)
    requires AllPackets(ps) && Sending(Reached(rfs, buffer, vs, server), rfs, ps, cs, rest)
    ensures var m := Reached(rfs, buffer, vs, server);
            && PutsOk(m.log.events) && m.log.out <= cs && (m.end.failed <==> Harms(Fresh(Mux), m.log.events) > 0)
            && m.log.requests <= Packets(ps) && BytesFor(rfs, m.log.out) == Flat(m.log.requests) + m.got
            && (BytesFor(rfs, m.log.out) == BytesFor(rfs, cs) ==> m.log.requests == Packets(ps) && m.got == [])
            && (rest == [] && !m.end.failed ==> m.log.requests == Packets(ps))
  {
    RunKeeps(rfs, buffer, vs, server);
    var m := Reached(rfs, buffer, vs, server);
    EventsOk(m);
    PacketsServed(m, ps, cs, rest);
    hide Sending, Inv, Packets, Flat, BytesFor, Harms, Reached, Runs, PutsOk;
  }

  lemma RoomAt(m: Loop, b: byte, ps: seq<seq<Arg>>, cs: seq<Char>, rest: seq<byte>)
    requires Inv(m) && m.pending == [] && AllPackets(ps) && Sending(Heard(m, b), m.rfs, ps, cs, rest)
    requires forall i :: 0 <= i < |ps| ==> |Packet(ps[i])| <= BUFFER_SIZE
    ensures Room(m, Line(b))
  {
    hide Packet, AllFit, Accounted, Run, PutsOk, Wire, Plain, Received, BytesFor, Sane, Responded, Receive, Complete,
         Feed, PutOk, InStep, Flat;
    HeardRuns(m, b);
    OutOne(m.end, b);
    var h := Heard(m, b);
    Faithful(Mux, cs, h.log.events, rest);
    var out := Receive(m.end, b).out;
    if out != [] && out[0].sid == m.rfs {
      BytesForPrefix(m.rfs, m.log.out + out, cs);
      BytesForAppend(m.rfs, m.log.out, out);
      BytesForOne(m.rfs, out[0]);
      BytesForPrefix(m.rfs, m.log.out, m.log.out + out);
      PacketStream(m.log.requests, m.got, BytesFor(m.rfs, m.log.out), ps);
      Grown(m.got, out[0].data);
    }
  }

  /** While such packets come in, there is always room for them if each fits in the buffer at all. */
  lemma RoomForPackets(rfs: sid, buffer: seq<byte>, vs: seq<Input>, server: Server, b: byte, ps: seq<seq<Arg>>,
          cs: seq<Char>, rest: seq<byte>)
    requires |buffer| == BUFFER_SIZE && ServerOk(server) && Runs(StartLoop(rfs, buffer), vs, server)
    requires AllPackets(ps) && forall i :: 0 <= i < |ps| ==> |Packet(ps[i])| <= BUFFER_SIZE
    requires var m := Reached(rfs, buffer, vs, server);
             m.pending == [] && Sending(Heard(m, b), rfs, ps, cs, rest)
    ensures Room(Reached(rfs, buffer, vs, server), Line(b))
  {
    RunKeeps(rfs, buffer, vs, server);
    hide Sending, Packet, Packets, Flat, BytesFor, Reached, Runs, Room, Heard, Requested, Responded, Sane;
    RoomAt(Reached(rfs, buffer, vs, server), b, ps, cs, rest);
  }

  /** There is room for whatever comes next while the size field of the request fits; by Transport.NeverOverrunsIff a
      size field that does not is overrun by some bytes. */
  lemma RoomFromHeader(m: Loop, v: Input)
    requires Inv(m) && HeaderFits(m.got)
    ensures Room(m, v)
  {
    hide Sane, PutsOk, Run, Responded, Complete, Accounted, BytesFor, HeaderFits, Feed, InStep, Receive;
    match v {
      case Line(b) =>
        OutOne(m.end, b);
        var out := Receive(m.end, b).out;
        if out != [] { FeedKeeps(m.got, out[0].data); }
      case Port(_) =>
    }
  }

  lemma DeafTurn(m: Loop, v: Input, server: Server)
    requires ServerOk(server) && Sane(m.end) && Room(m, v) && Deaf(m.got) && !Complete(m.got)
    ensures Turn(m, v, server).got == m.got && Turn(m, v, server).log.requests == m.log.requests
  {
    hide Receive, Complete, SizeFieldOk, SendBytes, AfterSend, Response;
  }

  /** After a malformed size field no request is executed any more, whatever else happens. */
  lemma {:induction false} DeafRun(m: Loop, vs: seq<Input>, server: Server)
    requires Inv(m) && ServerOk(server) && Runs(m, vs, server) && Deaf(m.got)
    ensures After(m, vs, server).log.requests == m.log.requests && After(m, vs, server).got == m.got
    decreases |vs|
  {
    hide Sane, PutsOk, Run, Accounted, BytesFor, Responded, Turn, Deaf, Complete, Room, PutOk, Runs;
    if vs != [] {
      hide After;
      RunStep(m, vs, server);
      DeafTurn(m, vs[0], server);
      DeafRun(Turn(m, vs[0], server), vs[1..], server);
    }
  }

  lemma Grown(got: seq<byte>, c: byte)
    ensures |Feed(got, c)| <= |got| + 1
  {
    hide Deaf;
  }
}
