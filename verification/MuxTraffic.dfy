/** What whole runs of the multiplexer carry: from the line to the ports and the RFS server, and back. */
module MuxTraffic {
  import opened Bytes
  import opened Rpc
  import opened Sermux
  import SermuxLink
  import opened SermuxRuns
  import opened Transport
  import opened MuxSteps
  import opened MuxRuns

  /** The characters for other services. */
  function Others(s: sid, cs: seq<Char>): seq<Char> {
    if cs == [] then [] else Others(s, cs[..|cs| - 1]) + if cs[|cs| - 1].sid != s then [cs[|cs| - 1]] else []
  }

  lemma OthersSnoc(s: sid, cs: seq<Char>, c: Char)
    ensures Others(s, cs + [c]) == Others(s, cs) + if c.sid != s then [c] else []
  {
    assert (cs + [c])[..|cs|] == cs;
  }

  /** The characters sent in a sequence of events. */
  function Sendings(vs: seq<Event>): seq<Char> {
    if vs == [] then [] else Sendings(vs[..|vs| - 1]) + if vs[|vs| - 1].Put? then [vs[|vs| - 1].c] else []
  }

  lemma SendingsSnoc(vs: seq<Event>, v: Event)
    ensures Sendings(vs + [v]) == Sendings(vs) + if v.Put? then [v.c] else []
  {
    assert (vs + [v])[..|vs|] == vs;
  }

  /** The bytes of the line and the characters of the ports in a sequence of inputs. */
  function LineBytes(vs: seq<Input>): seq<byte> {
    if vs == [] then [] else LineBytes(vs[..|vs| - 1]) + if vs[|vs| - 1].Line? then [vs[|vs| - 1].b] else []
  }

  function PortChars(vs: seq<Input>): seq<Char> {
    if vs == [] then [] else PortChars(vs[..|vs| - 1]) + if vs[|vs| - 1].Port? then [vs[|vs| - 1].c] else []
  }

  lemma InputsSnoc(vs: seq<Input>, v: Input)
    ensures LineBytes(vs + [v]) == LineBytes(vs) + (if v.Line? then [v.b] else [])
            && PortChars(vs + [v]) == PortChars(vs) + if v.Port? then [v.c] else []
  {
    assert (vs + [v])[..|vs|] == vs;
  }

  /** The inputs that are taken in: those of the turns that have no byte of a response to send. */
  ghost function Taken(m: Loop, vs: seq<Input>, server: Server): seq<Input>
    requires Sane(m.end) && ServerOk(server) && Runs(m, vs, server)
    decreases |vs|
  {
    if vs == [] then []
    else
      TurnSane(m, vs[0], server);
      (if m.pending == [] then [vs[0]] else []) + Taken(Turn(m, vs[0], server), vs[1..], server)
  }

  lemma TakenNone(m: Loop, server: Server)
    requires Sane(m.end) && ServerOk(server)
    ensures Runs(m, [], server) && Taken(m, [], server) == []
  {
    hide Sane;
  }

  lemma TakenStep(m: Loop, vs: seq<Input>, server: Server)
    requires Inv(m) && ServerOk(server) && Sane(m.end) && Runs(m, vs, server) && vs != []
    ensures Sane(m.end) && Room(m, vs[0])
    ensures var n := Turn(m, vs[0], server);
            && Sane(n.end) && Runs(n, vs[1..], server)
            && Taken(m, vs, server) == (if m.pending == [] then [vs[0]] else []) + Taken(n, vs[1..], server)
  {
    hide Inv, Turn, Sane, Room;
    TurnSane(m, vs[0], server);
  }

  /** z interleaves x and y. */
  ghost predicate Merged(z: seq<Char>, x: seq<Char>, y: seq<Char>)
    decreases |z|
  {
    if z == [] then x == [] && y == []
    else
      var (n, last) := (|z| - 1, z[|z| - 1]);
      || (x != [] && x[|x| - 1] == last && Merged(z[..n], x[..|x| - 1], y))
      || (y != [] && y[|y| - 1] == last && Merged(z[..n], x, y[..|y| - 1]))
  }

  lemma MergedSnoc(z: seq<Char>, x: seq<Char>, y: seq<Char>, c: Char)
    requires Merged(z, x, y)
    ensures Merged(z + [c], x + [c], y) && Merged(z + [c], x, y + [c])
  {
    assert (z + [c])[..|z|] == z && (x + [c])[..|x|] == x && (y + [c])[..|y|] == y;
  }

  /** Bytes of responses go out on the first service. */
  function OnFirst(bs: seq<byte>): seq<Char> {
    seq(|bs|, i requires 0 <= i < |bs| => Char(SERVICE_ID_FIRST, bs[i]))
  }

  lemma OnFirstSnoc(bs: seq<byte>, b: byte)
    ensures OnFirst(bs + [b]) == OnFirst(bs) + [Char(SERVICE_ID_FIRST, b)]
  {
  }

  lemma {:induction false} ReceivedSnoc(vs: seq<Event>, v: Event)
    ensures Received(vs + [v]) == Received(vs) + if v.Got? then [v.b] else []
  {
    if vs == [] {
      assert vs + [v] == [v] && [v][1..] == [];
    } else {
      ReceivedSnoc(vs[1..], v);
      assert (vs + [v])[1..] == vs[1..] + [v];
    }
  }

  /** The service the last of these characters went to. */
  function LastSid(cs: seq<Char>): sid { if cs == [] then -1 else cs[|cs| - 1].sid }

  lemma {:induction false} WireSnoc(s: sid, cs: seq<Char>, c: Char)
    ensures var t := if cs == [] then s else LastSid(cs);
            Wire(s, cs + [c]) == Wire(s, cs) + SendBytes(Fresh(Mux).(sidOut := t), c)
    decreases |cs|
  {
    hide SendBytes;
    if cs == [] {
      assert [c][1..] == [] && [] + [c] == [c];
      var bs := SendBytes(Fresh(Mux).(sidOut := s), c);
      assert bs + [] == bs == [] + bs;
    } else {
      assert (cs + [c])[1..] == cs[1..] + [c];
      WireSnoc(cs[0].sid, cs[1..], c);
      var t := LastSid(cs);
      assert (if cs[1..] == [] then cs[0].sid else LastSid(cs[1..])) == t;
      var bs := SendBytes(Fresh(Mux).(sidOut := t), c);
      var first := SendBytes(Fresh(Mux).(sidOut := s), cs[0]);
      assert first + (Wire(cs[0].sid, cs[1..]) + bs) == (first + Wire(cs[0].sid, cs[1..])) + bs;
    }
  }

  /** r is the response in a buffer: as many bytes as its size field says, or none if that is malformed. */
  ghost predicate Fills(b: seq<byte>, r: seq<byte>) {
    r <= b && if |b| >= 4 && b[0] == TYPE_PKT_SIZE && b[1] == TYPE_INT_16
              then |r| == b[2] as int + 256 * b[3] as int else r == []
  }

  /** r is the response that the server puts into the buffer in place of the request q. */
  ghost predicate AnswerTo(server: Server, q: seq<byte>, r: seq<byte>) {
    exists b: seq<byte> :: |b| == BUFFER_SIZE && q <= b && Fills(server(b), r)
  }

  lemma ResponseFills(b: seq<byte>)
    requires SizeFieldOk(b) ==> SizeField(b) <= |b|
    ensures Fills(b, Response(b))
  {
  }

  // ---- what every turn keeps ----

  /** What came in, u, went where it belongs. */
  ghost predicate Inward(m: Loop, u: seq<Input>) {
    m.log.ports == Others(m.rfs, m.log.out) && Received(m.log.events) == LineBytes(u)
  }

  /** What was sent are the bytes of ports and responses, and it is on the line, encoded. */
  ghost predicate Outward(m: Loop, u: seq<Input>) {
    && Merged(Sendings(m.log.events), PortChars(u), OnFirst(m.log.sent))
    && m.end.sidOut == LastSid(Sendings(m.log.events))
    && (FORCE_SID_CHAR !in LineBytes(u) ==> Plain(m.log.wire) == Wire(-1, Sendings(m.log.events)))
  }

  /** What is on the line is what the events make the end of the link emit. */
  ghost predicate OnLine(m: Loop) {
    PutsOk(m.log.events) && m.log.wire == Emitted(Fresh(Mux), m.log.events)
  }

  ghost predicate AllAnswered(m: Loop, server: Server) {
    && |m.log.answers| == |m.log.requests|
    && forall i :: 0 <= i < |m.log.answers| ==> AnswerTo(server, m.log.requests[i], m.log.answers[i])
  }

  // ---- a character is sent ----

  lemma SentOut(m: Loop, c: Char)
    requires IsService(c.sid) && m.end.sidOut == LastSid(Sendings(m.log.events))
    ensures var n := Sent(m, c);
            && Sendings(n.log.events) == Sendings(m.log.events) + [c] && n.end.sidOut == c.sid
            && LastSid(Sendings(m.log.events) + [c]) == c.sid
            && (Plain(m.log.wire) == Wire(-1, Sendings(m.log.events)) ==>
                  Plain(n.log.wire) == Wire(-1, Sendings(m.log.events) + [c]))
  {
    hide SendBytes, Plain, Wire, Remembered;
    var cs := Sendings(m.log.events);
    SendingsSnoc(m.log.events, Put(c));
    WireSnoc(-1, cs, c);
    SendBytesOf(m.end, c);
    SermuxLink.PlainBytes(m.end.sidOut, c);
    PlainAppend(m.log.wire, SendBytes(m.end, c));
    hide Sendings;
  }

  lemma SendBytesOf(e: End, c: Char)
    ensures SendBytes(e, c) == SendBytes(Fresh(Mux).(sidOut := e.sidOut), c)
  {
  }

  lemma SentIn(m: Loop, c: Char)
    ensures Received(Sent(m, c).log.events) == Received(m.log.events)
  {
    ReceivedSnoc(m.log.events, Put(c));
    assert Received(m.log.events) + [] == Received(m.log.events);
    hide Received, SendBytes, AfterSend;
  }

  lemma AnsweredFlows(m: Loop, u: seq<Input>)
    requires m.pending != [] && Inward(m, u) && Outward(m, u)
    ensures Inward(Answered(m), u) && Outward(Answered(m), u)
  {
    var c := Char(SERVICE_ID_FIRST, m.pending[0]);
    SentIn(m, c);
    SentOut(m, c);
    OnFirstSnoc(m.log.sent, m.pending[0]);
    MergedSnoc(Sendings(m.log.events), PortChars(u), OnFirst(m.log.sent), c);
    hide SendBytes, Plain, Wire, Remembered, Sendings, Received, Merged, OnFirst, PortChars, LineBytes, Others;
  }

  lemma PortFlows(m: Loop, u: seq<Input>, c: Char)
    requires IsService(c.sid) && Inward(m, u) && Outward(m, u)
    ensures Inward(Sent(m, c), u + [Port(c)]) && Outward(Sent(m, c), u + [Port(c)])
  {
    SentIn(m, c);
    SentOut(m, c);
    InputsSnoc(u, Port(c));
    assert LineBytes(u) + [] == LineBytes(u);
    MergedSnoc(Sendings(m.log.events), PortChars(u), OnFirst(m.log.sent), c);
    hide SendBytes, Plain, Wire, Remembered, Sendings, Received, Merged, OnFirst, PortChars, LineBytes, Others;
  }

  // ---- a byte of the line is received ----

  lemma HeardFlows(m: Loop, u: seq<Input>, b: byte)
    requires Sane(m.end) && m.end.kind == Mux && Inward(m, u) && Outward(m, u)
    ensures Received(Heard(m, b).log.events) == LineBytes(u + [Line(b)]) && Outward(Heard(m, b), u + [Line(b)])
  {
    ReceivedSnoc(m.log.events, Got(b));
    SendingsSnoc(m.log.events, Got(b));
    assert Sendings(m.log.events) + [] == Sendings(m.log.events);
    InputsSnoc(u, Line(b));
    assert PortChars(u) + [] == PortChars(u);
    ReplyIs(m.end, b);
    PlainAppend(m.log.wire, Receive(m.end, b).reply);
    assert Plain(m.log.wire) + [] == Plain(m.log.wire);
    hide Receive, Plain, Wire, Sendings, Received, Merged, OnFirst, PortChars, Others, Sane;
    hide LineBytes;
  }

  lemma ReplyIs(e: End, b: byte)
    requires Sane(e)
    ensures Receive(e, b).end.sidOut == e.sidOut && (b != FORCE_SID_CHAR ==> Plain(Receive(e, b).reply) == [])
  {
    hide Flip, Carried;
    assert [FORCE_SID_CHAR][1..] == [];
  }

  lemma ForwardedFlows(m: Loop, u: seq<Input>, b: byte, c: Char)
    requires Sane(m.end) && m.end.kind == Mux && Inward(m, u) && Outward(m, u) && c.sid != m.rfs
    ensures Inward(Forwarded(Heard(m, b), c), u + [Line(b)]) && Outward(Forwarded(Heard(m, b), c), u + [Line(b)])
  {
    HeardFlows(m, u, b);
    OthersSnoc(m.rfs, m.log.out, c);
    hide Receive, Plain, Wire, Sendings, Received, Merged, OnFirst, PortChars, LineBytes, Others, Sane;
  }

  /** What a byte for the RFS server leaves as it is. */
  lemma AskedKeepsTraffic(m: Loop, c: Char, server: Server)
    requires ServerOk(server) && |Feed(m.got, c.data)| <= |m.buffer|
    ensures var n := Asked(m, c, server);
            && n.end == m.end && n.rfs == m.rfs && n.log.out == m.log.out + [c]
            && n.log.events == m.log.events && n.log.wire == m.log.wire && n.log.ports == m.log.ports
            && n.log.sent == m.log.sent
  {
    hide Feed, Complete, Response;
  }

  lemma AskedFlows(m: Loop, u: seq<Input>, b: byte, c: Char, server: Server)
    requires Sane(m.end) && m.end.kind == Mux && Inward(m, u) && Outward(m, u) && c.sid == m.rfs
    requires ServerOk(server) && |Feed(m.got, c.data)| <= |m.buffer|
    ensures Inward(Asked(Heard(m, b), c, server), u + [Line(b)])
            && Outward(Asked(Heard(m, b), c, server), u + [Line(b)])
  {
    HeardFlows(m, u, b);
    AskedKeepsTraffic(Heard(m, b), c, server);
    OthersSnoc(m.rfs, m.log.out, c);
    assert Others(m.rfs, m.log.out) + [] == Others(m.rfs, m.log.out);
    hide Receive, Plain, Wire, Sendings, Received, Merged, OnFirst, PortChars, LineBytes, Others, Sane, Feed, Asked;
  }

  lemma QuietFlows(m: Loop, u: seq<Input>, b: byte)
    requires Sane(m.end) && m.end.kind == Mux && Inward(m, u) && Outward(m, u)
    ensures Inward(Heard(m, b), u + [Line(b)])
  {
    HeardFlows(m, u, b);
    hide Receive, Received, LineBytes, Others, Sane;
  }

  /** Every turn keeps the traffic in order: one input is taken in, or the next byte of a response is sent. */
  lemma TurnFlows(m: Loop, v: Input, server: Server, u: seq<Input>)
    requires Inv(m) && Orderly(m, v) && ServerOk(server) && Inward(m, u) && Outward(m, u)
    ensures var w := if m.pending == [] then u + [v] else u;
            Inward(Turn(m, v, server), w) && Outward(Turn(m, v, server), w)
  {
    hide Requested, Responded, Answered, Asked, Forwarded, Heard, Sent, Receive, Feed, Sane, PutsOk, Run, Inward,
         Outward;
    if m.pending != [] {
      AnsweredFlows(m, u);
    } else {
      match v
      case Port(c) => PortFlows(m, u, c);
      case Line(b) =>
        var out := Receive(m.end, b).out;
        if out == [] {
          QuietFlows(m, u, b);
          HeardFlows(m, u, b);
        } else if out[0].sid == m.rfs {
          AskedFlows(m, u, b, out[0], server);
        } else {
          ForwardedFlows(m, u, b, out[0]);
        }
    }
  }

  lemma SentEmits(m: Loop, c: Char)
    requires Followed(m) && OnLine(m) && IsService(c.sid)
    ensures OnLine(Sent(m, c))
  {
    hide Sane, PutsOk, Run, SendBytes, AfterSend;
    FreshSane();
    EmittedSnoc(Fresh(Mux), m.log.events, Put(c));
    hide Emitted;
  }

  lemma HeardEmits(m: Loop, b: byte)
    requires Followed(m) && OnLine(m)
    ensures OnLine(Heard(m, b))
  {
    hide Sane, PutsOk, Run, Receive;
    FreshSane();
    EmittedSnoc(Fresh(Mux), m.log.events, Got(b));
    hide Emitted;
  }

  /** Logging more than events and the line makes no difference. */
  lemma SameLine(m: Loop, n: Loop)
    requires OnLine(m) && n.log.events == m.log.events && n.log.wire == m.log.wire
    ensures OnLine(n)
  {
  }

  lemma AnsweredEmits(m: Loop)
    requires Followed(m) && OnLine(m) && m.pending != []
    ensures OnLine(Answered(m))
  {
    hide OnLine, Followed, SendBytes, AfterSend;
    var c := Char(SERVICE_ID_FIRST, m.pending[0]);
    SentEmits(m, c);
    SameLine(Sent(m, c), Answered(m));
  }

  lemma ForwardedEmits(m: Loop, c: Char)
    requires OnLine(m)
    ensures OnLine(Forwarded(m, c))
  {
    hide OnLine;
    SameLine(m, Forwarded(m, c));
  }

  lemma AskedEmits(m: Loop, c: Char, server: Server)
    requires OnLine(m) && ServerOk(server) && |Feed(m.got, c.data)| <= |m.buffer|
    ensures OnLine(Asked(m, c, server))
  {
    hide OnLine, Asked, Feed;
    AskedKeepsTraffic(m, c, server);
    SameLine(m, Asked(m, c, server));
  }

  lemma TurnEmits(m: Loop, v: Input, server: Server)
    requires Inv(m) && Orderly(m, v) && ServerOk(server) && OnLine(m)
    ensures OnLine(Turn(m, v, server))
  {
    hide Requested, Responded, Answered, Asked, Forwarded, Heard, Sent, Receive, Feed, Sane, PutsOk, Run, OnLine;
    if m.pending != [] {
      AnsweredEmits(m);
    } else {
      match v
      case Port(c) => SentEmits(m, c);
      case Line(b) =>
        HeardEmits(m, b);
        HeardIs(m, b);
        var out := Receive(m.end, b).out;
        if out != [] {
          if out[0].sid == m.rfs {
            AskedEmits(Heard(m, b), out[0], server);
          } else {
            ForwardedEmits(Heard(m, b), out[0]);
          }
        }
    }
  }

  lemma HeardIs(m: Loop, b: byte)
    requires Sane(m.end)
    ensures Heard(m, b).got == m.got && Heard(m, b).buffer == m.buffer
  {
    hide Receive;
  }

  // ---- requests and answers ----

  lemma AskedAnswers(m: Loop, c: Char, server: Server)
    requires AllAnswered(m, server) && |m.buffer| == BUFFER_SIZE
    requires ServerOk(server) && |Feed(m.got, c.data)| <= |m.buffer|
    ensures AllAnswered(Asked(m, c, server), server)
  {
    hide Feed, Response, Asked, AnswerTo, ServerOk, SizeFieldOk, SizeField;
    var got := Feed(m.got, c.data);
    var buffer := got + m.buffer[|got|..];
    AskedLog(m, c, server, got, buffer);
    Replies(server, got, buffer);
  }

  lemma Replies(server: Server, q: seq<byte>, b: seq<byte>)
    requires ServerOk(server) && |b| == BUFFER_SIZE && q <= b
    ensures SizeFieldOk(server(b)) ==> SizeField(server(b)) <= |server(b)|
    ensures AnswerTo(server, q, Response(server(b)))
  {
    ServerReply(server, b);
    hide Fills, Response, SizeFieldOk, SizeField;
  }

  /** A request is logged together with its answer. */
  lemma AskedLog(m: Loop, c: Char, server: Server, got: seq<byte>, buffer: seq<byte>)
    requires ServerOk(server) && got == Feed(m.got, c.data) && |got| <= |m.buffer| && buffer == got + m.buffer[|got|..]
    ensures SizeFieldOk(server(buffer)) ==> SizeField(server(buffer)) <= |server(buffer)|
    ensures var n := Asked(m, c, server);
            || (n.log.requests == m.log.requests && n.log.answers == m.log.answers)
            || (n.log.requests == m.log.requests + [got] && n.log.answers == m.log.answers + [Response(server(buffer))])
  {
    ServerReply(server, buffer);
    hide Feed, Complete, Response, SizeFieldOk, SizeField, Fills;
  }

  lemma ServerReply(server: Server, b: seq<byte>)
    requires ServerOk(server)
    ensures |server(b)| == |b| && (SizeFieldOk(server(b)) ==> SizeField(server(b)) <= |server(b)|)
    ensures Fills(server(b), Response(server(b)))
  {
    hide Fills, Response, SizeFieldOk, SizeField;
    ResponseFills(server(b));
  }

  lemma TurnAnswers(m: Loop, v: Input, server: Server)
    requires Inv(m) && Orderly(m, v) && ServerOk(server) && AllAnswered(m, server)
    ensures AllAnswered(Turn(m, v, server), server)
  {
    hide Receive, Feed, Complete, SendBytes, AfterSend, Response, Sane, AnswerTo, Run, PutsOk, Requested, Responded;
    hide Asked;
    if m.pending == [] && v.Line? {
      var out := Receive(m.end, v.b).out;
      if out != [] && out[0].sid == m.rfs { AskedAnswers(Heard(m, v.b), out[0], server); }
    }
  }

  // ---- whole runs ----

  ghost predicate Flows(m: Loop, u: seq<Input>, server: Server) {
    Inv(m) && Inward(m, u) && Outward(m, u) && OnLine(m) && AllAnswered(m, server)
  }

  lemma TakenJoins(u: seq<Input>, v: Input, more: seq<Input>, takes: bool)
    ensures (if takes then u + [v] else u) + more == u + ((if takes then [v] else []) + more)
  {
  }

  lemma {:induction false} AfterFlows(m: Loop, vs: seq<Input>, server: Server, u: seq<Input>)
    requires Sane(m.end) && ServerOk(server) && Runs(m, vs, server) && Flows(m, u, server)
    ensures Flows(After(m, vs, server), u + Taken(m, vs, server), server)
    decreases |vs|
  {
    hide Inv, Inward, Outward, OnLine, AllAnswered, Sane, Turn, Runs, Orderly, Taken, After, Room;
    if vs == [] {
      AfterNone(m, server);
      TakenNone(m, server);
      assert u + [] == u;
    } else {
      MuxRuns.RunStep(m, vs, server);
      TakenStep(m, vs, server);
      TurnFlows(m, vs[0], server, u);
      TurnEmits(m, vs[0], server);
      TurnAnswers(m, vs[0], server);
      var w := if m.pending == [] then u + [vs[0]] else u;
      var n := Turn(m, vs[0], server);
      AfterFlows(n, vs[1..], server, w);
      TakenJoins(u, vs[0], Taken(n, vs[1..], server), m.pending == []);
    }
  }

  lemma StartFlows(rfs: sid, buffer: seq<byte>, server: Server)
    requires |buffer| == BUFFER_SIZE && ServerOk(server)
    ensures Flows(StartLoop(rfs, buffer), [], server)
  {
    StartKeeps(rfs, buffer);
    hide Inv;
    assert OnFirst([]) == [];
  }

  /** In every run from the start: each byte of the line that was taken in has been decoded, and each character that
      was decoded is at the ports unless it is for the RFS server. What was sent interleaves the characters of the ports
      that were taken in with the bytes of the responses; the line carries what the end of the link emits, and unless a
      service ID was asked for, that is all of this, encoded. Each request got the response that the server put into the
      buffer, and these are sent in order. */
  lemma Traffic(rfs: sid, buffer: seq<byte>, vs: seq<Input>, server: Server)
    requires |buffer| == BUFFER_SIZE && ServerOk(server) && Runs(StartLoop(rfs, buffer), vs, server)
    ensures var m, u := Reached(rfs, buffer, vs, server), Taken(StartLoop(rfs, buffer), vs, server);
            && PutsOk(m.log.events) && Run(Fresh(Mux), m.log.events).out == m.log.out
            && Received(m.log.events) == LineBytes(u) && m.log.ports == Others(rfs, m.log.out)
            && Merged(Sendings(m.log.events), PortChars(u), OnFirst(m.log.sent))
            && m.log.wire == Emitted(Fresh(Mux), m.log.events)
            && (FORCE_SID_CHAR !in LineBytes(u) ==> Plain(m.log.wire) == Wire(-1, Sendings(m.log.events)))
            && m.log.sent + m.pending == Flat(m.log.answers) && |m.log.answers| == |m.log.requests|
            && forall i :: 0 <= i < |m.log.answers| ==> AnswerTo(server, m.log.requests[i], m.log.answers[i])
  {
    hide Taken, Runs, After, AnswerTo, Merged, Wire, Plain, Others, Received, Flat, Inv, Run, PutsOk, Sane, Sendings,
         PortChars, LineBytes, StartLoop, Emitted;
    StartFlows(rfs, buffer, server);
    RunKeeps(rfs, buffer, vs, server);
    var start := StartLoop(rfs, buffer);
    AfterFlows(start, vs, server, []);
    assert [] + Taken(start, vs, server) == Taken(start, vs, server);
    InvParts(Reached(rfs, buffer, vs, server));
  }

  lemma InvParts(m: Loop)
    requires Inv(m)
    ensures Sane(Fresh(Mux)) && PutsOk(m.log.events) && Run(Fresh(Mux), m.log.events).out == m.log.out
    ensures m.log.sent + m.pending == Flat(m.log.answers)
  {
    hide PutsOk, Requested, Run, Flat;
  }
}
