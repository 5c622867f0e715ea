/** The multiplexer with the RFS server inside, one turn of its service loop at a time. */
module MuxSteps {
  import opened Bytes
  import opened Rpc
  import opened Sermux
  import opened SermuxRuns
  import opened Transport

  /** What a turn takes in: a byte of the serial line or a byte of one of the ports. */
  datatype Input = Line(b: byte) | Port(c: Char)

  /** The RFS server rewrites its buffer in place: the request becomes the response. */
  type Server = seq<byte> -> seq<byte>

  ghost predicate ServerOk(server: Server) {
    forall b: seq<byte> :: |server(b)| == |b| && (SizeFieldOk(server(b)) ==> SizeField(server(b)) <= |b|)
  }

  function Response(b: seq<byte>): seq<byte>
    requires SizeFieldOk(b) ==> SizeField(b) <= |b|
  {
    if SizeFieldOk(b) then b[..SizeField(b)] else []
  }

  /** The state of the loop: the service of the RFS server (-1 without it), its end of the link, the request being
      put together, the part of the response that is still to be sent, the buffer, and the log of the run. */
  datatype Loop = Loop(rfs: sid, end: End, got: seq<byte>, pending: seq<byte>, buffer: seq<byte>, log: Log)

  /** What was received and sent, what was decoded, what went to the ports and to the line, the requests that were
      executed, the responses to them and the bytes of responses that were sent. */
  datatype Log = Log(events: seq<Event>, out: seq<Char>, ports: seq<Char>, wire: seq<byte>, requests: seq<seq<byte>>,
          answers: seq<seq<byte>>, sent: seq<byte>)

  function StartLoop(rfs: sid, buffer: seq<byte>): (m: Loop)
    ensures Sane(m.end)
  {
    Loop(rfs, Fresh(Mux), [], [], buffer, Log([], [], [], [], [], [], []))
  }

  function Sent(m: Loop, c: Char): Loop {
    m.(end := AfterSend(m.end, c),
        log := m.log.(events := m.log.events + [Put(c)], wire := m.log.wire + SendBytes(m.end, c)))
  }

  /** The next byte of the response goes out on the first service. */
  function Answered(m: Loop): Loop
    requires m.pending != []
  {
    var m1 := Sent(m, Char(SERVICE_ID_FIRST, m.pending[0]));
    m1.(pending := m.pending[1..], log := m1.log.(sent := m.log.sent + [m.pending[0]]))
  }

  /** A byte for the RFS server may complete a request, which is then executed. */
  ghost function Asked(m: Loop, c: Char, server: Server): Loop
    requires ServerOk(server) && |Feed(m.got, c.data)| <= |m.buffer|
  {
    var got := Feed(m.got, c.data);
    var buffer := got + m.buffer[|got|..];
    var log := m.log.(out := m.log.out + [c]);
    if Complete(got) then
      var answer := Response(server(buffer));
      m.(got := [], pending := answer, buffer := server(buffer),
          log := log.(requests := log.requests + [got], answers := log.answers + [answer]))
    else m.(got := got, buffer := buffer, log := log)
  }

  function Forwarded(m: Loop, c: Char): Loop { m.(log := m.log.(out := m.log.out + [c], ports := m.log.ports + [c])) }

  function Heard(m: Loop, b: byte): Loop
    requires Sane(m.end)
  {
    var st := Receive(m.end, b);
    m.(end := st.end, log := m.log.(events := m.log.events + [Got(b)], wire := m.log.wire + st.reply))
  }

  /** The request being put together still fits in the buffer. */
  predicate Room(m: Loop, v: Input)
    requires Sane(m.end)
  {
    v.Line? && m.pending == [] ==>
      var out := Receive(m.end, v.b).out;
      out != [] && out[0].sid == m.rfs ==> |Feed(m.got, out[0].data)| <= |m.buffer|
  }

  /** One turn. Bytes of a response come first: while there are any, nothing is taken in. */
  ghost function Turn(m: Loop, v: Input, server: Server): Loop
    requires ServerOk(server) && Sane(m.end) && Room(m, v)
  {
    if m.pending != [] then Answered(m)
    else
      match v
      case Port(c) => Sent(m, c)
      case Line(b) =>
        var out := Receive(m.end, b).out;
        if out == [] then Heard(m, b)
        else if out[0].sid == m.rfs then Asked(Heard(m, b), out[0], server)
        else Forwarded(Heard(m, b), out[0])
  }

  // ---- what every turn keeps ----

  /** The bytes for one service. */
  function BytesFor(s: sid, cs: seq<Char>): seq<byte> {
    if cs == [] then [] else (if cs[0].sid == s then [cs[0].data] else []) + BytesFor(s, cs[1..])
  }

  lemma {:induction false} BytesForAppend(s: sid, cs: seq<Char>, ds: seq<Char>)
    ensures BytesFor(s, cs + ds) == BytesFor(s, cs) + BytesFor(s, ds)
  {
    if cs == [] {
      assert cs + ds == ds;
    } else {
      BytesForAppend(s, cs[1..], ds);
      assert (cs + ds)[1..] == cs[1..] + ds;
      var first: seq<byte> := if cs[0].sid == s then [cs[0].data] else [];
      assert first + (BytesFor(s, cs[1..]) + BytesFor(s, ds)) == (first + BytesFor(s, cs[1..])) + BytesFor(s, ds);
    }
  }

  lemma BytesForOne(s: sid, c: Char)
    ensures BytesFor(s, [c]) == if c.sid == s then [c.data] else []
  {
    assert [c][1..] == [];
  }

  function Flat(rs: seq<seq<byte>>): seq<byte> { if rs == [] then [] else Flat(rs[..|rs| - 1]) + rs[|rs| - 1] }

  lemma FlatSnoc(rs: seq<seq<byte>>, r: seq<byte>)
    ensures Flat(rs + [r]) == Flat(rs) + r
  {
    assert (rs + [r])[..|rs|] == rs;
  }

  lemma {:induction false} RunSnoc(e: End, vs: seq<Event>, v: Event)
    requires Sane(e) && PutsOk(vs) && PutOk(v)
    ensures PutsOk(vs + [v])
    ensures Run(e, vs + [v]) == Outcome(Happen(Run(e, vs).end, v).end, Run(e, vs).out + Happen(Run(e, vs).end, v).out)
    decreases |vs|
  {
    hide Happen, PutOk, Sane;
    assert PutsOk(vs + [v]);
    if vs == [] {
      OneEvent(e, v);
      assert vs + [v] == [v];
    } else {
      assert PutOk(vs[0]) && PutsOk(vs[1..]);
      HappenSane(e, vs[0]);
      var o1 := Happen(e, vs[0]);
      RunSnoc(o1.end, vs[1..], v);
      assert (vs + [v])[1..] == vs[1..] + [v];
      var r := Run(o1.end, vs[1..]);
      assert o1.out + (r.out + Happen(r.end, v).out) == (o1.out + r.out) + Happen(r.end, v).out;
    }
  }

  lemma OneEvent(e: End, v: Event)
    requires Sane(e) && PutOk(v)
    ensures PutsOk([v]) && Run(e, [v]) == Outcome(Happen(e, v).end, Happen(e, v).out)
    ensures Run(e, []) == Outcome(e, [])
  {
    HappenSane(e, v);
    assert [v][1..] == [];
    var o := Happen(e, v);
    assert o.out + [] == o.out;
    hide Happen, PutOk;
  }
}
