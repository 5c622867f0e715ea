/** Runs of one end of the link: what it delivers depends only on the plain bytes it receives. */
module SermuxRuns {
  import opened Bytes
  import opened Sermux

  /** What happens at one end: a byte comes in, or a character is sent. */
  datatype Event = Got(b: byte) | Put(c: Char)

  datatype Outcome = Outcome(end: End, out: seq<Char>)

  /** After one event, and what it delivered. */
  ghost function Happen(e: End, v: Event): Outcome
    requires Sane(e)
  {
    match v
    case Got(b) => Outcome(Receive(e, b).end, Receive(e, b).out)
    case Put(c) => Outcome(AfterSend(e, c), [])
  }

  /** Characters go to known services. */
  predicate PutOk(v: Event) { v.Put? ==> IsService(v.c.sid) }

  ghost predicate PutsOk(vs: seq<Event>) { forall i :: 0 <= i < |vs| ==> PutOk(vs[i]) }

  lemma HappenSane(e: End, v: Event)
    requires Sane(e) && PutOk(v)
    ensures Sane(Happen(e, v).end) && Happen(e, v).end.kind == e.kind
  {
    match v
    case Got(b) => ReceiveSane(e, b);
    case Put(c) => SendSane(e, c);
  }

  ghost function Run(e: End, vs: seq<Event>): (o: Outcome)
    requires Sane(e) && PutsOk(vs)
    ensures Sane(o.end) && o.end.kind == e.kind
    decreases |vs|
  {
    if vs == [] then Outcome(e, [])
    else
      HappenSane(e, vs[0]);
      var o1 := Happen(e, vs[0]);
      var o2 := Run(o1.end, vs[1..]);
      Outcome(o2.end, o1.out + o2.out)
  }

  /** A request for the service ID finds nothing to send again, and it is not a board that waits for a service ID
      itself and only asks in return. */
  predicate Harmful(e: End, v: Event) { v == Got(FORCE_SID_CHAR) && e.lastSent == -1 && (e.kind.Mux? || e.sidIn != -1) }

  /** The number of such requests in a run. */
  ghost function Harms(e: End, vs: seq<Event>): nat
    requires Sane(e) && PutsOk(vs)
    decreases |vs|
  {
    if vs == [] then 0
    else
      HappenSane(e, vs[0]);
      (if Harmful(e, vs[0]) then 1 else 0) + Harms(Happen(e, vs[0]).end, vs[1..])
  }

  function Received(vs: seq<Event>): seq<byte> {
    if vs == [] then [] else (if vs[0].Got? then [vs[0].b] else []) + Received(vs[1..])
  }

  /** Every escape is followed by a byte that had to be escaped, service IDs aside. */
  predicate Legal(esc: bool, bs: seq<byte>)
    decreases |bs|
  {
    if bs == [] then true
    else if bs[0] == ESCAPE_CHAR then Legal(true, bs[1..])
    else if IsService(bs[0]) then Legal(esc, bs[1..])
    else (!esc || NeedsEscape(Flip(bs[0]))) && Legal(false, bs[1..])
  }

  lemma {:induction false} LegalAppend(esc: bool, a: seq<byte>, b: seq<byte>)
    requires Legal(esc, a + b)
    ensures Legal(esc, a)
    decreases |a|
  {
    if a != [] {
      assert (a + b)[1..] == a[1..] + b;
      hide Flip, NeedsEscape;
      LegalAppend(if a[0] == ESCAPE_CHAR then true else if IsService(a[0]) then esc else false, a[1..], b);
    }
  }

  lemma LegalChar(s: sid, c: Char, rest: seq<byte>)
    requires IsService(c.sid) && Legal(false, rest)
    ensures Legal(false, SendBytes(Fresh(Mux).(sidOut := s), c) + rest)
  {
    FlipFacts(c.data);
    var r := Remembered(c.data);
    var body := Carried(r);
    assert Legal(false, body + rest) by {
      if NeedsEscape(c.data) {
        assert (body + rest)[1..] == [Flip(c.data)] + rest;
        assert ([Flip(c.data)] + rest)[1..] == rest;
      } else {
        assert (body + rest)[1..] == rest;
      }
    }
    if c.sid != s {
      assert ([c.sid] + body) + rest == [c.sid] + (body + rest);
      assert ([c.sid] + (body + rest))[1..] == body + rest;
    } else {
      assert [] + body == body;
    }
  }

  ghost predicate AllServices(cs: seq<Char>) { forall i :: 0 <= i < |cs| ==> IsService(cs[i].sid) }

  lemma {:induction false} LegalWire(s: sid, cs: seq<Char>)
    requires AllServices(cs)
    ensures Legal(false, Wire(s, cs))
    decreases |cs|
  {
    if cs != [] {
      LegalWire(cs[0].sid, cs[1..]);
      LegalChar(s, cs[0], Wire(cs[0].sid, cs[1..]));
    }
  }

  /** A receiver without a service has a service ID next among the plain bytes, and no escape is pending. */
  predicate Led(e: End, bs: seq<byte>) { e.sidIn == -1 ==> !e.gotEsc && (bs == [] || Knows(e.kind, bs[0])) }

  /** The plain bytes of an event. */
  function First(v: Event): seq<byte> { Plain(if v.Got? then [v.b] else []) }

  lemma FirstIs(v: Event)
    ensures First(v) == if v.Got? && v.b != FORCE_SID_CHAR then [v.b] else []
  {
    if v.Got? {
      assert [v.b][1..] == [];
      assert Plain([v.b]) == PlainByte(v.b) + Plain([]);
      assert PlainByte(v.b) + [] == PlainByte(v.b);
    }
  }

  lemma PlainHead(vs: seq<Event>)
    requires vs != []
    ensures Plain(Received(vs)) == First(vs[0]) + Plain(Received(vs[1..]))
  {
    PlainAppend(if vs[0].Got? then [vs[0].b] else [], Received(vs[1..]));
  }

  /** One harmless event in terms of the decoder alone. */
  lemma HappenDecodes(e: End, v: Event, rest: seq<byte>)
    requires Sane(e) && !e.failed && PutOk(v) && !Harmful(e, v) && Legal(e.gotEsc, First(v) + rest)
             && Led(e, First(v) + rest)
    ensures var o := Happen(e, v);
            var d := Decode(e.kind, Decoder(e.sidIn, e.gotEsc), First(v));
            && !o.end.failed && Decoder(o.end.sidIn, o.end.gotEsc) == d.0 && o.out == d.1
            && Legal(o.end.gotEsc, rest) && Led(o.end, rest)
  {
    FirstIs(v);
    hide First, Flip;
    if First(v) == [] {
      assert [] + rest == rest;
      DecodeNone(e.kind, Decoder(e.sidIn, e.gotEsc));
    } else {
      assert ([v.b] + rest)[1..] == rest;
      DecodeOne(e.kind, Decoder(e.sidIn, e.gotEsc), v.b);
      hide Decode;
    }
  }

  /** Without harmful requests a run delivers what the decoder makes of the plain bytes. */
  lemma {:induction false} HarmlessRun(e: End, vs: seq<Event>)
    requires Sane(e) && !e.failed && PutsOk(vs) && Legal(e.gotEsc, Plain(Received(vs))) && Led(e, Plain(Received(vs)))
    requires Harms(e, vs) == 0
    ensures !Run(e, vs).end.failed
            && Run(e, vs).out == Decode(e.kind, Decoder(e.sidIn, e.gotEsc), Plain(Received(vs))).1
    decreases |vs|
  {
    if vs != [] {
      PlainHead(vs);
      HappenSane(e, vs[0]);
      HappenDecodes(e, vs[0], Plain(Received(vs[1..])));
      HarmlessRun(Happen(e, vs[0]).end, vs[1..]);
      DecodeAppend(e.kind, Decoder(e.sidIn, e.gotEsc), First(vs[0]), Plain(Received(vs[1..])));
      hide Decode, Plain, Happen, Legal, Led, First, PutOk;
    }
  }

  lemma {:induction false} FailedRun(e: End, vs: seq<Event>)
    requires Sane(e) && e.failed && PutsOk(vs)
    ensures Run(e, vs).end.failed && Run(e, vs).out == []
    decreases |vs|
  {
    if vs != [] {
      HappenSane(e, vs[0]);
      FailedRun(Happen(e, vs[0]).end, vs[1..]);
    }
  }

  /** The multiplexer stops exactly at a harmful request; what it has delivered until then is right. */
  lemma {:induction false} MuxRun(e: End, vs: seq<Event>)
    requires Sane(e) && !e.failed && PutsOk(vs) && Legal(e.gotEsc, Plain(Received(vs))) && Led(e, Plain(Received(vs)))
    requires e.kind.Mux?
    ensures Run(e, vs).end.failed <==> Harms(e, vs) > 0
    ensures Run(e, vs).out <= Decode(e.kind, Decoder(e.sidIn, e.gotEsc), Plain(Received(vs))).1
    decreases |vs|
  {
    if vs != [] {
      PlainHead(vs);
      HappenSane(e, vs[0]);
      var o := Happen(e, vs[0]);
      if Harmful(e, vs[0]) {
        FailedRun(o.end, vs[1..]);
      } else {
        HappenDecodes(e, vs[0], Plain(Received(vs[1..])));
        MuxRun(o.end, vs[1..]);
        DecodeAppend(e.kind, Decoder(e.sidIn, e.gotEsc), First(vs[0]), Plain(Received(vs[1..])));
      }
      hide Decode, Plain, Legal, Led, First, PutOk;
    }
  }

  lemma HappenLegal(e: End, v: Event, rest: seq<byte>)
    requires Sane(e) && !e.failed && PutOk(v) && e.kind.Mux? && !Harmful(e, v)
    ensures var o := Happen(e, v);
            Legal(e.gotEsc, First(v) + rest) <==> !o.end.failed && Legal(o.end.gotEsc, rest)
  {
    FirstIs(v);
    hide First, Flip;
    if First(v) == [] {
      assert [] + rest == rest;
    } else {
      assert ([v.b] + rest)[1..] == rest;
    }
  }

  /** On any input whatever, the multiplexer stops exactly if a request is harmful or an escape is followed by a byte
      that had not to be escaped. */
  lemma {:induction false} StopsIff(e: End, vs: seq<Event>)
    requires Sane(e) && !e.failed && PutsOk(vs) && e.kind.Mux?
    ensures Run(e, vs).end.failed <==> Harms(e, vs) > 0 || !Legal(e.gotEsc, Plain(Received(vs)))
    decreases |vs|
  {
    if vs != [] {
      PlainHead(vs);
      HappenSane(e, vs[0]);
      var o := Happen(e, vs[0]);
      if Harmful(e, vs[0]) {
        FailedRun(o.end, vs[1..]);
      } else {
        HappenLegal(e, vs[0], Plain(Received(vs[1..])));
        if o.end.failed { FailedRun(o.end, vs[1..]); } else { StopsIff(o.end, vs[1..]); }
      }
      hide Plain, Legal, First, PutOk;
    }
  }

  // ---- what an end emits ----

  ghost function Emits(e: End, v: Event): seq<byte>
    requires Sane(e)
  {
    match v
    case Got(b) => Receive(e, b).reply
    case Put(c) => SendBytes(e, c)
  }

  /** The bytes that go out in a run. */
  ghost function Emitted(e: End, vs: seq<Event>): seq<byte>
    requires Sane(e) && PutsOk(vs)
    decreases |vs|
  {
    if vs == [] then []
    else
      HappenSane(e, vs[0]);
      Emits(e, vs[0]) + Emitted(Happen(e, vs[0]).end, vs[1..])
  }

  lemma {:induction false} EmittedSnoc(e: End, vs: seq<Event>, v: Event)
    requires Sane(e) && PutsOk(vs) && PutOk(v)
    ensures PutsOk(vs + [v]) && Emitted(e, vs + [v]) == Emitted(e, vs) + Emits(Run(e, vs).end, v)
    decreases |vs|
  {
    hide Emits, PutOk, Sane;
    assert PutsOk(vs + [v]);
    if vs == [] {
      assert vs + [v] == [v];
      OneEmits(e, v);
      assert [] + Emits(e, v) == Emits(e, v);
    } else {
      assert PutOk(vs[0]) && PutsOk(vs[1..]) && (vs + [v])[1..] == vs[1..] + [v];
      HappenSane(e, vs[0]);
      var n := Happen(e, vs[0]).end;
      EmittedSnoc(n, vs[1..], v);
      hide Happen;
      var last := Emits(Run(n, vs[1..]).end, v);
      assert Emits(e, vs[0]) + (Emitted(n, vs[1..]) + last) == (Emits(e, vs[0]) + Emitted(n, vs[1..])) + last;
    }
  }

  lemma OneEmits(e: End, v: Event)
    requires Sane(e) && PutOk(v)
    ensures PutsOk([v]) && Emitted(e, [v]) == Emits(e, v)
  {
    HappenSane(e, v);
    assert [v][1..] == [] && Emits(e, v) + [] == Emits(e, v);
    hide Emits, Happen, PutOk;
  }

  /** How often a character is sent again in answer to a request. */
  ghost function Repeats(e: End, vs: seq<Event>): nat
    requires Sane(e) && PutsOk(vs)
    decreases |vs|
  {
    if vs == [] then 0
    else
      HappenSane(e, vs[0]);
      (if vs[0].Got? && |Receive(e, vs[0].b).reply| > 1 then 1 else 0) + Repeats(Happen(e, vs[0]).end, vs[1..])
  }

  function CountPuts(vs: seq<Event>): nat {
    if vs == [] then 0 else (if vs[0].Put? then 1 else 0) + CountPuts(vs[1..])
  }

  /** Only a request is answered with a character, and then that one is forgotten. */
  lemma ReplyForgets(e: End, b: byte)
    requires Sane(e)
    ensures var st := Receive(e, b);
            if |st.reply| > 1 then b == FORCE_SID_CHAR && e.lastSent != -1 && st.end.lastSent == -1
            else st.end.lastSent == e.lastSent
  {
    hide Flip;
  }

  /** No character is sent again more than once, however often the service ID is asked for. */
  lemma {:induction false} AgainOnce(e: End, vs: seq<Event>)
    requires Sane(e) && PutsOk(vs)
    ensures Repeats(e, vs) <= CountPuts(vs) + if e.lastSent == -1 then 0 else 1
    decreases |vs|
  {
    if vs != [] {
      HappenSane(e, vs[0]);
      if vs[0].Got? { ReplyForgets(e, vs[0].b); }
      AgainOnce(Happen(e, vs[0]).end, vs[1..]);
      hide Receive, PutOk;
    }
  }

  /** One event at a board delivers as many characters as the decoder finds, and one more if it is harmful. */
  lemma BoardStep(e: End, v: Event, esc: bool)
    requires Sane(e) && !e.failed && PutOk(v) && e.kind.Board?
    ensures var o := Happen(e, v);
            var d := Decode(e.kind, Decoder(e.sidIn, esc), First(v));
            && !o.end.failed && d.0.service == o.end.sidIn && |o.out| == |d.1| + if Harmful(e, v) then 1 else 0
  {
    FirstIs(v);
    hide First, Flip;
    if First(v) == [] {
      DecodeNone(e.kind, Decoder(e.sidIn, esc));
    } else {
      DecodeOne(e.kind, Decoder(e.sidIn, esc), v.b);
      hide Decode;
    }
  }

  /** A board goes on, and delivers one character too many for every harmful request. */
  lemma {:induction false} BoardRun(e: End, vs: seq<Event>, esc: bool)
    requires Sane(e) && !e.failed && PutsOk(vs) && e.kind.Board?
    ensures !Run(e, vs).end.failed
    ensures |Run(e, vs).out| == |Decode(e.kind, Decoder(e.sidIn, esc), Plain(Received(vs))).1| + Harms(e, vs)
    decreases |vs|
  {
    if vs != [] {
      PlainHead(vs);
      HappenSane(e, vs[0]);
      BoardStep(e, vs[0], esc);
      var d := Decode(e.kind, Decoder(e.sidIn, esc), First(vs[0])).0;
      BoardRun(Happen(e, vs[0]).end, vs[1..], d.esc);
      DecodeAppend(e.kind, Decoder(e.sidIn, esc), First(vs[0]), Plain(Received(vs[1..])));
      hide Decode, Plain, Happen, First, PutOk, Harmful;
    }
  }

  /** A run delivers what the decoder makes of the plain bytes received, whatever else is sent, asked and answered
      meanwhile, exactly if no request is harmful. */
  lemma RunDecodes(e: End, vs: seq<Event>)
    requires Sane(e) && !e.failed && PutsOk(vs) && Legal(e.gotEsc, Plain(Received(vs))) && Led(e, Plain(Received(vs)))
    ensures var o := Run(e, vs);
            !o.end.failed && o.out == Decode(e.kind, Decoder(e.sidIn, e.gotEsc), Plain(Received(vs))).1 <==>
                Harms(e, vs) == 0
  {
    hide *;
    if Harms(e, vs) == 0 {
      HarmlessRun(e, vs);
    } else if e.kind.Mux? {
      MuxRun(e, vs);
    } else {
      BoardRun(e, vs, e.gotEsc);
    }
  }

  lemma WireLed(k: Kind, cs: seq<Char>, bs: seq<byte>, rest: seq<byte>)
    requires AllKnown(k, cs) && bs + rest == Wire(-1, cs)
    ensures Led(Fresh(k), bs)
  {
    if bs != [] {
      WireStep(-1, cs);
      assert Wire(-1, cs)[0] == bs[0];
    }
    hide Carried, Remembered;
  }

  /** From the initial state, any interleaving of characters comes out as it was sent, with requests for the service ID
      inserted anywhere and characters sent in the other direction in between, exactly if no request is harmful. While
      only a part of the bytes has arrived, what has come out is a prefix. The multiplexer stops at a harmful request
      and at nothing else; a board delivers a character too many for each. */
  lemma Faithful(k: Kind, cs: seq<Char>, vs: seq<Event>, rest: seq<byte>)
    requires KindOk(k) && AllKnown(k, cs) && PutsOk(vs) && Plain(Received(vs)) + rest == Wire(-1, cs)
    ensures Sane(Fresh(k))
    ensures Harms(Fresh(k), vs) == 0 ==> !Run(Fresh(k), vs).end.failed && Run(Fresh(k), vs).out <= cs
    ensures rest == [] ==> (!Run(Fresh(k), vs).end.failed && Run(Fresh(k), vs).out == cs <==> Harms(Fresh(k), vs) == 0)
    ensures k.Mux? ==> Run(Fresh(k), vs).out <= cs && (Run(Fresh(k), vs).end.failed <==> Harms(Fresh(k), vs) > 0)
    ensures k.Board? && rest == [] ==> |Run(Fresh(k), vs).out| == |cs| + Harms(Fresh(k), vs)
  {
    hide Decode, Wire, Plain, Legal, Run, Harms, Led, Received, PutsOk;
    var bs := Plain(Received(vs));
    assert AllServices(cs);
    LegalWire(-1, cs);
    LegalAppend(false, bs, rest);
    WireLed(k, cs, bs, rest);
    RunDecodes(Fresh(k), vs);
    DecodeWire(k, -1, cs);
    DecodeAppend(k, Decoder(-1, false), bs, rest);
    if rest == [] { assert bs + rest == bs; }
    if k.Mux? { MuxRun(Fresh(k), vs); } else { BoardRun(Fresh(k), vs, false); }
  }

  // ---- the two ends at a request that finds nothing to send again ----

  function Three(a: byte, b: byte, c: byte): seq<Event> { [Got(a), Got(b), Got(c)] }

  lemma RunStep(e: End, vs: seq<Event>)
    requires Sane(e) && PutsOk(vs) && vs != []
    ensures Sane(Happen(e, vs[0]).end)
    ensures Run(e, vs) == Outcome(Run(Happen(e, vs[0]).end, vs[1..]).end,
              Happen(e, vs[0]).out + Run(Happen(e, vs[0]).end, vs[1..]).out)
  {
    HappenSane(e, vs[0]);
    hide Happen;
  }

  lemma RunThree(e: End, a: byte, b: byte, c: byte)
    requires Sane(e)
    ensures var o1 := Happen(e, Got(a));
            && Sane(o1.end)
            && var o2 := Happen(o1.end, Got(b));
               && Sane(o2.end)
               && var o3 := Happen(o2.end, Got(c));
                  Sane(o3.end) && Run(e, Three(a, b, c)) == Outcome(o3.end, o1.out + o2.out + o3.out)
  {
    hide Happen;
    RunStep(e, Three(a, b, c));
    assert Three(a, b, c)[1..] == [Got(b), Got(c)] && [Got(b), Got(c)][1..] == [Got(c)] && [Got(c)][1..] == [];
    var e1 := Happen(e, Got(a)).end;
    RunStep(e1, [Got(b), Got(c)]);
    var e2 := Happen(e1, Got(b)).end;
    RunStep(e2, [Got(c)]);
    assert Run(Happen(e2, Got(c)).end, []) == Outcome(Happen(e2, Got(c)).end, []);
    var o3 := Happen(e2, Got(c)).out;
    assert o3 + [] == o3;
  }

  /** A board that has sent nothing gets the service ID and the character 'A' with a request between them, and delivers
      the request as data as well; the multiplexer gets the same and stops. */
  lemma RequestAsData()
    ensures Plain(Received(Three(0xD0, 0xFF, 65))) == Wire(-1, [Char(0xD0, 65)])
    ensures Sane(Fresh(Board(1))) && Run(Fresh(Board(1)), Three(0xD0, 0xFF, 65)).out
              == [Char(0xD0, 0xFF), Char(0xD0, 65)]
    ensures Sane(Fresh(Mux)) && Run(Fresh(Mux), Three(0xD0, 0xFF, 65)).end.failed
  {
    hide Plain, Received, Wire, Run, Three, Receive, SendBytes, Harms, PutsOk;
    BoardTakes();
    MuxStops();
    ReceivedThree(0xD0, 0xFF, 65);
    PlainThree(0xD0, 0xFF, 65);
    WireA();
  }

  lemma WireA()
    ensures Wire(-1, [Char(0xD0, 65)]) == [0xD0, 65]
  {
    hide Wire;
    WireStep(-1, [Char(0xD0, 65)]);
    WireStep(0xD0, []);
    assert [Char(0xD0, 65)][1..] == [];
  }

  lemma BoardTakes()
    ensures Sane(Fresh(Board(1))) && Run(Fresh(Board(1)), Three(0xD0, 0xFF, 65)).out
              == [Char(0xD0, 0xFF), Char(0xD0, 65)]
  {
    hide Run, Three, Harms;
    RunThree(Fresh(Board(1)), 0xD0, 0xFF, 65);
  }

  lemma MuxStops()
    ensures Sane(Fresh(Mux)) && Run(Fresh(Mux), Three(0xD0, 0xFF, 65)).end.failed
  {
    hide Run, Three, Harms;
    RunThree(Fresh(Mux), 0xD0, 0xFF, 65);
  }

  lemma ReceivedStep(v: Event, vs: seq<Event>)
    ensures Received([v] + vs) == (if v.Got? then [v.b] else []) + Received(vs)
  {
    assert ([v] + vs)[1..] == vs;
  }

  lemma ReceivedThree(a: byte, b: byte, c: byte)
    ensures Received(Three(a, b, c)) == [a, b, c]
  {
    assert Three(a, b, c) == [Got(a)] + ([Got(b)] + ([Got(c)] + []));
    assert Received([]) == [];
    hide Received, Three;
    ReceivedStep(Got(a), [Got(b)] + ([Got(c)] + []));
    ReceivedStep(Got(b), [Got(c)] + []);
    ReceivedStep(Got(c), []);
  }

  lemma PlainNext(b: byte, bs: seq<byte>)
    ensures Plain([b] + bs) == PlainByte(b) + Plain(bs)
  {
    assert ([b] + bs)[1..] == bs;
    hide PlainByte;
  }

  lemma PlainThree(a: byte, b: byte, c: byte)
    ensures Plain([a, b, c]) == PlainByte(a) + PlainByte(b) + PlainByte(c)
  {
    assert [a, b, c] == [a] + ([b] + ([c] + []));
    assert Plain([]) == [];
    hide Plain, PlainByte;
    PlainNext(a, [b] + ([c] + []));
    PlainNext(b, [c] + []);
    PlainNext(c, []);
    assert PlainByte(a) + (PlainByte(b) + (PlainByte(c) + [])) == PlainByte(a) + PlainByte(b) + PlainByte(c);
  }
}
