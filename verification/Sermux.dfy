/** The multiplexed serial link: escaping encoder and decoder of both ends as step functions. */
module Sermux {
  import opened Bytes

  /** A service ID, or -1 for none. */
  type sid = x: int | -1 <= x < 256

  const SERVICE_ID_FIRST: byte := 0xD0
  const SERVICE_ID_LAST: byte := 0xD7
  const ESCAPE_CHAR: byte := 0xC0
  const FORCE_SID_CHAR: byte := 0xFF
  const ESC_MASK := 0x100

  /** XOR with SERMUX_ESCAPE_XOR_MASK, which is bit 5. */
  function Flip(b: byte): byte { if b / 32 % 2 == 1 then b - 32 else b + 32 }

  predicate IsService(b: int) { SERVICE_ID_FIRST <= b <= SERVICE_ID_LAST }

  predicate NeedsEscape(b: byte) { b == ESCAPE_CHAR || b == FORCE_SID_CHAR || IsService(b) }

  /** Only bit 5 changes. */
  lemma FlipBits(b: byte)
    ensures Flip(b) % 32 == b % 32 && Flip(b) / 32 % 2 != b / 32 % 2 && Flip(b) / 64 == b / 64
  {
    var q: int, r: int := b / 64, b % 32;
    var bit := b / 32 % 2;
    assert b == 64 * q + 32 * bit + r;
    assert Flip(b) == 64 * q + 32 * (1 - bit) + r;
  }

  lemma FlipFacts(b: byte)
    ensures Flip(b) % 32 == b % 32 && Flip(b) / 32 % 2 != b / 32 % 2 && Flip(b) / 64 == b / 64
    ensures Flip(Flip(b)) == b
    ensures NeedsEscape(b) ==> !NeedsEscape(Flip(b))
  {
    FlipBits(b);
  }

  /** The board knows only some services; the multiplexer knows all of them and checks more. */
  datatype Kind = Board(services: nat) | Mux

  predicate Knows(k: Kind, b: int) {
    match k case Board(n) => SERVICE_ID_FIRST <= b < SERVICE_ID_FIRST + n case Mux => IsService(b)
  }

  ghost predicate KindOk(k: Kind) { k.Board? ==> k.services <= 8 }

  /** One end of the link; -1 stands for unknown. */
  datatype End = End(kind: Kind, sidIn: sid, sidOut: sid, gotEsc: bool, lastSent: int, failed: bool)

  function Fresh(k: Kind): End { End(k, -1, -1, false, -1, false) }

  datatype Char = Char(sid: byte, data: byte)

  // ---- sending ----

  /** What lastSent remembers of a character: whether it was escaped, and the byte that was sent. */
  function Remembered(c: byte): (r: int)
    ensures 0 <= r < 2 * ESC_MASK
  {
    if NeedsEscape(c) then ESC_MASK + Flip(c) else c
  }

  /** The bytes that carry a remembered character. */
  function Carried(r: int): seq<byte>
    requires 0 <= r < 2 * ESC_MASK
  {
    if r >= ESC_MASK then [ESCAPE_CHAR, r - ESC_MASK] else [r]
  }

  function SendBytes(e: End, c: Char): seq<byte> {
    (if c.sid != e.sidOut then [c.sid] else []) + Carried(Remembered(c.data))
  }

  function AfterSend(e: End, c: Char): End { e.(sidOut := c.sid, lastSent := Remembered(c.data)) }

  // ---- receiving ----

  /** What one received byte leads to: the new state, the reply sent at once, and the character delivered, if any. */
  datatype Step = Step(end: End, reply: seq<byte>, out: seq<Char>)

  ghost predicate Sane(e: End) {
    && KindOk(e.kind) && (e.sidIn == -1 || Knows(e.kind, e.sidIn)) && (e.sidOut == -1 || IsService(e.sidOut))
    && (e.lastSent == -1 || (0 <= e.lastSent < 2 * ESC_MASK && e.sidOut != -1))
  }

  function Receive(e: End, b: byte): Step
    requires Sane(e)
  {
    if e.failed then Step(e, [], [])
    else if b == ESCAPE_CHAR then Step(e.(gotEsc := true), [], [])
    else if Knows(e.kind, b) then Step(e.(sidIn := b), [], [])
    else if b == FORCE_SID_CHAR && (e.lastSent != -1 || e.kind.Mux?) then
      if e.lastSent == -1 then Step(e.(failed := true), [], [])
      else Step(e.(lastSent := -1), [e.sidOut] + Carried(e.lastSent), [])
    else
      var c := if e.gotEsc then Flip(b) else b;
      if e.kind.Mux? && e.gotEsc && !NeedsEscape(c) then Step(e.(failed := true), [], [])
      else
        var e := e.(gotEsc := false);
        if e.sidIn == -1 then Step(e, [FORCE_SID_CHAR], []) else Step(e, [], [Char(e.sidIn, c)])
  }

  lemma ReceiveSane(e: End, b: byte)
    requires Sane(e)
    ensures Sane(Receive(e, b).end) && Receive(e, b).end.kind == e.kind
  {
    hide Flip;
  }

  lemma SendSane(e: End, c: Char)
    requires Sane(e) && IsService(c.sid)
    ensures Sane(AfterSend(e, c)) && AfterSend(e, c).kind == e.kind
  {
    hide Flip;
  }

  // ---- the wire of a whole run of characters ----

  /** The bytes of a sequence of characters. */
  function Wire(sidOut: sid, cs: seq<Char>): seq<byte>
    decreases |cs|
  {
    if cs == [] then []
    else SendBytes(Fresh(Mux).(sidOut := sidOut), cs[0]) + Wire(cs[0].sid, cs[1..])
  }

  /** The bytes that are not requests to send the service ID again. */
  function Plain(bs: seq<byte>): seq<byte> {
    if bs == [] then [] else PlainByte(bs[0]) + Plain(bs[1..])
  }

  function PlainByte(b: byte): seq<byte> { if b == FORCE_SID_CHAR then [] else [b] }

  lemma PlainStep(bs: seq<byte>)
    ensures Plain(bs) == if bs == [] then [] else PlainByte(bs[0]) + Plain(bs[1..])
  {
  }

  lemma {:induction false} PlainAppend(a: seq<byte>, b: seq<byte>)
    ensures Plain(a + b) == Plain(a) + Plain(b)
  {
    hide *;
    PlainStep(a);
    if a == [] {
      assert a + b == b;
    } else {
      PlainAppend(a[1..], b);
      PlainStep(a + b);
      assert (a + b)[1..] == a[1..] + b;
      assert PlainByte(a[0]) + (Plain(a[1..]) + Plain(b)) == (PlainByte(a[0]) + Plain(a[1..])) + Plain(b);
    }
  }

  // ---- decoding ----

  /** What the decoder has to remember: the current service and whether an escape is pending. */
  datatype Decoder = Decoder(service: sid, esc: bool)

  // ---- how often a service ID is sent ----

  function Ids(bs: seq<byte>): nat { if bs == [] then 0 else (if IsService(bs[0]) then 1 else 0) + Ids(bs[1..]) }

  /** How often the service changes in a sequence of characters. */
  function Changes(s: sid, cs: seq<Char>): nat
    decreases |cs|
  {
    if cs == [] then 0 else (if cs[0].sid != s then 1 else 0) + Changes(cs[0].sid, cs[1..])
  }

  lemma {:induction false} IdsAppend(x: seq<byte>, y: seq<byte>)
    ensures Ids(x + y) == Ids(x) + Ids(y)
  {
    if x == [] {
      assert x + y == y;
    } else {
      IdsAppend(x[1..], y);
      assert (x + y)[1..] == x[1..] + y;
    }
  }

  lemma IdsOfByte(b: byte)
    ensures Ids([b]) == if IsService(b) then 1 else 0
  {
    assert [b][1..] == [];
  }

  lemma IdsOfChar(s: sid, c: Char)
    requires IsService(c.sid)
    ensures Ids(SendBytes(Fresh(Mux).(sidOut := s), c)) == if c.sid != s then 1 else 0
  {
    FlipFacts(c.data);
    var r := Carried(Remembered(c.data));
    IdsOfByte(r[0]);
    IdsOfByte(c.sid);
    if |r| == 2 {
      IdsOfByte(r[1]);
      IdsAppend([r[0]], [r[1]]);
      assert r == [r[0]] + [r[1]];
    } else {
      assert r == [r[0]];
    }
    IdsAppend([c.sid], r);
    assert [] + r == r;
    hide Ids;
  }

  /** A service ID goes out exactly where the service changes. */
  lemma {:induction false} OneIdPerChange(s: sid, cs: seq<Char>)
    requires forall i :: 0 <= i < |cs| ==> IsService(cs[i].sid)
    ensures Ids(Wire(s, cs)) == Changes(s, cs)
    decreases |cs|
  {
    hide SendBytes;
    if cs != [] {
      IdsOfChar(s, cs[0]);
      OneIdPerChange(cs[0].sid, cs[1..]);
      IdsAppend(SendBytes(Fresh(Mux).(sidOut := s), cs[0]), Wire(cs[0].sid, cs[1..]));
    }
  }

  /** The decoder's part of a step, for bytes other than requests. */
  function Decode1(k: Kind, d: Decoder, b: byte): (Decoder, seq<Char>)
  {
    if b == ESCAPE_CHAR then (d.(esc := true), [])
    else if Knows(k, b) then (d.(service := b), [])
    else if d.service == -1 then (d.(esc := false), [])
    else (d.(esc := false), [Char(d.service, if d.esc then Flip(b) else b)])
  }

  function Decode(k: Kind, d: Decoder, bs: seq<byte>): (Decoder, seq<Char>)
    decreases |bs|
  {
    if bs == [] then (d, [])
    else
      var (d1, o1) := Decode1(k, d, bs[0]);
      var (d2, o2) := Decode(k, d1, bs[1..]);
      (d2, o1 + o2)
  }

  lemma DecodeStep(k: Kind, d: Decoder, bs: seq<byte>)
    requires bs != []
    ensures Decode(k, d, bs) == (Decode(k, Decode1(k, d, bs[0]).0, bs[1..]).0,
              Decode1(k, d, bs[0]).1 + Decode(k, Decode1(k, d, bs[0]).0, bs[1..]).1)
  {
    hide Decode1;
  }

  lemma DecodeNone(k: Kind, d: Decoder)
    ensures Decode(k, d, []) == (d, [])
  {
  }

  lemma {:induction false} DecodeAppend(k: Kind, d: Decoder, a: seq<byte>, b: seq<byte>)
    ensures Decode(k, d, a + b) == (Decode(k, Decode(k, d, a).0, b).0,
              Decode(k, d, a).1 + Decode(k, Decode(k, d, a).0, b).1)
    decreases |a|
  {
    hide *;
    if a == [] {
      DecodeNone(k, d);
      assert a + b == b;
      assert [] + Decode(k, d, b).1 == Decode(k, d, b).1;
    } else {
      var d1 := Decode1(k, d, a[0]);
      DecodeStep(k, d, a);
      DecodeStep(k, d, a + b);
      DecodeAppend(k, d1.0, a[1..], b);
      assert (a + b)[1..] == a[1..] + b;
      var o2 := Decode(k, d1.0, a[1..]);
      assert d1.1 + (o2.1 + Decode(k, o2.0, b).1) == (d1.1 + o2.1) + Decode(k, o2.0, b).1;
    }
  }

  /** The characters of one kind of receiver. */
  ghost predicate AllKnown(k: Kind, cs: seq<Char>) { forall i :: 0 <= i < |cs| ==> Knows(k, cs[i].sid) }

  lemma DecodeOne(k: Kind, d: Decoder, b: byte)
    ensures Decode(k, d, [b]) == Decode1(k, d, b)
  {
    assert [b][1..] == [];
    hide Decode1;
    var r := Decode1(k, d, b);
    assert r.1 + [] == r.1;
  }

  lemma DecodeTwo(k: Kind, d: Decoder, b: byte, c: byte)
    ensures Decode(k, d, [b, c]) == (Decode1(k, Decode1(k, d, b).0, c).0,
              Decode1(k, d, b).1 + Decode1(k, Decode1(k, d, b).0, c).1)
  {
    assert [b, c][1..] == [c];
    DecodeOne(k, Decode1(k, d, b).0, c);
    hide Decode1;
  }

  lemma DecodeCarried(k: Kind, s: byte, c: byte)
    requires KindOk(k)
    ensures Decode(k, Decoder(s, false), Carried(Remembered(c))) == (Decoder(s, false), [Char(s, c)])
  {
    FlipFacts(c);
    if NeedsEscape(c) {
      DecodeTwo(k, Decoder(s, false), ESCAPE_CHAR, Flip(c));
      assert Decode1(k, Decoder(s, true), Flip(c)) == (Decoder(s, false), [Char(s, c)]);
      assert [] + [Char(s, c)] == [Char(s, c)];
    } else {
      DecodeOne(k, Decoder(s, false), c);
    }
  }

  /** Decoding the bytes of one character. */
  lemma DecodeChar(k: Kind, s: sid, c: Char)
    requires KindOk(k) && Knows(k, c.sid)
    ensures Decode(k, Decoder(s, false), SendBytes(Fresh(Mux).(sidOut := s), c)) == (Decoder(c.sid, false), [c])
  {
    hide Decode, Carried, Remembered;
    var body := Carried(Remembered(c.data));
    DecodeCarried(k, c.sid, c.data);
    if c.sid != s {
      DecodeOne(k, Decoder(s, false), c.sid);
      DecodeAppend(k, Decoder(s, false), [c.sid], body);
      assert [] + [c] == [c];
    } else {
      assert [] + body == body;
    }
  }

  lemma WireStep(s: sid, cs: seq<Char>)
    ensures Wire(s, cs) == if cs == [] then []
              else SendBytes(Fresh(Mux).(sidOut := s), cs[0]) + Wire(cs[0].sid, cs[1..])
  {
    hide SendBytes;
  }

  /** Decoding the wire of a sequence of characters gives them back. */
  lemma {:induction false} DecodeWire(k: Kind, s: sid, cs: seq<Char>)
    requires KindOk(k) && AllKnown(k, cs)
    ensures Decode(k, Decoder(s, false), Wire(s, cs)) == (Decoder(if cs == [] then s else cs[|cs| - 1].sid, false), cs)
    decreases |cs|
  {
    hide Decode, SendBytes, Wire, Knows, KindOk;
    WireStep(s, cs);
    if cs == [] {
      DecodeNone(k, Decoder(s, false));
    } else {
      var c := cs[0];
      DecodeWire(k, c.sid, cs[1..]);
      var first := SendBytes(Fresh(Mux).(sidOut := s), c);
      DecodeChar(k, s, c);
      DecodeAppend(k, Decoder(s, false), first, Wire(c.sid, cs[1..]));
      assert [c] + cs[1..] == cs;
    }
  }
}
