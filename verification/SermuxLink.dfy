/** Both ends and the two channels between them: the handshake that restores a forgotten service ID. */
module SermuxLink {
  import opened Bytes
  import opened Sermux

  /** The link: both ends, the bytes under way in each direction, and what has been sent and delivered. */
  datatype Link = Link(a: End, b: End, ab: seq<byte>, ba: seq<byte>, sentA: seq<Char>, sentB: seq<Char>,
          gotA: seq<Char>, gotB: seq<Char>)

  /** Requests under way. */
  function Requests(bs: seq<byte>): nat {
    if bs == [] then 0 else (if bs[0] == FORCE_SID_CHAR then 1 else 0) + Requests(bs[1..])
  }

  lemma {:induction false} RequestsAppend(x: seq<byte>, y: seq<byte>)
    ensures Requests(x + y) == Requests(x) + Requests(y)
  {
    if x == [] {
      assert x + y == y;
    } else {
      RequestsAppend(x[1..], y);
      assert (x + y)[1..] == x[1..] + y;
    }
  }

  lemma {:induction false} NoRequests(x: seq<byte>)
    requires forall i :: 0 <= i < |x| ==> x[i] != FORCE_SID_CHAR
    ensures Requests(x) == 0 && Plain(x) == x
  {
    if x != [] {
      NoRequests(x[1..]);
      assert [x[0]] + x[1..] == x;
    }
  }

  lemma PlainBytes(s: sid, c: Char)
    requires IsService(c.sid)
    ensures Requests(SendBytes(Fresh(Mux).(sidOut := s), c)) == 0
            && Plain(SendBytes(Fresh(Mux).(sidOut := s), c)) == SendBytes(Fresh(Mux).(sidOut := s), c)
    ensures Requests([c.sid] + Carried(Remembered(c.data))) == 0
            && Plain([c.sid] + Carried(Remembered(c.data))) == [c.sid] + Carried(Remembered(c.data))
  {
    FlipFacts(c.data);
    NoRequests(SendBytes(Fresh(Mux).(sidOut := s), c));
    NoRequests([c.sid] + Carried(Remembered(c.data)));
  }

  // ---- one direction ----

  /** Nothing is under way from s to r, and r knows the right service or none. */
  ghost predicate Idle(s: End, r: End, data: seq<byte>, reqs: nat, sent: seq<Char>, got: seq<Char>) {
    got == sent && data == [] && reqs == 0 && !r.gotEsc && (r.sidIn == -1 || r.sidIn == s.sidOut)
  }

  /** r has received the last character without knowing for whom, and has asked for it again. */
  ghost predicate Asked(s: End, r: End, c: Char, data: seq<byte>, reqs: nat) {
    reqs == 1 && data == [] && r.sidIn == -1 && !r.gotEsc && s.lastSent == Remembered(c.data)
  }

  /** The last character, or what is left of it, is under way, maybe for the second time. */
  ghost predicate Flying(s: End, r: End, c: Char, data: seq<byte>, reqs: nat) {
    var m := Remembered(c.data);
    && reqs == 0 && (s.lastSent == m || s.lastSent == -1)
    && (|| (data == [c.sid] + Carried(m) && !r.gotEsc)
        || (data == Carried(m) && !r.gotEsc && (r.sidIn == c.sid || (s.lastSent == m && r.sidIn == -1)))
        || (m >= ESC_MASK && data == [m - ESC_MASK] && r.gotEsc
             && (r.sidIn == c.sid || (s.lastSent == m && r.sidIn == -1))))
  }

  ghost predicate Direction(s: End, r: End, data: seq<byte>, reqs: nat, sent: seq<Char>, got: seq<Char>) {
    || Idle(s, r, data, reqs, sent, got)
    || (sent != [] && var c := sent[|sent| - 1];
        got == sent[..|sent| - 1] && s.sidOut == c.sid && Knows(r.kind, c.sid)
        && (Asked(s, r, c, data, reqs) || Flying(s, r, c, data, reqs)))
  }

  /** Sending a character while the direction is idle. */
  lemma SendStep(s: End, r: End, sent: seq<Char>, got: seq<Char>, c: Char)
    requires Sane(s) && Idle(s, r, [], 0, sent, got) && KindOk(r.kind) && Knows(r.kind, c.sid)
    ensures Direction(AfterSend(s, c), r, SendBytes(s, c), 0, sent + [c], got)
  {
    var m := Remembered(c.data);
    assert [] + Carried(m) == Carried(m);
    assert (sent + [c])[..|sent|] == sent;
    assert Flying(AfterSend(s, c), r, c, SendBytes(s, c), 0);
  }

  /** What the delivery of a plain byte must do for its direction. */
  ghost predicate Delivers(s: End, r: End, data: seq<byte>, reqs: nat, sent: seq<Char>, got: seq<Char>)
    requires data != [] && Sane(r)
  {
    var st := Receive(r, data[0]);
    && !st.end.failed && (st.reply == [] || st.reply == [FORCE_SID_CHAR])
    && st.end.sidOut == r.sidOut && st.end.lastSent == r.lastSent
    && Direction(s, st.end, data[1..], reqs + Requests(st.reply), sent, got + st.out)
    && DirectionRank(s, st.end, data[1..], sent) + 5 * Requests(st.reply) < DirectionRank(s, r, data, sent)
  }

  lemma ServiceArrives(s: End, r: End, sent: seq<Char>, got: seq<Char>, c: Char)
    requires Sane(s) && Sane(r) && !r.failed && !r.gotEsc && sent != [] && c == sent[|sent| - 1] && Knows(r.kind, c.sid)
    requires got == sent[..|sent| - 1] && s.sidOut == c.sid
             && (s.lastSent == Remembered(c.data) || s.lastSent == -1)
    ensures Delivers(s, r, [c.sid] + Carried(Remembered(c.data)), 0, sent, got)
  {
    var data := [c.sid] + Carried(Remembered(c.data));
    assert data[1..] == Carried(Remembered(c.data));
    assert got + [] == got;
    hide Remembered, Carried;
  }

  /** The first byte of a character arrives: an escape, or the character itself. */
  lemma CharArrives(s: End, r: End, sent: seq<Char>, got: seq<Char>, c: Char)
    requires Sane(s) && Sane(r) && !r.failed && !r.gotEsc && sent != [] && c == sent[|sent| - 1] && Knows(r.kind, c.sid)
    requires got == sent[..|sent| - 1] && s.sidOut == c.sid
    requires Flying(s, r, c, Carried(Remembered(c.data)), 0)
             && (r.sidIn == c.sid || (s.lastSent == Remembered(c.data) && r.sidIn == -1))
    ensures Delivers(s, r, Carried(Remembered(c.data)), 0, sent, got)
  {
    var m := Remembered(c.data);
    FlipFacts(c.data);
    assert sent[..|sent| - 1] + [c] == sent;
    assert got + [] == got;
    assert [FORCE_SID_CHAR][1..] == [];
    assert m >= ESC_MASK ==> Carried(m)[1..] == [m - ESC_MASK];
    assert m < ESC_MASK ==> Carried(m)[1..] == [];
  }

  /** The byte behind an escape arrives. */
  lemma EscapedArrives(s: End, r: End, sent: seq<Char>, got: seq<Char>, c: Char)
    requires Sane(s) && Sane(r) && !r.failed && r.gotEsc && sent != [] && c == sent[|sent| - 1] && Knows(r.kind, c.sid)
    requires got == sent[..|sent| - 1] && s.sidOut == c.sid
    requires Remembered(c.data) >= ESC_MASK
    requires s.lastSent == Remembered(c.data) || s.lastSent == -1
    requires r.sidIn == c.sid || (s.lastSent == Remembered(c.data) && r.sidIn == -1)
    ensures Delivers(s, r, [Remembered(c.data) - ESC_MASK], 0, sent, got)
  {
    FlipFacts(c.data);
    assert sent[..|sent| - 1] + [c] == sent;
    assert got + [] == got;
    assert [FORCE_SID_CHAR][1..] == [];
    assert [Remembered(c.data) - ESC_MASK][1..] == [];
  }

  /** One plain byte is delivered. */
  lemma DataStep(s: End, r: End, data: seq<byte>, reqs: nat, sent: seq<Char>, got: seq<Char>)
    requires Sane(s) && Sane(r) && !r.failed && data != [] && data[0] != FORCE_SID_CHAR
             && Direction(s, r, data, reqs, sent, got)
    ensures var st := Receive(r, data[0]);
            && Sane(st.end) && !st.end.failed && (st.reply == [] || st.reply == [FORCE_SID_CHAR])
            && st.end.sidOut == r.sidOut && st.end.lastSent == r.lastSent && st.end.kind == r.kind
            && Direction(s, st.end, data[1..], reqs + Requests(st.reply), sent, got + st.out)
            && DirectionRank(s, st.end, data[1..], sent) + 5 * Requests(st.reply) < DirectionRank(s, r, data, sent)
  {
    ReceiveSane(r, data[0]);
    var c := sent[|sent| - 1];
    var m := Remembered(c.data);
    hide Receive, Requests, DirectionRank;
    assert Delivers(s, r, data, reqs, sent, got) by {
      hide Delivers;
      if data == [c.sid] + Carried(m) && !r.gotEsc {
        ServiceArrives(s, r, sent, got, c);
      } else if data == Carried(m) && !r.gotEsc {
        CharArrives(s, r, sent, got, c);
      } else {
        EscapedArrives(s, r, sent, got, c);
      }
    }
    hide Sane, Direction, Remembered, Carried;
  }

  /** The request is delivered: the sender answers it. */
  lemma RequestStep(s: End, r: End, data: seq<byte>, reqs: nat, sent: seq<Char>, got: seq<Char>)
    requires Sane(s) && !s.failed && reqs > 0 && Direction(s, r, data, reqs, sent, got)
    ensures var st := Receive(s, FORCE_SID_CHAR);
            && Sane(st.end) && !st.end.failed && st.out == [] && st.end.sidIn == s.sidIn && st.end.gotEsc == s.gotEsc
            && st.end.kind == s.kind
            && Requests(st.reply) == 0 && Plain(st.reply) == st.reply
            && Direction(st.end, r, data + st.reply, reqs - 1, sent, got)
            && DirectionRank(st.end, r, data + st.reply, sent) <= DirectionRank(s, r, data, sent) + 3
  {
    ReceiveSane(s, FORCE_SID_CHAR);
    var c := sent[|sent| - 1];
    PlainBytes(-1, c);
    assert [] + ([c.sid] + Carried(Remembered(c.data))) == [c.sid] + Carried(Remembered(c.data));
    hide Flip, Plain, Requests;
  }

  /** How much is left to do in one direction: bytes under way, and a request and its answer if they will be needed. */
  ghost function DirectionRank(s: End, r: End, data: seq<byte>, sent: seq<Char>): nat {
    |data| + if r.sidIn == -1 && data != [] && sent != [] && data[0] != sent[|sent| - 1].sid then 6 else 0
  }

  /** A direction depends on what its sender remembers of its sending and its receiver of its receiving. */
  lemma SameDirection(s: End, r: End, s': End, r': End, data: seq<byte>, reqs: nat, sent: seq<Char>, got: seq<Char>)
    requires Direction(s, r, data, reqs, sent, got)
    requires s'.sidOut == s.sidOut && s'.lastSent == s.lastSent && r'.sidIn == r.sidIn && r'.gotEsc == r.gotEsc
             && r'.kind == r.kind
    ensures Direction(s', r', data, reqs, sent, got)
            && DirectionRank(s', r', data, sent) == DirectionRank(s, r, data, sent)
  {
  }

  // ---- the whole link ----

  ghost predicate Inv(l: Link) {
    && Sane(l.a) && Sane(l.b) && !l.a.failed && !l.b.failed
    && Direction(l.a, l.b, Plain(l.ab), Requests(l.ba), l.sentA, l.gotB)
    && Direction(l.b, l.a, Plain(l.ba), Requests(l.ab), l.sentB, l.gotA)
  }

  ghost function Rank(l: Link): nat {
    DirectionRank(l.a, l.b, Plain(l.ab), l.sentA) + DirectionRank(l.b, l.a, Plain(l.ba), l.sentB)
        + 5 * (Requests(l.ab) + Requests(l.ba))
  }

  function Swap(l: Link): Link { Link(l.b, l.a, l.ba, l.ab, l.sentB, l.sentA, l.gotB, l.gotA) }

  datatype Move = SendA(c: Char) | SendB(c: Char) | ToA | ToB | ForgetA | ForgetB

  /** At most one character of each direction is unanswered at a time; an end forgets its service ID only while the link
      is idle. */
  ghost predicate Enabled(l: Link, m: Move) {
    match m
    case SendA(c) => Plain(l.ab) == [] && Requests(l.ba) == 0 && Knows(l.b.kind, c.sid)
    case SendB(c) => Plain(l.ba) == [] && Requests(l.ab) == 0 && Knows(l.a.kind, c.sid)
    case ToB => l.ab != []
    case ToA => l.ba != []
    case ForgetA => l.ab == [] && l.ba == []
    case ForgetB => l.ab == [] && l.ba == []
  }

  ghost function DeliverB(l: Link): Link
    requires Sane(l.b) && l.ab != []
  {
    var st := Receive(l.b, l.ab[0]);
    l.(b := st.end, ab := l.ab[1..], ba := l.ba + st.reply, gotB := l.gotB + st.out)
  }

  /** Both ends know only services that there are. */
  ghost predicate Formed(l: Link) { Sane(l.a) && Sane(l.b) }

  ghost function Next(l: Link, m: Move): Link
    requires Formed(l) && Enabled(l, m)
  {
    match m
    case SendA(c) => l.(a := AfterSend(l.a, c), ab := l.ab + SendBytes(l.a, c), sentA := l.sentA + [c])
    case SendB(c) => l.(b := AfterSend(l.b, c), ba := l.ba + SendBytes(l.b, c), sentB := l.sentB + [c])
    case ToB => DeliverB(l)
    case ToA => Swap(DeliverB(Swap(l)))
    case ForgetA => l.(a := l.a.(sidIn := -1))
    case ForgetB => l.(b := l.b.(sidIn := -1))
  }

  lemma DeliverKeeps(l: Link)
    requires Inv(l) && l.ab != []
    ensures Inv(DeliverB(l)) && Rank(DeliverB(l)) < Rank(l)
  {
    hide Direction, DirectionRank, Receive, Sane, Plain, Requests;
    var b, rest := l.ab[0], l.ab[1..];
    assert l.ab == [b] + rest;
    PlainAppend([b], rest);
    RequestsAppend([b], rest);
    OneByte(b);
    var st := Receive(l.b, b);
    PlainAppend(l.ba, st.reply);
    RequestsAppend(l.ba, st.reply);
    var data, reqs := Plain(l.ab), Requests(l.ab);
    if b == FORCE_SID_CHAR {
      assert [] + Plain(rest) == Plain(rest);
      RequestStep(l.b, l.a, Plain(l.ba), reqs, l.sentB, l.gotA);
      SameDirection(l.a, l.b, l.a, st.end, data, Requests(l.ba), l.sentA, l.gotB);
      assert l.gotB + st.out == l.gotB;
    } else {
      assert data == [b] + Plain(rest) && data[1..] == Plain(rest);
      DataStep(l.a, l.b, data, Requests(l.ba), l.sentA, l.gotB);
      SameDirection(l.b, l.a, st.end, l.a, Plain(l.ba), reqs, l.sentB, l.gotA);
      if st.reply == [FORCE_SID_CHAR] { OneByte(FORCE_SID_CHAR); assert Plain(l.ba) + [] == Plain(l.ba); } else {
        EmptyBytes(); assert Plain(l.ba) + [] == Plain(l.ba); }
    }
  }

  lemma OneByte(b: byte)
    ensures Plain([b]) == (if b == FORCE_SID_CHAR then [] else [b]) && Requests([b]) == if b == FORCE_SID_CHAR then 1
              else 0
  {
    assert [b][1..] == [];
  }

  lemma EmptyBytes()
    ensures Plain([]) == [] && Requests([]) == 0
  {
  }

  lemma SendKeeps(l: Link, c: Char)
    requires Inv(l) && Enabled(l, SendA(c))
    ensures Inv(Next(l, SendA(c)))
  {
    hide Plain, Requests;
    var bs := SendBytes(l.a, c);
    SendSane(l.a, c);
    PlainAppend(l.ab, bs);
    RequestsAppend(l.ab, bs);
    PlainBytes(l.a.sidOut, c);
    assert [] + bs == bs;
    assert Idle(l.a, l.b, [], 0, l.sentA, l.gotB) by { NothingUnderWay(l); }
    SendStep(l.a, l.b, l.sentA, l.gotB, c);
    SameDirection(l.b, l.a, l.b, AfterSend(l.a, c), Plain(l.ba), Requests(l.ab), l.sentB, l.gotA);
    hide Direction;
  }

  lemma NothingUnderWay(l: Link)
    requires Inv(l) && Plain(l.ab) == [] && Requests(l.ba) == 0
    ensures Idle(l.a, l.b, [], 0, l.sentA, l.gotB)
  {
    hide Plain, Requests;
  }

  /** Every step keeps the link in order, and every delivery brings it closer to having nothing under way. */
  lemma StepKeeps(l: Link, m: Move)
    requires Inv(l) && Enabled(l, m)
    ensures Inv(Next(l, m)) && (m.ToA? || m.ToB? ==> Rank(Next(l, m)) < Rank(l))
  {
    match m
    case SendA(c) => SendKeeps(l, c);
    case SendB(c) => SendKeeps(Swap(l), c); assert Next(l, m) == Swap(Next(Swap(l), SendA(c)));
    case ToB => DeliverKeeps(l);
    case ToA => DeliverKeeps(Swap(l));
    case ForgetA => EmptyBytes();
    case ForgetB => EmptyBytes();
  }

  lemma NextFormed(l: Link, m: Move)
    requires Formed(l) && Enabled(l, m)
    ensures Formed(Next(l, m))
  {
    hide Plain, Requests, Receive, AfterSend, SendBytes;
    match m
    case SendA(c) => SendSane(l.a, c);
    case SendB(c) => SendSane(l.b, c);
    case ToB => ReceiveSane(l.b, l.ab[0]);
    case ToA => ReceiveSane(l.a, l.ba[0]);
    case _ =>
  }

  ghost predicate Moves(l: Link, ms: seq<Move>)
    requires Formed(l)
    decreases |ms|
  {
    ms == [] || (Enabled(l, ms[0]) && (NextFormed(l, ms[0]); Moves(Next(l, ms[0]), ms[1..])))
  }

  ghost function After(l: Link, ms: seq<Move>): Link
    requires Formed(l) && Moves(l, ms)
    decreases |ms|
  {
    if ms == [] then l
    else
      NextFormed(l, ms[0]);
      After(Next(l, ms[0]), ms[1..])
  }

  lemma {:induction false} RunKeeps(l: Link, ms: seq<Move>)
    requires Inv(l) && Moves(l, ms)
    ensures Inv(After(l, ms))
    decreases |ms|
  {
    if ms != [] {
      StepKeeps(l, ms[0]);
      NextFormed(l, ms[0]);
      hide Direction, Next, Sane, Enabled;
      RunKeeps(Next(l, ms[0]), ms[1..]);
    }
  }

  function Start(ka: Kind, kb: Kind): Link { Link(Fresh(ka), Fresh(kb), [], [], [], [], [], []) }

  lemma StartOk(ka: Kind, kb: Kind)
    requires KindOk(ka) && KindOk(kb)
    ensures Inv(Start(ka, kb))
  {
    EmptyBytes();
  }

  /** In every run, whatever the ends forget and however the deliveries interleave: what one end delivered is what
      the other one sent, at most the last character missing, and nothing is missing when nothing is under way. */
  lemma ExactlyOnce(ka: Kind, kb: Kind, ms: seq<Move>)
    requires KindOk(ka) && KindOk(kb) && Moves(Start(ka, kb), ms)
    ensures var l := After(Start(ka, kb), ms);
            && !l.a.failed && !l.b.failed
            && (l.gotB == l.sentA || (l.sentA != [] && l.gotB == l.sentA[..|l.sentA| - 1]))
            && (l.gotA == l.sentB || (l.sentB != [] && l.gotA == l.sentB[..|l.sentB| - 1]))
            && (l.ab == [] && l.ba == [] ==> l.gotB == l.sentA && l.gotA == l.sentB)
  {
    StartOk(ka, kb);
    RunKeeps(Start(ka, kb), ms);
    EmptyBytes();
    hide Plain, Requests, After, Moves;
  }
}
