/** The receiver on the characters of whole and damaged records: what it stores, block by block. */
module XmodemArrivals {
  import opened Crc
  import opened XmodemRecords
  import opened Xmodem

  // ---- block numbers ----

  function Value(x: bv8): int { x as int }

  lemma NextNumber(x: bv8)
    ensures Value(Succ(x)) == (Value(x) + 1) % 256
  {
  }

  lemma SameByte(x: bv8, y: bv8)
    requires Value(x) == Value(y)
    ensures x == y
  {
  }

  lemma {:induction false} NumberIs(k: nat)
    ensures Value(Number(k)) == (k + 1) % 256
  {
    hide Value, Succ;
    if k == 0 {
      FirstNumber();
    } else {
      NumberIs(k - 1);
      NextNumber(Number(k - 1));
      assert (k % 256 + 1) % 256 == (k + 1) % 256;
    }
  }

  lemma FirstNumber()
    ensures Number(0) == 1 && Value(1) == 1
  {
  }

  /** Numbers of blocks that are fewer than 256 apart differ. */
  lemma NumbersDiffer(a: nat, b: nat)
    requires a <= b < a + 256
    ensures Number(a) == Number(b) <==> a == b
  {
    hide Number, Value;
    NumberIs(a);
    NumberIs(b);
  }

  lemma NumbersRepeat(a: nat)
    ensures Number(a) == Number(a + 256)
  {
    hide Number, Value;
    NumberIs(a);
    NumberIs(a + 256);
    assert (a + 256 + 1) % 256 == (a + 1) % 256;
    SameByte(Number(a), Number(a + 256));
  }

  // ---- what the receiver gets ----

  type Blocks = nat -> seq<bv8>

  ghost predicate BlocksOk(blocks: Blocks) { forall k :: SizeOk(|blocks(k)|) }

  /** One attempt at a record of n payload bytes: it arrives whole, or with other characters, or cut short, or not
      at all. */
  datatype Attempt = Intact(k: nat) | Damaged(n: nat, chars: seq<bv8>) | Cut(n: nat, chars: seq<bv8>) | Quiet

  /** The number does not match its complement, or the check does not match the payload. */
  predicate Broken(n: nat, chars: seq<bv8>)
    requires |chars| == n + 4
  {
    chars[1] != !chars[0] || Checksum(chars[2..n + 2]) != Word(chars[n + 2], chars[n + 3])
  }

  predicate SizeOk(n: nat) { n == 128 || n == 1024 }

  ghost predicate AttemptOk(a: Attempt) {
    match a
    case Damaged(n, chars) => SizeOk(n) && |chars| == n + 4 && Broken(n, chars)
    case Cut(n, chars) => SizeOk(n) && |chars| < n + 4
    case _ => true
  }

  lemma BrokenRefused(n: nat, chars: seq<bv8>, number: bv8)
    requires |chars| == n + 4 && Broken(n, chars)
    ensures !RecordOk(chars, number, n)
  {
    hide Checksum, Word;
  }

  /** Broken is all that a receiver can tell: with any other characters there is a number for which it takes them. */
  lemma UnbrokenTaken(n: nat, chars: seq<bv8>)
    requires |chars| == n + 4 && !Broken(n, chars)
    ensures RecordOk(chars, chars[0], n)
  {
    hide Checksum, Word;
  }

  ghost predicate AttemptsOk(xs: seq<Attempt>) { forall i :: 0 <= i < |xs| ==> AttemptOk(xs[i]) }

  function CheckHigh(c: bv16): bv8 { (c >> 8) as bv8 }

  function CheckLow(c: bv16): bv8 { (c & 0xFF) as bv8 }

  lemma CheckWord(c: bv16)
    ensures Word(CheckHigh(c), CheckLow(c)) == c
  {
  }

  function StartChar(n: nat): bv8 { if n == 128 then XM_SOH else XM_STX }

  /** A start character and the characters of a record behind it. */
  function Framed(n: nat, chars: seq<bv8>, rest: seq<Read>): seq<Read> { [Got(StartChar(n))] + (Line(chars) + rest) }

  function Sent(k: nat, payload: seq<bv8>, more: seq<Read>): seq<Read> {
    Framed(|payload|, Record(Number(k), payload, CheckHigh(Checksum(payload)), CheckLow(Checksum(payload))),
        [Silence] + more)
  }

  function Arrives(blocks: Blocks, a: Attempt, more: seq<Read>): seq<Read> {
    match a
    case Intact(k) => Sent(k, blocks(k), more)
    case Damaged(n, chars) => Framed(n, chars, [Silence] + more)
    case Cut(n, chars) => Framed(n, chars, [Silence, Silence] + more)
    case Quiet => [Silence] + more
  }

  function Arrive(blocks: Blocks, xs: seq<Attempt>): seq<Read> {
    if xs == [] then [] else Arrives(blocks, xs[0], Arrive(blocks, xs[1..]))
  }

  /** The blocks that have the expected number when they arrive. */
  function Taken(xs: seq<Attempt>, n: nat): seq<nat>
    decreases |xs|
  {
    if xs == [] then []
    else if xs[0].Intact? && Number(xs[0].k) == Number(n) then [xs[0].k] + Taken(xs[1..], n + 1)
    else Taken(xs[1..], n)
  }

  /** The session stores the first of the blocks in ks. */
  ghost predicate Stores(o: Outcome, blocks: Blocks, ks: seq<nat>) {
    |o.blocks| <= |ks| && forall i :: 0 <= i < |o.blocks| ==> o.blocks[i].payload == blocks(ks[i])
  }

  lemma StoresNone(o: Outcome, blocks: Blocks, ks: seq<nat>)
    requires o.blocks == []
    ensures Stores(o, blocks, ks)
  {
  }

  lemma StoresMore(s: State, o: Outcome, p: seq<bv8>, blocks: Blocks, k: nat, ks: seq<nat>)
    requires Stores(o, blocks, ks)
    ensures Stores(Stored(s, blocks(k), After(p, o)), blocks, [k] + ks)
  {
  }

  lemma StoresAfter(p: seq<bv8>, o: Outcome, blocks: Blocks, ks: seq<nat>)
    requires Stores(o, blocks, ks)
    ensures Stores(After(p, o), blocks, ks)
  {
  }

  /** An attempt in which nothing comes. */
  lemma QuietTurn(s: State, more: seq<Read>)
    ensures s.retries > 0 ==> Session(s, [Silence] + more) == After(Prompt(s), Session(Tried(s), more))
    ensures s.retries == 0 ==> Session(s, [Silence] + more).blocks == []
  {
    SessionIs(s, [Silence] + more);
    assert ([Silence] + more)[1..] == more;
    hide Session, RecordSession;
  }

  lemma FramedTurn(s: State, n: nat, chars: seq<bv8>, rest: seq<Read>)
    requires s.retries > 0 && SizeOk(n)
    ensures Session(s, Framed(n, chars, rest)) == RecordSession(s, n, Line(chars) + rest)
  {
    var input := Framed(n, chars, rest);
    SessionIs(s, input);
    assert input[1..] == Line(chars) + rest;
    hide Session, RecordSession, Line;
  }

  lemma RefusedTurn(s: State, n: nat, chars: seq<bv8>, more: seq<Read>, blocks: Blocks, ks: seq<nat>)
    requires s.retries > 0 && SizeOk(n) && |chars| == n + 4 && !RecordOk(chars, s.number, n)
    requires s.retries > 1 ==> Stores(Session(Tried(Refused(s)), more), blocks, ks)
    ensures Stores(Session(s, Framed(n, chars, [Silence] + more)), blocks, ks)
  {
    hide Session, RecordSession, RecordOk, Framed, Line, Stores, After;
    FramedTurn(s, n, chars, [Silence] + more);
    RefusedRecord(s, n, chars, more);
    var t := Refused(s);
    QuietTurn(t, more);
    if t.retries > 0 {
      StoresAfter(Prompt(t), Session(Tried(t), more), blocks, ks);
    } else {
      StoresNone(Session(t, [Silence] + more), blocks, ks);
    }
    StoresAfter(Prompt(s) + [XM_NAK], Session(t, [Silence] + more), blocks, ks);
  }

  lemma CutTurn(s: State, n: nat, chars: seq<bv8>, more: seq<Read>, blocks: Blocks, ks: seq<nat>)
    requires s.retries > 0 && SizeOk(n) && |chars| < n + 4 && Stores(Session(Refused(s), more), blocks, ks)
    ensures Stores(Session(s, Framed(n, chars, [Silence, Silence] + more)), blocks, ks)
  {
    hide Session, RecordSession, Framed, Line, Stores, After;
    FramedTurn(s, n, chars, [Silence, Silence] + more);
    CutRecord(s, n, chars, more);
    StoresAfter(Prompt(s) + [XM_NAK], Session(Refused(s), more), blocks, ks);
  }

  /** A whole record with another number than the expected one. */
  lemma OtherTurn(s: State, k: nat, payload: seq<bv8>, more: seq<Read>, blocks: Blocks, ks: seq<nat>)
    requires s.retries > 0 && SizeOk(|payload|) && Number(k) != s.number
    requires s.retries > 1 ==> Stores(Session(Tried(Refused(s)), more), blocks, ks)
    ensures Stores(Session(s, Sent(k, payload, more)), blocks, ks)
  {
    hide Session, Checksum, Word, Stores, Framed, RecordOk, Record, CheckHigh, CheckLow;
    var hi, lo := CheckHigh(Checksum(payload)), CheckLow(Checksum(payload));
    RecordFields(Number(k), payload, hi, lo, s.number);
    RefusedTurn(s, |payload|, Record(Number(k), payload, hi, lo), more, blocks, ks);
  }

  lemma AcceptedTurn(s: State, k: nat, more: seq<Read>, blocks: Blocks, ks: seq<nat>)
    requires s.retries > 0 && SizeOk(|blocks(k)|) && Number(k) == s.number
    requires Stores(Session(Accepted(s, |blocks(k)|), more), blocks, ks)
    ensures Stores(Session(s, Sent(k, blocks(k), more)), blocks, [k] + ks)
  {
    hide Session, RecordSession, Checksum, Word, Framed, Line, Record, Stores, After, Stored, Accepted, HasRoom,
         CheckHigh, CheckLow;
    var payload := blocks(k);
    var hi, lo := CheckHigh(Checksum(payload)), CheckLow(Checksum(payload));
    CheckWord(Checksum(payload));
    FramedTurn(s, |payload|, Record(Number(k), payload, hi, lo), [Silence] + more);
    WholeRecord(s, Number(k), payload, hi, lo, more);
    if HasRoom(s, |payload|) {
      StoresMore(s, Session(Accepted(s, |payload|), more), Prompt(s) + [XM_ACK], blocks, k, ks);
    } else {
      NoRoom(s, payload, hi, lo, more);
      StoresNone(Session(s, Sent(k, payload, more)), blocks, [k] + ks);
    }
  }

  lemma NoRoom(s: State, payload: seq<bv8>, hi: bv8, lo: bv8, more: seq<Read>)
    requires s.retries > 0 && !HasRoom(s, |payload|) && Checksum(payload) == Word(hi, lo)
    ensures RecordSession(s, |payload|, Line(Record(s.number, payload, hi, lo)) + ([Silence] + more)).blocks == []
  {
    hide Session, RecordOk, Checksum, Word, Record, Line, Chars;
    RecordFields(s.number, payload, hi, lo, s.number);
    CharsOfLine(Record(s.number, payload, hi, lo), [Silence] + more);
    RecordSessionIs(s, |payload|, Line(Record(s.number, payload, hi, lo)) + ([Silence] + more));
  }

  lemma SessionEnds(s: State, input: seq<Read>)
    ensures s.retries == 0 ==> Session(s, input).blocks == []
  {
  }

  lemma {:induction false} SessionEmpty(s: State)
    ensures Session(s, []).blocks == []
    decreases s.retries
  {
    SessionIs(s, []);
    if s.retries > 0 { SessionEmpty(Tried(s)); }
    hide Session;
  }

  lemma QuietStores(s: State, blocks: Blocks, more: seq<Read>, ks: seq<nat>)
    requires s.retries > 0 && Stores(Session(Tried(s), more), blocks, ks)
    ensures Stores(Session(s, Arrives(blocks, Quiet, more)), blocks, ks)
  {
    hide Session, Stores, After;
    QuietTurn(s, more);
    StoresAfter(Prompt(s), Session(Tried(s), more), blocks, ks);
  }

  lemma ArrivesIs(blocks: Blocks, a: Attempt, more: seq<Read>)
    ensures a.Intact? ==> Arrives(blocks, a, more) == Sent(a.k, blocks(a.k), more)
    ensures a.Damaged? ==> Arrives(blocks, a, more) == Framed(a.n, a.chars, [Silence] + more)
    ensures a.Cut? ==> Arrives(blocks, a, more) == Framed(a.n, a.chars, [Silence, Silence] + more)
  {
    hide Sent, Framed;
  }

  lemma NumberNext(s: State, n: nat, size: nat)
    requires s.number == Number(n)
    ensures Accepted(s, size).number == Number(n + 1) && Accepted(s, size).retries == XMODEM_RETRY_LIMIT
  {
  }

  /** One attempt that the receiver does not take. */
  lemma SpareTurn(s: State, blocks: Blocks, a: Attempt, more: seq<Read>, ks: seq<nat>)
    requires BlocksOk(blocks) && AttemptOk(a) && s.retries > 0 && (a.Intact? ==> Number(a.k) != s.number)
    requires a.Quiet? ==> Stores(Session(Tried(s), more), blocks, ks)
    requires a.Cut? ==> Stores(Session(Refused(s), more), blocks, ks)
    requires (a.Intact? || a.Damaged?) && s.retries > 1 ==> Stores(Session(Tried(Refused(s)), more), blocks, ks)
    ensures Stores(Session(s, Arrives(blocks, a, more)), blocks, ks)
  {
    hide Session, Arrives, Stores, Number, RecordOk, Sent, Framed, Broken;
    ArrivesIs(blocks, a, more);
    match a
    case Quiet => QuietStores(s, blocks, more, ks);
    case Cut(n, chars) => CutTurn(s, n, chars, more, blocks, ks);
    case Damaged(n, chars) => BrokenRefused(n, chars, s.number); RefusedTurn(s, n, chars, more, blocks, ks);
    case Intact(k) => OtherTurn(s, k, blocks(k), more, blocks, ks);
  }

  /** On the characters of any sequence of attempts, the receiver stores blocks with the expected numbers only. */
  lemma {:induction false} SessionTakes(s: State, blocks: Blocks, xs: seq<Attempt>, n: nat)
    requires BlocksOk(blocks) && AttemptsOk(xs) && s.number == Number(n)
    ensures Stores(Session(s, Arrive(blocks, xs)), blocks, Taken(xs, n))
    decreases |xs|
  {
    hide Session, Arrives, Stores, Number, AttemptOk;
    if s.retries == 0 || xs == [] {
      SessionEnds(s, Arrive(blocks, xs));
      SessionEmpty(s);
      StoresNone(Session(s, Arrive(blocks, xs)), blocks, Taken(xs, n));
    } else {
      var a, more := xs[0], Arrive(blocks, xs[1..]);
      assert AttemptOk(a) && AttemptsOk(xs[1..]);
      if a.Intact? && Number(a.k) == s.number {
        NumberNext(s, n, |blocks(a.k)|);
        SessionTakes(Accepted(s, |blocks(a.k)|), blocks, xs[1..], n + 1);
        AcceptedTurn(s, a.k, more, blocks, Taken(xs[1..], n + 1));
        ArrivesIs(blocks, a, more);
      } else {
        SessionTakes(Tried(s), blocks, xs[1..], n);
        SessionTakes(Refused(s), blocks, xs[1..], n);
        if s.retries > 1 { SessionTakes(Tried(Refused(s)), blocks, xs[1..], n); }
        SpareTurn(s, blocks, a, more, Taken(xs[1..], n));
      }
    }
  }
}
