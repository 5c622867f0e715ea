/** What xmodem_receive makes of the characters that come in, as functions of the input. */
module XmodemRecords {
  import opened Crc

  const XM_SOH: bv8 := 0x01
  const XM_STX: bv8 := 0x02
  const XM_EOT: bv8 := 0x04
  const XM_ACK: bv8 := 0x06
  const XM_NAK: bv8 := 0x15
  const XM_CAN: bv8 := 0x18
  const XM_CRC: bv8 := 0x43
  const XMODEM_INITIAL_BUFFER_SIZE := 4096
  const XMODEM_INCREMENT_AMMOUNT := 4096
  const XMODEM_RETRY_LIMIT := 20
  const XMODEM_ERROR_REMOTECANCEL := -1
  const XMODEM_ERROR_RETRYEXCEED := -3
  const XMODEM_ERROR_OUTOFMEM := -4

  /** One call of the input function: a character, or none in time. */
  datatype Read = Silence | Got(b: bv8)

  /** After the end of the input there is only silence. */
  function Next(input: seq<Read>): (Read, seq<Read>) {
    if input == [] then (Silence, []) else (input[0], input[1..])
  }

  /** A character, asked for a second time if it does not come at once. */
  function Patient(input: seq<Read>): (Read, seq<Read>) {
    if Next(input).0.Got? then Next(input) else Next(Next(input).1)
  }

  /** Up to n characters, until one does not come. */
  function Chars(input: seq<Read>, n: nat): (seq<bv8>, seq<Read>)
    decreases n
  {
    if n == 0 then ([], input)
    else if Patient(input).0.Silence? then ([], Patient(input).1)
    else
      var more := Chars(Patient(input).1, n - 1);
      ([Patient(input).0.b] + more.0, more.1)
  }

  lemma CharsStep(input: seq<Read>, n: nat, got: seq<bv8>)
    ensures n > 0 && Patient(input).0.Got? ==>
              got + Chars(input, n).0 == (got + [Patient(input).0.b]) + Chars(Patient(input).1, n - 1).0
                  && Chars(input, n).1 == Chars(Patient(input).1, n - 1).1
    ensures n > 0 && Patient(input).0.Silence? ==>
              got + Chars(input, n).0 == got && Chars(input, n).1 == Patient(input).1
    ensures got + Chars(input, 0).0 == got && Chars(input, 0).1 == input
  {
    hide Patient;
  }

  function Flush(input: seq<Read>): seq<Read> {
    if input == [] then [] else if input[0].Silence? then input[1..] else Flush(input[1..])
  }

  /** Whatever comes before the line is quiet is dropped. */
  lemma {:induction false} FlushSkips(chars: seq<bv8>, more: seq<Read>)
    ensures Flush(Line(chars) + ([Silence] + more)) == more
    decreases |chars|
  {
    if chars == [] {
      assert Line(chars) + ([Silence] + more) == [Silence] + more;
    } else {
      FlushSkips(chars[1..], more);
      assert (Line(chars) + ([Silence] + more))[1..] == Line(chars[1..]) + ([Silence] + more);
    }
  }

  lemma {:induction false} FlushShrinks(input: seq<Read>)
    ensures |Flush(input)| <= |input|
  {
    if input != [] && input[0].Got? { FlushShrinks(input[1..]); }
  }

  lemma {:induction false} CharsShrink(input: seq<Read>, n: nat)
    ensures |Chars(input, n).0| <= n && |Chars(input, n).1| <= |input|
    ensures Chars(input, n).0 != [] ==> |Chars(input, n).1| < |input|
    decreases n
  {
    if n > 0 && Patient(input).0.Got? { CharsShrink(Patient(input).1, n - 1); }
  }

  /** Block number, its complement, n payload bytes and the checksum. */
  predicate RecordOk(chars: seq<bv8>, number: bv8, n: nat) {
    && |chars| == n + 4 && chars[0] == number && chars[1] == !number
    && Checksum(chars[2..n + 2]) == Word(chars[n + 2], chars[n + 3])
  }

  /** An accepted block and the attempt it took, counted from the block before. */
  datatype Block = Block(payload: seq<bv8>, attempts: nat)

  /** The last field counts the attempts since the last accepted block. */
  datatype Outcome = Outcome(result: int, blocks: seq<Block>, output: seq<bv8>, attempts: nat)

  function After(output: seq<bv8>, o: Outcome): Outcome { o.(output := output + o.output) }

  function PayloadSize(ch: bv8): nat { if ch == XM_SOH then 128 else 1024 }

  predicate IsStart(r: Read) { r.Got? && (r.b == XM_SOH || r.b == XM_STX) }

  /** The rest of a transmission: the next block number, the attempts left, whether nothing has come yet, the bytes
      stored so far and the room for them, and the largest size that realloc can give. The receiver does not count
      the attempts made since the last accepted block; tries does. */
  datatype State = State(number: bv8, retries: nat, starting: bool, size: nat, limit: nat, memory: nat, tries: nat)

  function Grown(s: State, n: nat): nat { if s.size + n > s.limit then s.limit + XMODEM_INCREMENT_AMMOUNT else s.limit }

  predicate HasRoom(s: State, n: nat) { s.size + n <= s.limit || Grown(s, n) <= s.memory }

  /** The next block number, in eight bits. */
  function Succ(x: bv8): bv8 { x + 1 }

  function Accepted(s: State, n: nat): State {
    s.(number := Succ(s.number), retries := XMODEM_RETRY_LIMIT, tries := 0,
       starting := false, size := s.size + n, limit := Grown(s, n))
  }

  /** The room is the least multiple of 4096 bytes that holds what is stored, as long as a record fits in one more. */
  lemma LeastRoom(s: State, n: nat)
    requires s.limit % 4096 == 0 && s.size <= s.limit && n <= 4096 && (s.limit == 4096 || s.limit < s.size + 4096)
    ensures var limit := Grown(s, n);
            limit % 4096 == 0 && s.size + n <= limit && (limit == 4096 || limit < s.size + n + 4096)
    ensures s.limit <= s.memory ==> (HasRoom(s, n) <==> Grown(s, n) <= s.memory)
  {
    assert s.limit == 4096 * (s.limit / 4096);
    assert (s.limit + 4096) % 4096 == s.limit % 4096;
  }

  /** After an attempt in which no record began. */
  function Tried(s: State): State
    requires s.retries > 0
  {
    s.(retries := s.retries - 1, tries := s.tries + 1)
  }

  /** After an attempt with a record that was refused. */
  function Refused(s: State): State
    requires s.retries > 0
  {
    Tried(s).(starting := false)
  }

  function Prompt(s: State): seq<bv8> { if s.starting then [XM_CRC] else [] }

  function CancelChars(): seq<bv8> { [XM_CAN, XM_CAN, XM_CAN] }

  function Session(s: State, input: seq<Read>): Outcome
    decreases |input|, s.retries
  {
    if s.retries == 0 then Outcome(XMODEM_ERROR_RETRYEXCEED, [], CancelChars(), s.tries)
    else
      var r := Next(input).0;
      var rest := Next(input).1;
      if r == Got(XM_EOT) then Outcome(s.size, [], Prompt(s) + [XM_ACK], s.tries + 1)
      else if r == Got(XM_CAN) then Outcome(XMODEM_ERROR_REMOTECANCEL, [], Prompt(s) + [XM_ACK], s.tries + 1)
      else if IsStart(r) then RecordSession(s, PayloadSize(r.b), rest)
      else After(Prompt(s), Session(Tried(s), rest))
  }

  function RecordSession(s: State, n: nat, rest: seq<Read>): Outcome
    requires s.retries > 0
    decreases |rest|, s.retries, 0
  {
    var chars := Chars(rest, n + 4);
    CharsShrink(rest, n + 4);
    if RecordOk(chars.0, s.number, n) then
      FlushShrinks(chars.1);
      if !HasRoom(s, n) then Outcome(XMODEM_ERROR_OUTOFMEM, [], Prompt(s) + CancelChars(), s.tries + 1)
      else Stored(s, chars.0[2..n + 2], After(Prompt(s) + [XM_ACK], Session(Accepted(s, n), Flush(chars.1))))
    else After(Prompt(s) + [XM_NAK], Session(Refused(s), chars.1))
  }

  function Stored(s: State, payload: seq<bv8>, o: Outcome): Outcome {
    o.(blocks := [Block(payload, s.tries + 1)] + o.blocks)
  }

  // ---- what every session satisfies ----

  function Bytes(blocks: seq<Block>): seq<bv8> { if blocks == [] then [] else blocks[0].payload + Bytes(blocks[1..]) }

  /** Block k of a transmission carries number k + 1, modulo 256. */
  function Number(k: nat): bv8 { if k == 0 then 1 else Succ(Number(k - 1)) }

  ghost predicate Bounded(o: Outcome) {
    && (forall i :: 0 <= i < |o.blocks| ==> 1 <= o.blocks[i].attempts <= XMODEM_RETRY_LIMIT)
    && o.attempts <= XMODEM_RETRY_LIMIT && (o.result == XMODEM_ERROR_RETRYEXCEED ==> o.attempts == XMODEM_RETRY_LIMIT)
  }

  /** The length that is returned is that of the bytes stored, no block took more than twenty attempts, and the
      receiver gives up only when twenty attempts since the last block have failed. */
  lemma {:induction false} SessionBounds(s: State, input: seq<Read>)
    requires s.tries + s.retries == XMODEM_RETRY_LIMIT
    ensures var o := Session(s, input);
            (o.result >= 0 ==> o.result == s.size + |Bytes(o.blocks)|) && Bounded(o)
    decreases |input|, s.retries
  {
    if s.retries > 0 {
      var r := Next(input).0;
      var rest := Next(input).1;
      if r != Got(XM_EOT) && r != Got(XM_CAN) {
        if IsStart(r) {
          RecordBounds(s, PayloadSize(r.b), rest);
        } else {
          SessionBounds(Tried(s), rest);
        }
      }
    }
    hide RecordSession, Bytes;
  }

  lemma {:induction false} RecordBounds(s: State, n: nat, rest: seq<Read>)
    requires s.retries > 0 && s.tries + s.retries == XMODEM_RETRY_LIMIT
    ensures var o := RecordSession(s, n, rest);
            (o.result >= 0 ==> o.result == s.size + |Bytes(o.blocks)|) && Bounded(o)
    decreases |rest|, s.retries, 0
  {
    hide Session, Chars, Flush, Checksum, Word;
    var chars := Chars(rest, n + 4);
    CharsShrink(rest, n + 4);
    if RecordOk(chars.0, s.number, n) {
      FlushShrinks(chars.1);
      if HasRoom(s, n) {
        SessionBounds(Accepted(s, n), Flush(chars.1));
      }
    } else {
      SessionBounds(Refused(s), chars.1);
    }
  }

  // ---- what the receiver sends ----

  /** One of the four characters that the receiver looks for at the beginning of an attempt. */
  predicate Begins(r: Read) { r == Got(XM_EOT) || r == Got(XM_CAN) || IsStart(r) }

  function ReadAt(input: seq<Read>, i: nat): Read { if i < |input| then input[i] else Silence }

  /** The attempt in which something begins, or the last one if nothing does. */
  ghost predicate FirstSign(input: seq<Read>, retries: nat, k: nat) {
    && k <= retries && (forall i: nat :: i + 1 < k ==> !Begins(ReadAt(input, i)))
    && (k < retries ==> k > 0 && Begins(ReadAt(input, k - 1)))
  }

  lemma AfterFirst(input: seq<Read>, retries: nat, k: nat)
    requires !Begins(Next(input).0) && FirstSign(Next(input).1, retries, k)
    ensures FirstSign(input, retries + 1, k + 1)
  {
    hide Begins;
    forall i: nat
      ensures ReadAt(input, i + 1) == ReadAt(Next(input).1, i)
    {
    }
    assert ReadAt(input, 0) == Next(input).0;
    forall i: nat | i + 1 < k + 1
      ensures !Begins(ReadAt(input, i))
    {
      if i > 0 { assert ReadAt(input, i) == ReadAt(Next(input).1, i - 1); }
    }
  }

  /** The receiver asks with 'C' before every attempt up to the one in which something begins, and never after it. */
  lemma {:induction false} Invitations(s: State, input: seq<Read>) returns (k: nat)
    requires s.starting
    ensures FirstSign(input, s.retries, k)
    ensures var out := Session(s, input).output;
            k <= |out| && (forall i :: 0 <= i < k ==> out[i] == XM_CRC) && XM_CRC !in out[k..]
    decreases s.retries
  {
    hide RecordSession, Flush, Chars;
    var out := Session(s, input).output;
    if s.retries == 0 {
      k := 0;
    } else if Begins(Next(input).0) {
      k := 1;
      assert Next(input).0 == ReadAt(input, 0);
      if IsStart(Next(input).0) { RecordUninvited(s, PayloadSize(Next(input).0.b), Next(input).1); }
      assert out[0] == XM_CRC;
    } else {
      k := Invitations(Tried(s), Next(input).1);
      AfterFirst(input, s.retries - 1, k);
      assert out == [XM_CRC] + Session(Tried(s), Next(input).1).output;
      k := k + 1;
    }
  }

  /** If nobody sends, the receiver asks once for each attempt it has left and then cancels. */
  lemma {:induction false} NobodyThere(s: State)
    requires s.starting
    ensures var o := Session(s, []);
            && o.result == XMODEM_ERROR_RETRYEXCEED && o.blocks == []
            && o.output == seq(s.retries, _ => 0x43) + [0x18, 0x18, 0x18]
    decreases s.retries
  {
    hide RecordSession;
    if s.retries == 0 {
      assert seq(0, _ => 0x43 as bv8) == [];
    } else {
      NobodyThere(Tried(s));
      var rest := seq(s.retries - 1, _ => 0x43 as bv8);
      assert seq(s.retries, _ => 0x43 as bv8) == [0x43] + rest;
      assert [0x43] + (rest + [0x18, 0x18, 0x18]) == ([0x43] + rest) + [0x18, 0x18, 0x18];
    }
  }

  lemma {:induction false} Uninvited(s: State, input: seq<Read>)
    requires !s.starting
    ensures XM_CRC !in Session(s, input).output
    decreases |input|, s.retries
  {
    hide RecordSession;
    if s.retries > 0 && !(Next(input).0 == Got(XM_EOT) || Next(input).0 == Got(XM_CAN)) {
      if IsStart(Next(input).0) {
        RecordUninvited(s, PayloadSize(Next(input).0.b), Next(input).1);
      } else {
        Uninvited(Tried(s), Next(input).1);
      }
    }
  }

  lemma {:induction false} RecordUninvited(s: State, n: nat, rest: seq<Read>)
    requires s.retries > 0
    ensures var out := RecordSession(s, n, rest).output;
            Prompt(s) <= out && XM_CRC !in out[|Prompt(s)|..]
    decreases |rest|, s.retries, 0
  {
    hide Session, Chars, Flush, Checksum, Word;
    var chars := Chars(rest, n + 4);
    CharsShrink(rest, n + 4);
    FlushShrinks(chars.1);
    if RecordOk(chars.0, s.number, n) {
      if HasRoom(s, n) { Uninvited(Accepted(s, n), Flush(chars.1)); }
    } else {
      Uninvited(Refused(s), chars.1);
    }
  }

  /** How often a character was sent. */
  function Times(b: bv8, out: seq<bv8>): nat {
    if out == [] then 0 else (if out[0] == b then 1 else 0) + Times(b, out[1..])
  }

  lemma {:induction false} TimesAppend(b: bv8, x: seq<bv8>, y: seq<bv8>)
    ensures Times(b, x + y) == Times(b, x) + Times(b, y)
  {
    if x == [] {
      assert x + y == y;
    } else {
      TimesAppend(b, x[1..], y);
      assert (x + y)[1..] == x[1..] + y;
    }
  }

  lemma TimesFew(b: bv8, x: bv8)
    ensures Times(b, []) == 0 && Times(b, [x]) == (if x == b then 1 else 0)
            && Times(b, [x, x, x]) == if x == b then 3 else 0
  {
    assert [x][1..] == [] && [x, x, x][1..] == [x, x] && [x, x][1..] == [x];
  }

  /** One acknowledgement for every block and one for the end, and three cancels exactly if the receiver gives up. */
  ghost predicate Replied(o: Outcome) {
    && Times(XM_ACK, o.output) == |o.blocks| + (if o.result >= 0 || o.result == XMODEM_ERROR_REMOTECANCEL then 1 else 0)
    && Times(XM_CAN, o.output) == (if o.result == XMODEM_ERROR_RETRYEXCEED || o.result == XMODEM_ERROR_OUTOFMEM then 3
                                   else 0)
  }

  /** What a prompt and a reply of one character, or the three cancels, count for. */
  lemma PromptTimes(b: bv8, s: State, reply: bv8, out: seq<bv8>)
    requires b != XM_CRC
    ensures Times(b, Prompt(s) + out) == Times(b, out) && Times(b, [reply]) == (if reply == b then 1 else 0)
            && Times(b, (Prompt(s) + [reply]) + out) == (if reply == b then 1 else 0) + Times(b, out)
            && Times(b, CancelChars()) == if b == XM_CAN then 3 else 0
  {
    TimesFew(b, XM_CRC);
    TimesFew(b, reply);
    TimesFew(b, XM_CAN);
    TimesAppend(b, Prompt(s), out);
    TimesAppend(b, Prompt(s), [reply]);
    TimesAppend(b, Prompt(s) + [reply], out);
    hide Times;
  }

  lemma RepliedAfter(s: State, o: Outcome, payload: seq<bv8>)
    requires Replied(o)
    ensures Replied(After(Prompt(s), o)) && Replied(After(Prompt(s) + [XM_NAK], o))
            && Replied(Stored(s, payload, After(Prompt(s) + [XM_ACK], o)))
  {
    hide Times, Prompt;
    PromptTimes(XM_ACK, s, XM_NAK, o.output);
    PromptTimes(XM_CAN, s, XM_NAK, o.output);
    PromptTimes(XM_ACK, s, XM_ACK, o.output);
    PromptTimes(XM_CAN, s, XM_ACK, o.output);
  }

  /** How a session ends: acknowledged, or with three cancels. */
  lemma RepliedEnds(s: State, result: int, n: nat)
    ensures result >= 0 || result == XMODEM_ERROR_REMOTECANCEL ==>
              Replied(Outcome(result, [], Prompt(s) + [XM_ACK], n))
    ensures result == XMODEM_ERROR_RETRYEXCEED ==> Replied(Outcome(result, [], CancelChars(), n))
    ensures result == XMODEM_ERROR_OUTOFMEM ==> Replied(Outcome(result, [], Prompt(s) + CancelChars(), n))
  {
    hide Times, Prompt, CancelChars;
    PromptTimes(XM_ACK, s, XM_ACK, [XM_ACK]);
    PromptTimes(XM_CAN, s, XM_ACK, [XM_ACK]);
    PromptTimes(XM_ACK, s, XM_ACK, CancelChars());
    PromptTimes(XM_CAN, s, XM_ACK, CancelChars());
  }

  lemma {:induction false} AckPerBlock(s: State, input: seq<Read>)
    ensures Replied(Session(s, input))
    decreases |input|, s.retries
  {
    hide RecordSession, Times, Prompt, CancelChars, Replied;
    RepliedEnds(s, s.size, s.tries + 1);
    RepliedEnds(s, XMODEM_ERROR_REMOTECANCEL, s.tries + 1);
    RepliedEnds(s, XMODEM_ERROR_RETRYEXCEED, s.tries);
    if s.retries > 0 && !(Next(input).0 == Got(XM_EOT) || Next(input).0 == Got(XM_CAN)) {
      if IsStart(Next(input).0) {
        AckPerRecord(s, PayloadSize(Next(input).0.b), Next(input).1);
      } else {
        AckPerBlock(Tried(s), Next(input).1);
        RepliedAfter(s, Session(Tried(s), Next(input).1), []);
      }
    }
  }

  lemma RecordChars(chars: seq<bv8>, number: bv8, n: nat)
    ensures RecordOk(chars, number, n) ==> |chars| == n + 4 && chars != []
  {
    hide Checksum, Word;
  }

  lemma {:induction false} AckPerRecord(s: State, n: nat, rest: seq<Read>)
    requires s.retries > 0
    ensures Replied(RecordSession(s, n, rest))
    decreases |rest|, s.retries, 0
  {
    hide Session, Chars, Flush, Checksum, Word, RecordOk, HasRoom, Times, Prompt, CancelChars, Replied;
    RepliedEnds(s, XMODEM_ERROR_OUTOFMEM, s.tries + 1);
    RecordChars(Chars(rest, n + 4).0, s.number, n);
    var chars := Chars(rest, n + 4);
    CharsShrink(rest, n + 4);
    FlushShrinks(chars.1);
    if RecordOk(chars.0, s.number, n) {
      if HasRoom(s, n) {
        AckPerBlock(Accepted(s, n), Flush(chars.1));
        RepliedAfter(s, Session(Accepted(s, n), Flush(chars.1)), chars.0[2..n + 2]);
      }
    } else {
      AckPerBlock(Refused(s), chars.1);
      RepliedAfter(s, Session(Refused(s), chars.1), []);
    }
  }

  // ---- records on the line ----

  function Line(chars: seq<bv8>): seq<Read> { seq(|chars|, i requires 0 <= i < |chars| => Got(chars[i])) }

  lemma {:induction false} CharsOfLine(chars: seq<bv8>, tail: seq<Read>)
    ensures Chars(Line(chars) + tail, |chars|) == (chars, tail)
    decreases |chars|
  {
    if chars == [] {
      assert Line(chars) + tail == tail;
    } else {
      CharsOfLine(chars[1..], tail);
      assert (Line(chars) + tail)[1..] == Line(chars[1..]) + tail;
      assert [chars[0]] + chars[1..] == chars;
    }
  }

  function Record(number: bv8, payload: seq<bv8>, hi: bv8, lo: bv8): seq<bv8> { [number, !number] + payload + [hi, lo] }

  lemma RecordFields(number: bv8, payload: seq<bv8>, hi: bv8, lo: bv8, expected: bv8)
    ensures var chars := Record(number, payload, hi, lo);
            var n := |payload|;
            |chars| == n + 4 && chars[2..n + 2] == payload
                && (RecordOk(chars, expected, n) <==> expected == number && Checksum(payload) == Word(hi, lo))
  {
    hide Checksum, Word;
    var chars := Record(number, payload, hi, lo);
    assert chars[2..|payload| + 2] == payload;
    assert chars[0] == number && chars[1] == !number && chars[|payload| + 2] == hi && chars[|payload| + 3] == lo;
  }

  /** Any other characters of the length of a record are refused. */
  lemma RefusedRecord(s: State, n: nat, chars: seq<bv8>, more: seq<Read>)
    requires s.retries > 0 && |chars| == n + 4 && !RecordOk(chars, s.number, n)
    ensures RecordSession(s, n, Line(chars) + ([Silence] + more))
            == After(Prompt(s) + [XM_NAK], Session(Refused(s), [Silence] + more))
  {
    hide Session, RecordOk, Line, Chars;
    CharsOfLine(chars, [Silence] + more);
  }

  lemma {:induction false} CharsOfCut(chars: seq<bv8>, n: nat, more: seq<Read>)
    requires |chars| < n
    ensures Chars(Line(chars) + ([Silence, Silence] + more), n) == (chars, more)
    decreases |chars|
  {
    var tail := [Silence, Silence] + more;
    var input := Line(chars) + tail;
    CharsStep(input, n, []);
    if chars == [] {
      assert input == tail && tail[1..] == [Silence] + more && ([Silence] + more)[1..] == more;
      hide Chars;
      assert Chars(input, n).0 == [] + Chars(input, n).0;
    } else {
      CharsOfCut(chars[1..], n - 1, more);
      assert input[1..] == Line(chars[1..]) + tail && input[0] == Got(chars[0]);
      hide Chars, Line;
      assert [chars[0]] + chars[1..] == chars;
      assert Chars(input, n).0 == [] + Chars(input, n).0;
      assert ([] + [chars[0]]) + chars[1..] == chars;
    }
  }

  /** A record that is cut short is refused after two waits in vain. */
  lemma CutRecord(s: State, n: nat, chars: seq<bv8>, more: seq<Read>)
    requires s.retries > 0 && |chars| < n + 4
    ensures RecordSession(s, n, Line(chars) + ([Silence, Silence] + more))
            == After(Prompt(s) + [XM_NAK], Session(Refused(s), more))
  {
    hide Session, Line, Chars, Checksum, Word;
    CharsOfCut(chars, n + 4, more);
  }

  /** A record that arrives whole is stored if it carries the expected number and a matching checksum, and refused
      otherwise. */
  lemma WholeRecord(s: State, number: bv8, payload: seq<bv8>, hi: bv8, lo: bv8, more: seq<Read>)
    requires s.retries > 0
    ensures var o := RecordSession(s, |payload|, Line(Record(number, payload, hi, lo)) + ([Silence] + more));
            if number == s.number && Checksum(payload) == Word(hi, lo)
            then HasRoom(s, |payload|) ==>
                o == Stored(s, payload, After(Prompt(s) + [XM_ACK], Session(Accepted(s, |payload|), more)))
            else o == After(Prompt(s) + [XM_NAK], Session(Refused(s), [Silence] + more))
  {
    hide Session, RecordOk, Checksum, Word, Record, Line, Chars;
    var chars := Record(number, payload, hi, lo);
    RecordFields(number, payload, hi, lo, s.number);
    CharsOfLine(chars, [Silence] + more);
    assert Flush([Silence] + more) == more;
  }

  /** A burst of at most sixteen bits in payload and checksum gets the record refused. */
  lemma DamagedRecord(s: State, number: bv8, payload: seq<bv8>, hi: bv8, lo: bv8, payload': seq<bv8>, hi': bv8,
          lo': bv8, i: nat, more: seq<Read>)
    requires s.retries > 0
    requires Checksum(payload) == Word(hi, lo) && Burst(BitsOf(payload + [hi, lo]), BitsOf(payload' + [hi', lo']), i)
    ensures RecordSession(s, |payload'|, Line(Record(number, payload', hi', lo')) + ([Silence] + more))
            == After(Prompt(s) + [XM_NAK], Session(Refused(s), [Silence] + more))
  {
    hide *;
    BurstDetected(payload, hi, lo, payload', hi', lo', i);
    WholeRecord(s, number, payload', hi', lo', more);
  }
}
