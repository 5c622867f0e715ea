/** The XMODEM receiver. */
module Xmodem {
  import opened Crc
  import opened XmodemRecords

  class Receiver {
    /** The characters that will come, and those that went out. */
    var input: seq<Read>
    var output: seq<bv8>
    var dest: array<bv8>
    /** The largest size that realloc can give. */
    const memory: nat

    constructor (input: seq<Read>, memory: nat)
      ensures this.input == input && this.memory == memory && output == [] && fresh(dest)
              && dest.Length == XMODEM_INITIAL_BUFFER_SIZE
    {
      this.input, this.memory, output := input, memory, [];
      dest := new bv8[XMODEM_INITIAL_BUFFER_SIZE];
    }

    /** What is stored at the destination, whose size is the limit. */
    ghost predicate Holds(stored: seq<bv8>, size: nat, limit: nat)
      reads this`dest, dest
    {
      |stored| == size <= limit == dest.Length && dest[..size] == stored
    }

    lemma HoldsNothing()
      ensures Holds([], 0, dest.Length)
    {
    }

    lemma Held(stored: seq<bv8>, size: nat, limit: nat)
      requires Holds(stored, size, limit)
      ensures |stored| == size <= dest.Length && dest[..size] == stored
    {
    }

    method In() returns (r: Read)
      modifies this`input
      ensures (r, input) == Next(old(input))
    {
      if input == [] {
        r := Silence;
      } else {
        r := input[0];
        input := input[1..];
      }
    }

    method Out(b: bv8)
      modifies this`output
      ensures output == old(output) + [b]
    {
      output := output + [b];
    }

    /** xmodem_flush. */
    method FlushInput(cancel: bool)
      modifies this`input, this`output
      ensures input == Flush(old(input)) && output == old(output) + if cancel then CancelChars() else []
    {
      ghost var start, sent := input, output;
      var ch := In();
      while ch != Silence
        invariant Flush(start) == if ch == Silence then input else Flush(input)
        invariant output == sent
        decreases |input| + if ch == Silence then 0 else 1
      {
        ch := In();
      }
      if cancel {
        Out(XM_CAN);
        Out(XM_CAN);
        Out(XM_CAN);
        assert output == sent + CancelChars();
      }
    }

    /** Reads the characters of a record into the buffer, until one does not come. */
    method ReadChars(buf: array<bv8>, n: nat) returns (count: nat)
      requires buf.Length >= n
      modifies this`input, buf
      ensures count <= n && (buf[..count], input) == Chars(old(input), n)
    {
      hide Chars;
      count := 0;
      ghost var start := input;
      assert buf[..0] + Chars(input, n).0 == Chars(input, n).0;
      while count < n
        invariant 0 <= count <= n
        invariant Chars(start, n) == (buf[..count] + Chars(input, n - count).0, Chars(input, n - count).1)
      {
        CharsStep(input, n - count, buf[..count]);
        var ch := In();
        if ch == Silence {
          ch := In();
          if ch == Silence {
            return;
          }
        }
        ghost var before := buf[..count];
        buf[count] := ch.b;
        count := count + 1;
        assert buf[..count] == before + [ch.b];
      }
      CharsStep(input, 0, buf[..count]);
    }

    /** The remainder of the payload, in the low half of a 32-bit word. */
    method PayloadChecksum(buf: array<bv8>, n: nat) returns (chk: bv32)
      requires buf.Length >= n + 2
      ensures Low(chk) == Checksum(buf[2..n + 2])
    {
      hide Checksum, Feed, Low, Step32, Plus, Octet;
      chk := 0;
      LowZero();
      ChecksumNext([], 0);
      assert buf[2..2] == [];
      var size := 0;
      while size < n
        invariant 0 <= size <= n
        invariant Low(chk) == Checksum(buf[2..size + 2])
      {
        ghost var c := Low(chk);
        var b := buf[size + 2];
        LowOctet(chk, b);
        chk := chk ^ ((b as bv32) << 8);
        var j := 0;
        while j < 8
          invariant 0 <= j <= 8
          invariant Feed(Low(chk), Zeros(8 - j)) == Feed(Plus(c, Octet(b)), Zeros(8))
        {
          ShiftOnce(chk, 8 - j);
          chk := Step32(chk);
          j := j + 1;
        }
        ShiftNone(Low(chk));
        ChecksumNext(buf[2..size + 2], b);
        assert buf[2..size + 3] == buf[2..size + 2] + [b];
        size := size + 1;
      }
    }

    /** xmodem_get_record. */
    method GetRecord(blocknum: bv8, buf: array<bv8>, packSz: nat) returns (ok: bool)
      requires buf.Length >= packSz + 4
      modifies this`input, this`output, buf
      ensures var chars := Chars(old(input), packSz + 4);
              && ok == RecordOk(chars.0, blocknum, packSz) && input == chars.1
              && output == old(output) + (if ok then [] else [XM_NAK]) && (ok ==> buf[..packSz + 4] == chars.0)
    {
      hide Chars, Checksum, Word, Low, CheckMatches;
      var count := ReadChars(buf, packSz + 4);
      ok := false;
      if count == packSz + 4 && buf[0] == blocknum && buf[1] == !blocknum {
        var chk := PayloadChecksum(buf, packSz);
        LowMatches(chk, buf[packSz + 2], buf[packSz + 3]);
        chk := chk & 0xFFFF;
        ok := CheckMatches(chk, buf[packSz + 2], buf[packSz + 3]);
        assert buf[..packSz + 4][2..packSz + 2] == buf[2..packSz + 2];
      }
      if !ok { Out(XM_NAK); }
    }

    /** realloc of the destination. */
    method Realloc(limit: nat) returns (ok: bool)
      requires limit >= dest.Length
      modifies this`dest
      ensures ok == (limit <= memory)
              && (ok ==> fresh(dest) && dest.Length == limit && dest[..old(dest.Length)] == old(dest[..]))
              && (!ok ==> dest == old(dest))
    {
      ok := limit <= memory;
      if ok {
        var was := dest;
        var p := new bv8[limit];
        var i := 0;
        while i < was.Length
          invariant 0 <= i <= was.Length && p[..i] == was[..i] && dest == was
        {
          p[i] := was[i];
          i := i + 1;
        }
        assert was[..was.Length] == was[..];
        dest := p;
      }
    }

    /** Stores the payload of a record behind what is stored already. */
    method Append(buf: array<bv8>, size: nat, n: nat)
      requires buf.Length >= n + 2 && size + n <= dest.Length && buf != dest
      modifies dest
      ensures dest[..size + n] == old(dest[..size]) + buf[2..n + 2]
    {
      var i := 0;
      ghost var was := dest[..size];
      while i < n
        invariant 0 <= i <= n && dest[..size + i] == was + buf[2..i + 2]
      {
        dest[size + i] := buf[i + 2];
        i := i + 1;
      }
    }

    /** Makes room for the payload of a record and stores it. */
    method Consume(buf: array<bv8>, size: nat, limit0: nat, n: nat) returns (ok: bool, limit: nat)
      requires buf.Length >= n + 2 && size <= limit0 == dest.Length && buf != dest && n <= XMODEM_INCREMENT_AMMOUNT
      modifies this`dest, dest
      ensures limit == (if size + n > limit0 then limit0 + XMODEM_INCREMENT_AMMOUNT else limit0)
      ensures ok == (size + n <= limit0 || limit <= memory) && (dest == old(dest) || fresh(dest))
      ensures ok ==>
                size + n <= limit == dest.Length && dest[..size + n] == old(dest[..size]) + buf[2..n + 2] && dest != buf
      ensures !ok ==> dest.Length == limit0 && dest[..size] == old(dest[..size])
    {
      ok, limit := true, limit0;
      if size + n > limit {
        limit := limit + XMODEM_INCREMENT_AMMOUNT;
        ok := Realloc(limit);
      }
      if ok { Append(buf, size, n); }
    }

    /** One record: it is read, checked, stored and acknowledged, or refused, or there is no room for it. */
    method TakeRecord(ghost s: State, buf: array<bv8>, packnum: bv8, packSz: nat, size: nat, limit0: nat,
            ghost stored: seq<bv8>)
        returns (ok: bool, stays: bool, limit: nat, ghost payload: seq<bv8>)
      requires buf.Length >= packSz + 4 && buf != dest && packSz <= XMODEM_INCREMENT_AMMOUNT
               && Holds(stored, size, limit0)
      requires s.number == packnum && s.size == size && s.limit == limit0 && s.memory == memory
      modifies this`input, this`output, this`dest, dest, buf
      ensures ok == RecordOk(Chars(old(input), packSz + 4).0, packnum, packSz) && (dest == old(dest) || fresh(dest))
              && dest != buf
      ensures !ok ==>
                && input == Chars(old(input), packSz + 4).1 && output == old(output) + [XM_NAK]
                && limit == limit0 && Holds(stored, size, limit)
      ensures ok ==> payload == Chars(old(input), packSz + 4).0[2..packSz + 2] && stays == HasRoom(s, packSz)
      ensures ok && stays ==> input == Flush(Chars(old(input), packSz + 4).1) && output == old(output) + [XM_ACK]
      ensures ok && stays ==> limit == Grown(s, packSz) && Holds(stored + payload, size + packSz, limit)
      ensures ok && !stays ==>
                output == old(output) + CancelChars() && |stored| <= dest.Length && dest[..|stored|] == stored
    {
      hide Chars, Flush, RecordOk;
      payload, stays, limit := [], true, limit0;
      ok := GetRecord(packnum, buf, packSz);
      if ok {
        FlushInput(false);
        payload := buf[2..packSz + 2];
        SamePayload(buf[..packSz + 4], buf[..], packSz);
        stays, limit := Consume(buf, size, limit0, packSz);
        if stays { Out(XM_ACK); } else { FlushInput(true); }
      }
    }

    /** The part of the receiver loop that deals with a record. */
    method RecordTurn(ghost s: State, buf: array<bv8>, packnum0: bv8, retries0: nat, packSz: nat, size0: nat,
            limit0: nat, ghost stored0: seq<bv8>,
                      ghost o: Outcome, ghost sent: seq<bv8>, ghost out0: seq<bv8>)
        returns (stays: bool, packnum: bv8, retries: nat, size: nat, limit: nat, ghost stored: seq<bv8>, ghost t: State)
      requires buf.Length >= packSz + 4 && buf != dest && packSz <= XMODEM_INCREMENT_AMMOUNT
               && Holds(stored0, size0, limit0)
      requires s.number == packnum0 && s.size == size0 && s.limit == limit0 && s.memory == memory
               && s.retries == retries0 + 1
      requires output == out0 + Prompt(s) && Continues(o, sent, out0, stored0, RecordSession(s, packSz, input))
      modifies this`input, this`output, this`dest, dest, buf
      ensures (dest == old(dest) || fresh(dest)) && dest != buf
      ensures !stays ==>
                && o.result == XMODEM_ERROR_OUTOFMEM && output == sent + o.output && Bytes(o.blocks) == stored
                && |stored| <= dest.Length && dest[..|stored|] == stored
      ensures stays ==>
                && t.number == packnum && t.retries == retries && !t.starting
                && t.size == size && t.limit == limit && t.memory == memory
      ensures stays ==> Holds(stored, size, limit) && Continues(o, sent, output, stored, Session(t, input))
      ensures stays ==> |input| < old(|input|) || (|input| == old(|input|) && retries == retries0)
    {
      hide Session, RecordSession, RecordOk, Chars, Flush, Stored, Continues, After, Bytes, CancelChars, Holds,
           HasRoom, Grown, Accepted;
      packnum, retries, size, stored, t := packnum0, retries0, size0, stored0, Refused(s);
      RecordSessionIs(s, packSz, input);
      CharsShrink(input, packSz + 4);
      FlushShrinks(Chars(input, packSz + 4).1);
      RecordChars(Chars(input, packSz + 4).0, packnum, packSz);
      Joined3(out0, Prompt(s), [XM_NAK]);
      Joined3(out0, Prompt(s), [XM_ACK]);
      var ok;
      ghost var payload;
      ok, stays, limit, payload := TakeRecord(s, buf, packnum, packSz, size, limit0, stored);
      if !ok {
        stays := true;
        ContinuesAfter(o, sent, out0, stored, Prompt(s) + [XM_NAK], Session(t, input));
      } else if !stays {
        EndedWith(o, sent, out0, stored, XMODEM_ERROR_OUTOFMEM, Prompt(s), CancelChars(), s.tries + 1);
      } else {
        retries := XMODEM_RETRY_LIMIT;
        packnum := Succ(packnum);
        size := size + packSz;
        t := Accepted(s, packSz);
        ContinuesStored(o, sent, out0, stored, s, payload, Prompt(s) + [XM_ACK], Session(t, input));
        stored := stored + payload;
        AcceptedIs(s, packSz);
      }
    }

    method Invite(ghost s: State, starting: bool)
      requires s.starting == starting
      modifies this`output
      ensures output == old(output) + Prompt(s)
    {
      if starting { Out(XM_CRC); }
    }

    /** xmodem_receive: the outcome is that of the session, and the blocks of the session are what is stored. */
    method Receive() returns (result: int, ghost stored: seq<bv8>)
      requires dest.Length == XMODEM_INITIAL_BUFFER_SIZE
      modifies this`input, this`output, this`dest, dest
      ensures var o := Session(Start(memory), old(input));
              result == o.result && output == old(output) + o.output && stored == Bytes(o.blocks)
      ensures |stored| <= dest.Length && dest[..|stored|] == stored
    {
      hide Session, RecordSession, Flush, Continues, After, Bytes, Next, CancelChars, Holds, Prompt, IsStart,
           PayloadSize;
      ghost var o := Session(Start(memory), input);
      ghost var sent := output;
      var starting, packnum, buf := true, 1 as bv8, new bv8[1024 + 4];
      var retries: nat, limit: nat, size: nat := XMODEM_RETRY_LIMIT, XMODEM_INITIAL_BUFFER_SIZE, 0;
      stored := [];
      ghost var s := Start(memory);
      FromTheStart(o, sent);
      assert Holds(stored, size, limit) by { HoldsNothing(); }
      while retries > 0
        invariant s.number == packnum && s.retries == retries && s.starting == starting
        invariant s.size == size && s.limit == limit && s.memory == memory
        invariant Holds(stored, size, limit)
        invariant dest == old(dest) || fresh(dest)
        invariant buf != dest && fresh(buf) && buf.Length == 1024 + 4
        invariant Continues(o, sent, output, stored, Session(s, input))
        decreases |input|, retries
      {
        ghost var out0 := output;
        SessionIs(s, input);
        NextShrinks(input);
        SilenceIsNoStart();
        retries := retries - 1;
        Invite(s, starting);
        var ch := In();
        if ch == Got(XM_EOT) {
          Out(XM_ACK);
          Ended(o, sent, out0, stored, s.size, Prompt(s), XM_ACK, s.tries + 1);
          FlushInput(false);
          Held(stored, size, limit);
          return size, stored;
        }
        if ch == Got(XM_CAN) {
          Out(XM_ACK);
          Ended(o, sent, out0, stored, XMODEM_ERROR_REMOTECANCEL, Prompt(s), XM_ACK, s.tries + 1);
          FlushInput(false);
          Held(stored, size, limit);
          return XMODEM_ERROR_REMOTECANCEL, stored;
        }
        if ch == Silence || !IsStart(ch) {
          ContinuesAfter(o, sent, out0, stored, Prompt(s), Session(Tried(s), input));
          s := Tried(s);
          continue;
        }
        PayloadFits(ch.b);
        var packSz := PayloadSize(ch.b);
        starting := false;
        var stays;
        ghost var t;
        stays, packnum, retries, size, limit, stored,
            t := RecordTurn(s, buf, packnum, retries, packSz, size, limit, stored, o, sent, out0);
        if !stays {
          return XMODEM_ERROR_OUTOFMEM, stored;
        }
        s := t;
      }
      SessionIs(s, input);
      EndedWith(o, sent, output, stored, XMODEM_ERROR_RETRYEXCEED, [], CancelChars(), s.tries);
      FlushInput(true);
      Held(stored, size, limit);
      return XMODEM_ERROR_RETRYEXCEED, stored;
    }
  }

  function Start(memory: nat): State { State(1, XMODEM_RETRY_LIMIT, true, 0, XMODEM_INITIAL_BUFFER_SIZE, memory, 0) }

  /** o is what has been sent and stored since, followed by the outcome of the rest. */
  ghost predicate Continues(o: Outcome, sent: seq<bv8>, output: seq<bv8>, stored: seq<bv8>, rest: Outcome) {
    && o.result == rest.result && output + rest.output == sent + o.output
    && Bytes(o.blocks) == stored + Bytes(rest.blocks)
  }

  lemma NextShrinks(input: seq<Read>)
    ensures |Next(input).1| <= |input|
  {
  }

  lemma AcceptedIs(s: State, n: nat)
    ensures Accepted(s, n) == State(Succ(s.number), XMODEM_RETRY_LIMIT, false, s.size + n, Grown(s, n), s.memory, 0)
  {
  }

  lemma SilenceIsNoStart()
    ensures !IsStart(Silence)
  {
  }

  lemma PayloadFits(b: bv8)
    ensures PayloadSize(b) <= 1024
  {
  }

  lemma FromTheStart(o: Outcome, sent: seq<bv8>)
    ensures Continues(o, sent, sent, [], o)
  {
  }

  lemma SamePayload(chars: seq<bv8>, buf: seq<bv8>, n: nat)
    requires n + 4 <= |buf| && chars == buf[..n + 4]
    ensures chars[2..n + 2] == buf[2..n + 2]
  {
  }

  lemma Joined3(a: seq<bv8>, b: seq<bv8>, c: seq<bv8>)
    ensures (a + b) + c == a + (b + c)
  {
  }

  lemma ContinuesAfter(o: Outcome, sent: seq<bv8>, output: seq<bv8>, stored: seq<bv8>, p: seq<bv8>, rest: Outcome)
    requires Continues(o, sent, output, stored, After(p, rest))
    ensures Continues(o, sent, output + p, stored, rest)
  {
    hide Bytes;
    assert (output + p) + rest.output == output + (p + rest.output);
  }

  lemma ContinuesStored(o: Outcome, sent: seq<bv8>, output: seq<bv8>, stored: seq<bv8>, s: State, payload: seq<bv8>,
          p: seq<bv8>, rest: Outcome)
    requires Continues(o, sent, output, stored, Stored(s, payload, After(p, rest)))
    ensures Continues(o, sent, output + p, stored + payload, rest)
  {
    var block := Block(payload, s.tries + 1);
    assert ([block] + rest.blocks)[1..] == rest.blocks;
    assert Bytes([block] + rest.blocks) == payload + Bytes(rest.blocks);
    hide Bytes;
    assert (output + p) + rest.output == output + (p + rest.output);
    assert stored + (payload + Bytes(rest.blocks)) == (stored + payload) + Bytes(rest.blocks);
  }

  lemma EndedWith(o: Outcome, sent: seq<bv8>, output: seq<bv8>, stored: seq<bv8>, result: int, p: seq<bv8>,
          q: seq<bv8>, n: nat)
    requires Continues(o, sent, output, stored, Outcome(result, [], p + q, n))
    ensures o.result == result && (output + p) + q == sent + o.output && Bytes(o.blocks) == stored
  {
    Joined3(output, p, q);
    assert stored + [] == stored;
  }

  lemma Ended(o: Outcome, sent: seq<bv8>, output: seq<bv8>, stored: seq<bv8>, result: int, p: seq<bv8>, c: bv8, n: nat)
    requires Continues(o, sent, output, stored, Outcome(result, [], p + [c], n))
    ensures o.result == result && (output + p) + [c] == sent + o.output && Bytes(o.blocks) == stored
  {
    EndedWith(o, sent, output, stored, result, p, [c], n);
  }

  /** A session, one attempt at a time. */
  lemma SessionIs(s: State, input: seq<Read>)
    ensures s.retries == 0 ==> Session(s, input) == Outcome(XMODEM_ERROR_RETRYEXCEED, [], [] + CancelChars(), s.tries)
    ensures s.retries > 0 ==>
              var r := Next(input).0;
              var rest := Next(input).1;
              if r == Got(XM_EOT) then Session(s, input) == Outcome(s.size, [], Prompt(s) + [XM_ACK], s.tries + 1)
              else if r == Got(XM_CAN) then Session(s, input) == Outcome(XMODEM_ERROR_REMOTECANCEL, [],
                  Prompt(s) + [XM_ACK], s.tries + 1)
              else if IsStart(r) then Session(s, input) == RecordSession(s, PayloadSize(r.b), rest)
              else Session(s, input) == After(Prompt(s), Session(Tried(s), rest))
  {
    hide RecordSession, After;
  }

  lemma RecordSessionIs(s: State, n: nat, rest: seq<Read>)
    requires s.retries > 0
    ensures var chars := Chars(rest, n + 4);
            if !RecordOk(chars.0, s.number, n) then
              RecordSession(s, n, rest) == After(Prompt(s) + [XM_NAK], Session(Refused(s), chars.1))
            else if !HasRoom(s, n) then RecordSession(s, n, rest) == Outcome(XMODEM_ERROR_OUTOFMEM, [],
                Prompt(s) + CancelChars(), s.tries + 1)
            else RecordSession(s, n, rest) == Stored(s, chars.0[2..n + 2],
                After(Prompt(s) + [XM_ACK], Session(Accepted(s, n), Flush(chars.1))))
  {
    hide RecordOk, Chars, Flush, After, Stored, Session;
  }
}
