/** A stop-and-wait sender, a line that loses, repeats and damages, and the receiver. */
module XmodemLink {
  import opened XmodemRecords
  import opened Xmodem
  import opened XmodemArrivals

  /** The sender is at block sender; records and acknowledgements are under way in order; so many acknowledgements
      were repeated by the line; the receiver has accepted stored, and log is what its attempts were. */
  datatype Link = Link(sender: nat, records: seq<nat>, acks: nat, repeats: nat, stored: seq<nat>, log: seq<Attempt>)

  datatype Move =
    | Transmit
    | Deliver
    | Damage(n: nat, chars: seq<bv8>)
    | CutShort(n: nat, chars: seq<bv8>)
    | Lose(i: nat)
    | Repeat(i: nat)
    | Wait
    | AckArrives
    | LoseAck
    | RepeatAck

  const START := Link(0, [], 0, 0, [], [])

  /** The sender sends its current block, for the first time or again; the line loses, repeats, damages and cuts records
      and loses and repeats acknowledgements; each acknowledgement that arrives takes the sender to the next block. */
  ghost predicate Enabled(l: Link, m: Move) {
    match m
    case Transmit => true
    case Deliver => l.records != []
    case Damage(n, chars) => l.records != [] && AttemptOk(Damaged(n, chars))
    case CutShort(n, chars) => l.records != [] && AttemptOk(Cut(n, chars))
    case Lose(i) => i < |l.records|
    case Repeat(i) => i < |l.records|
    case Wait => true
    case AckArrives => l.acks > 0
    case LoseAck => l.acks > 0
    case RepeatAck => l.acks > 0
  }

  ghost function Next(l: Link, m: Move): Link
    requires Enabled(l, m)
  {
    match m
    case Transmit => l.(records := l.records + [l.sender])
    case Deliver => Delivered(l)
    case Damage(n, chars) => l.(records := l.records[1..], log := l.log + [Damaged(n, chars)])
    case CutShort(n, chars) => l.(records := l.records[1..], log := l.log + [Cut(n, chars)])
    case Lose(i) => l.(records := l.records[..i] + l.records[i + 1..])
    case Repeat(i) => l.(records := l.records[..i] + [l.records[i]] + l.records[i..])
    case Wait => l.(log := l.log + [Quiet])
    case AckArrives => l.(acks := l.acks - 1, sender := l.sender + 1)
    case LoseAck => l.(acks := l.acks - 1)
    case RepeatAck => l.(acks := l.acks + 1, repeats := l.repeats + 1)
  }

  /** The receiver accepts a record exactly if it carries the number of the next block, and acknowledges it then. */
  function Delivered(l: Link): Link
    requires l.records != []
  {
    var k := l.records[0];
    var l1 := l.(records := l.records[1..], log := l.log + [Intact(k)]);
    if Number(k) == Number(|l.stored|) then l1.(stored := l.stored + [k], acks := l.acks + 1) else l1
  }

  /** Records under way are in order, none older than the last one accepted, none newer than the sender's. */
  ghost predicate Ordered(records: seq<nat>, count: nat, sender: nat) {
    && (forall i :: 0 <= i < |records| ==> count <= records[i] + 1 && records[i] <= sender)
    && (forall i, j :: 0 <= i < j < |records| ==> records[i] <= records[j])
  }

  ghost predicate Prefix(stored: seq<nat>) { forall i :: 0 <= i < |stored| ==> stored[i] == i }

  ghost predicate Inv(l: Link) {
    && Ordered(l.records, |l.stored|, l.sender) && l.sender + l.acks <= |l.stored| + l.repeats
    && |l.stored| <= l.sender + 1
    && Prefix(l.stored) && l.stored == Taken(l.log, 0) && AttemptsOk(l.log)
  }

  lemma {:induction false} TakenSnoc(xs: seq<Attempt>, x: Attempt, n: nat)
    ensures Taken(xs + [x], n) == Taken(xs, n) + if x.Intact? && Number(x.k) == Number(n + |Taken(xs, n)|) then [x.k]
              else []
    decreases |xs|
  {
    hide Number;
    if xs == [] {
      assert [x][1..] == [] && xs + [x] == [x];
    } else {
      assert (xs + [x])[1..] == xs[1..] + [x];
      TakenSnoc(xs[1..], x, if xs[0].Intact? && Number(xs[0].k) == Number(n) then n + 1 else n);
    }
  }

  lemma DeliverKeeps(l: Link)
    requires Inv(l) && l.records != [] && l.repeats < 256
    ensures Inv(Delivered(l))
  {
    hide Number, Taken;
    var k := l.records[0];
    TakenSnoc(l.log, Intact(k), 0);
    if k < |l.stored| { NumbersDiffer(k, |l.stored|); } else { NumbersDiffer(|l.stored|, k); }
    assert AttemptsOk(l.log + [Intact(k)]);
  }

  lemma LogKeeps(l: Link, a: Attempt)
    requires Inv(l) && AttemptOk(a) && !a.Intact?
    ensures Inv(l.(log := l.log + [a]))
  {
    hide Number, Taken, AttemptOk;
    TakenSnoc(l.log, a, 0);
    assert l.stored + [] == l.stored;
  }

  lemma Appended(records: seq<nat>, count: nat, sender: nat)
    requires Ordered(records, count, sender) && count <= sender + 1
    ensures Ordered(records + [sender], count, sender)
  {
  }

  lemma Removed(records: seq<nat>, count: nat, sender: nat, i: nat)
    requires Ordered(records, count, sender) && i < |records|
    ensures Ordered(records[..i] + records[i + 1..], count, sender) && (i == 0 ==> Ordered(records[1..], count, sender))
  {
  }

  lemma Doubled(records: seq<nat>, count: nat, sender: nat, i: nat)
    requires Ordered(records, count, sender) && i < |records|
    ensures Ordered(records[..i] + [records[i]] + records[i..], count, sender)
  {
    var now := records[..i] + [records[i]] + records[i..];
    forall k | 0 <= k < |now|
      ensures now[k] == records[if k <= i then k else k - 1]
    {
    }
  }

  lemma Later(records: seq<nat>, count: nat, sender: nat)
    requires Ordered(records, count, sender)
    ensures Ordered(records, count, sender + 1)
  {
  }

  lemma DamageKeeps(l: Link, m: Move)
    requires Inv(l) && Enabled(l, m) && (m.Damage? || m.CutShort?) && Ordered(l.records[1..], |l.stored|, l.sender)
    ensures Inv(Next(l, m))
  {
    hide Number, Taken, AttemptsOk, Ordered, AttemptOk;
    LogKeeps(l.(records := l.records[1..]), if m.Damage? then Damaged(m.n, m.chars) else Cut(m.n, m.chars));
  }

  /** Every move keeps the link in order, as long as the line has not repeated 256 acknowledgements. */
  lemma MoveKeeps(l: Link, m: Move)
    requires Inv(l) && Enabled(l, m) && l.repeats < 256
    ensures Inv(Next(l, m))
  {
    hide Number, Taken, AttemptsOk, Ordered;
    match m
    case Transmit => Appended(l.records, |l.stored|, l.sender);
    case Lose(i) => Removed(l.records, |l.stored|, l.sender, i);
    case Repeat(i) => Doubled(l.records, |l.stored|, l.sender, i);
    case AckArrives => Later(l.records, |l.stored|, l.sender);
    case Deliver => DeliverKeeps(l);
    case Damage(_, _) => Removed(l.records, |l.stored|, l.sender, 0); DamageKeeps(l, m);
    case CutShort(_, _) => Removed(l.records, |l.stored|, l.sender, 0); DamageKeeps(l, m);
    case Wait => LogKeeps(l, Quiet);
    case _ =>
  }

  ghost predicate Moves(l: Link, ms: seq<Move>)
    decreases |ms|
  {
    ms == [] || (Enabled(l, ms[0]) && Moves(Next(l, ms[0]), ms[1..]))
  }

  ghost function After(l: Link, ms: seq<Move>): Link
    requires Moves(l, ms)
    decreases |ms|
  {
    if ms == [] then l else After(Next(l, ms[0]), ms[1..])
  }

  lemma {:induction false} RepeatsGrow(l: Link, ms: seq<Move>)
    requires Moves(l, ms)
    ensures l.repeats <= After(l, ms).repeats
    decreases |ms|
  {
    if ms != [] {
      RepeatsGrow(Next(l, ms[0]), ms[1..]);
      NextRepeats(l, ms[0]);
      hide Next;
    }
  }

  lemma NextRepeats(l: Link, m: Move)
    requires Enabled(l, m)
    ensures l.repeats <= Next(l, m).repeats
  {
  }

  lemma {:induction false} RunKeeps(l: Link, ms: seq<Move>)
    requires Inv(l) && Moves(l, ms) && After(l, ms).repeats < 256
    ensures Inv(After(l, ms))
    decreases |ms|
  {
    if ms != [] {
      RepeatsGrow(l, ms);
      MoveKeeps(l, ms[0]);
      hide Inv, Next, Enabled;
      RunKeeps(Next(l, ms[0]), ms[1..]);
    }
  }

  /** Whatever the line does, as long as it repeats fewer than 256 acknowledgements: what the receiver stores is a
      part from the front of the sender's blocks, each of them once. */
  lemma StoredInOrder(ms: seq<Move>, blocks: Blocks, memory: nat)
    requires BlocksOk(blocks) && Moves(START, ms) && After(START, ms).repeats < 256
    ensures var l := After(START, ms);
            var o := Session(Start(memory), Arrive(blocks, l.log));
            && Prefix(l.stored) && |l.stored| <= l.sender + 1
            && |o.blocks| <= |l.stored| && forall i :: 0 <= i < |o.blocks| ==> o.blocks[i].payload == blocks(i)
  {
    hide Session, Number, Arrive, Moves, After, Taken;
    assert Inv(START) by { NothingTaken(); }
    RunKeeps(START, ms);
    var l := After(START, ms);
    FirstNumber();
    SessionTakes(Start(memory), blocks, l.log, 0);
  }

  lemma NothingTaken()
    ensures Taken([], 0) == []
  {
  }

  // ---- a lost acknowledgement ----

  /** The last block was stored, but its acknowledgement is lost. */
  ghost predicate Orphaned(l: Link) { Inv(l) && l.repeats < 256 && l.sender + 1 == |l.stored| && l.acks == 0 }

  lemma OrphanedStep(l: Link, m: Move)
    requires Orphaned(l) && Enabled(l, m)
    ensures Orphaned(Next(l, m)) && Next(l, m).stored == l.stored
  {
    MoveKeeps(l, m);
    if m.Deliver? { NumbersDiffer(l.records[0], |l.stored|); }
    hide Number, Taken, AttemptsOk, Prefix;
  }

  /** The receiver refuses the block that the sender goes on sending and never acknowledges it again: whatever
      happens from then on, no further block is stored. */
  lemma {:induction false} LostAckIsFinal(l: Link, ms: seq<Move>)
    requires Orphaned(l) && Moves(l, ms)
    ensures After(l, ms).stored == l.stored && Orphaned(After(l, ms))
    decreases |ms|
  {
    if ms != [] {
      OrphanedStep(l, ms[0]);
      hide Orphaned, Next, Enabled;
      LostAckIsFinal(Next(l, ms[0]), ms[1..]);
    }
  }

  // ---- when another block can be stored ----

  /** The next block is under way, or the sender has it or gets to it with the acknowledgements under way. */
  predicate Alive(l: Link) { |l.stored| in l.records || l.sender <= |l.stored| <= l.sender + l.acks }

  lemma LoseOne(records: seq<nat>, i: nat, k: nat)
    requires i < |records|
    ensures k in records[..i] + records[i + 1..] ==> k in records
  {
  }

  lemma RepeatOne(records: seq<nat>, i: nat, k: nat)
    requires i < |records|
    ensures k in records[..i] + [records[i]] + records[i..] <==> k in records
  {
  }

  lemma DeadStep(l: Link, m: Move)
    requires Inv(l) && l.repeats < 256 && !Alive(l) && Enabled(l, m)
    ensures Inv(Next(l, m)) && !Alive(Next(l, m)) && Next(l, m).stored == l.stored
  {
    MoveKeeps(l, m);
    match m
    case Lose(i) => LoseOne(l.records, i, |l.stored|);
    case Repeat(i) => RepeatOne(l.records, i, |l.stored|);
    case Deliver => NotTheNext(l);
    case _ =>
  }

  lemma NotTheNext(l: Link)
    requires Inv(l) && l.repeats < 256 && l.records != [] && l.records[0] != |l.stored|
    ensures Number(l.records[0]) != Number(|l.stored|)
  {
    hide Number, Taken, AttemptsOk, Prefix;
    var k := l.records[0];
    if k < |l.stored| { NumbersDiffer(k, |l.stored|); } else { NumbersDiffer(|l.stored|, k); }
  }

  lemma {:induction false} DeadIsFinal(l: Link, ms: seq<Move>)
    requires Inv(l) && !Alive(l) && Moves(l, ms) && After(l, ms).repeats < 256
    ensures After(l, ms).stored == l.stored
    decreases |ms|
  {
    if ms != [] {
      RepeatsGrow(l, ms);
      DeadStep(l, ms[0]);
      hide Inv, Alive, Next, Enabled;
      DeadIsFinal(Next(l, ms[0]), ms[1..]);
    }
  }

  /** A run that stores another block: records ahead of the next block get lost. */
  lemma {:induction false} ReachRecord(l: Link) returns (ms: seq<Move>)
    requires |l.stored| in l.records
    ensures Moves(l, ms) && After(l, ms).repeats == l.repeats && |After(l, ms).stored| == |l.stored| + 1
    decreases |l.records|
  {
    hide Number;
    if l.records[0] == |l.stored| {
      ms := [Deliver];
      assert [Deliver][1..] == [] && After(l, [Deliver]) == Next(l, Deliver);
    } else {
      var n := Next(l, Lose(0));
      assert n.records == l.records[1..];
      var rest := ReachRecord(n);
      ms := [Lose(0)] + rest;
      assert ms[1..] == rest;
    }
  }

  /** A run that stores another block: the sender gets to it and sends it. */
  lemma {:induction false} ReachNext(l: Link) returns (ms: seq<Move>)
    requires l.sender <= |l.stored| <= l.sender + l.acks
    ensures Moves(l, ms) && After(l, ms).repeats == l.repeats && |After(l, ms).stored| == |l.stored| + 1
    decreases |l.stored| - l.sender
  {
    if l.sender == |l.stored| {
      var n := Next(l, Transmit);
      assert n.records[|l.records|] == |l.stored|;
      var rest := ReachRecord(n);
      ms := [Transmit] + rest;
      assert ms[1..] == rest;
    } else {
      var rest := ReachNext(Next(l, AckArrives));
      ms := [AckArrives] + rest;
      assert ms[1..] == rest;
    }
  }

  /** Exactly when a further block can still be stored. */
  lemma AnotherBlockIff(l: Link)
    requires Inv(l) && l.repeats < 256
    ensures (exists ms :: Moves(l, ms) && After(l, ms).repeats < 256 && After(l, ms).stored != l.stored) <==> Alive(l)
  {
    if Alive(l) {
      var ms;
      if |l.stored| in l.records { ms := ReachRecord(l); } else { ms := ReachNext(l); }
      assert After(l, ms).stored != l.stored;
    } else {
      forall ms | Moves(l, ms) && After(l, ms).repeats < 256
        ensures After(l, ms).stored == l.stored
      {
        DeadIsFinal(l, ms);
      }
    }
  }

  // ---- the bound is exact ----

  function Times(m: Move, n: nat): seq<Move> { if n == 0 then [] else [m] + Times(m, n - 1) }

  lemma {:induction false} MovesAppend(l: Link, a: seq<Move>, b: seq<Move>)
    requires Moves(l, a) && Moves(After(l, a), b)
    ensures Moves(l, a + b) && After(l, a + b) == After(After(l, a), b)
    decreases |a|
  {
    if a == [] {
      assert a + b == b;
    } else {
      hide Next, Enabled;
      assert (a + b)[0] == a[0] && (a + b)[1..] == a[1..] + b;
      MovesAppend(Next(l, a[0]), a[1..], b);
    }
  }

  lemma {:induction false} RepeatTimes(l: Link, n: nat)
    requires l.acks > 0
    ensures Moves(l, Times(RepeatAck, n))
            && After(l, Times(RepeatAck, n)) == l.(acks := l.acks + n, repeats := l.repeats + n)
    decreases n
  {
    if n > 0 {
      RepeatTimes(Next(l, RepeatAck), n - 1);
      assert Times(RepeatAck, n)[1..] == Times(RepeatAck, n - 1);
    }
  }

  lemma {:induction false} AckTimes(l: Link, n: nat)
    requires l.acks >= n
    ensures Moves(l, Times(AckArrives, n))
            && After(l, Times(AckArrives, n)) == l.(acks := l.acks - n, sender := l.sender + n)
    decreases n
  {
    if n > 0 {
      AckTimes(Next(l, AckArrives), n - 1);
      assert Times(AckArrives, n)[1..] == Times(AckArrives, n - 1);
    }
  }

  lemma TransmitDeliver(l: Link)
    requires l.records == [] && Number(l.sender) == Number(|l.stored|)
    ensures Moves(l, [Transmit, Deliver])
    ensures After(l, [Transmit, Deliver]) == l.(stored := l.stored + [l.sender], acks := l.acks + 1,
              log := l.log + [Intact(l.sender)])
  {
    hide Number;
    var n := Next(l, Transmit);
    assert [] + [l.sender] == [l.sender] && n.records[0] == l.sender && n.records[1..] == [];
    assert [Transmit, Deliver][1..] == [Deliver] && [Deliver][1..] == [];
    assert After(n, [Deliver]) == Next(n, Deliver);
  }

  /** When the line repeats 256 acknowledgements, the sender can get so far ahead that its block number is the
      expected one again: the receiver then stores block 257 after block 0. */
  lemma WrongAfter256() returns (ms: seq<Move>)
    ensures Moves(START, ms) && After(START, ms).repeats == 256 && After(START, ms).stored == [0, 257]
  {
    hide Number, Moves, After;
    TransmitDeliver(START);
    var l1 := After(START, [Transmit, Deliver]);
    RepeatTimes(l1, 256);
    var l2 := After(l1, Times(RepeatAck, 256));
    MovesAppend(START, [Transmit, Deliver], Times(RepeatAck, 256));
    var m2 := [Transmit, Deliver] + Times(RepeatAck, 256);
    AckTimes(l2, 257);
    var l3 := After(l2, Times(AckArrives, 257));
    MovesAppend(START, m2, Times(AckArrives, 257));
    var m3 := m2 + Times(AckArrives, 257);
    NumbersRepeat(1);
    assert l3.sender == 257 && l3.stored == [0] && l3.records == [];
    TransmitDeliver(l3);
    MovesAppend(START, m3, [Transmit, Deliver]);
    ms := m3 + [Transmit, Deliver];
  }

  /** What is stored stays in order in all runs with so many repeated acknowledgements exactly if they are fewer
      than 256. */
  lemma InOrderIff(n: nat)
    ensures (forall ms :: Moves(START, ms) && After(START, ms).repeats <= n ==> Prefix(After(START, ms).stored)) <==>
              n < 256
  {
    hide Moves, After;
    if n < 256 {
      assert Inv(START) by { NothingTaken(); }
      forall ms | Moves(START, ms) && After(START, ms).repeats <= n
        ensures Prefix(After(START, ms).stored)
      {
        RunKeeps(START, ms);
      }
    } else {
      var ms := WrongAfter256();
      assert After(START, ms).stored[1] == 257;
    }
  }
}
