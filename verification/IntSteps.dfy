/** The interrupt queue as a state machine: the interrupt side adds in one step, the hook takes several. */
module IntSteps {

  const ELUA_INT_EMPTY_SLOT := 0

  datatype Interrupt = Interrupt(id: nat, resnum: nat)

  /** Where the hook is: not running, or with the interrupt it copied, after emptying its slot, after moving the read
      index, after calling the handler. */
  datatype Place =
    | Outside
    | Copied(crt: Interrupt)
    | Emptied(crt: Interrupt)
    | Moved(crt: Interrupt)
    | Handled(crt: Interrupt)

  /** The queue and its indexes, whether the hook is set, where it is; then what was accepted, what was taken out of the
      queue and for what the handler was called. */
  datatype Queue = Queue(slots: seq<Interrupt>, read: nat, write: nat, hook: bool, place: Place,
                         accepted: seq<Interrupt>, taken: seq<Interrupt>, called: seq<Interrupt>)

  function Wrap(x: nat, size: nat): nat { if x >= size then x - size else x }

  predicate Shape(q: Queue) { q.read < |q.slots| && q.write < |q.slots| }

  predicate Full(q: Queue)
    requires Shape(q)
  {
    q.slots[q.write].id != ELUA_INT_EMPTY_SLOT
  }

  /** elua_int_add of an enabled interrupt. */
  function Add(q: Queue, e: Interrupt): Queue
    requires Shape(q)
  {
    if Full(q) then q
    else q.(slots := q.slots[q.write := e], write := Wrap(q.write + 1, |q.slots|), hook := true,
        accepted := q.accepted + [e])
  }

  /** One step of elua_int_hook. */
  function HookStep(q: Queue, enabled: bool): Queue
    requires Shape(q)
  {
    match q.place
    case Outside => q.(place := Copied(q.slots[q.read]))
    case Copied(crt) => q.(slots := q.slots[q.read := q.slots[q.read].(id := ELUA_INT_EMPTY_SLOT)],
        place := Emptied(crt), taken := q.taken + [crt])
    case Emptied(crt) => q.(read := Wrap(q.read + 1, |q.slots|), place := Moved(crt))
    case Moved(crt) => q.(place := Handled(crt), called := q.called + if enabled then [crt] else [])
    case Handled(crt) => q.(place := Outside, hook := q.slots[q.read].id != ELUA_INT_EMPTY_SLOT)
  }

  // ---- what every step keeps ----

  /** Accepted and not yet taken. */
  function Waiting(q: Queue): seq<Interrupt>
    requires |q.taken| <= |q.accepted|
  {
    q.accepted[|q.taken|..]
  }

  /** Where the waiting interrupts begin; between emptying a slot and moving on, it is the slot after. */
  function Base(q: Queue): nat
    requires q.read < |q.slots|
  {
    if q.place.Emptied? then Wrap(q.read + 1, |q.slots|) else q.read
  }

  /** Slot i of the ring, counted from base. */
  function At(slots: seq<Interrupt>, base: nat, i: nat): Interrupt
    requires base < |slots| && i < |slots|
  {
    slots[Wrap(base + i, |slots|)]
  }

  /** The ring holds the waiting interrupts in order from base on, and nothing else. */
  ghost predicate Ring(slots: seq<Interrupt>, base: nat, waiting: seq<Interrupt>) {
    && base < |slots| && |waiting| <= |slots|
    && (forall i {:trigger At(slots, base, i)} :: 0 <= i < |slots| ==>
          if i < |waiting| then At(slots, base, i) == waiting[i] && waiting[i].id != ELUA_INT_EMPTY_SLOT
          else At(slots, base, i).id == ELUA_INT_EMPTY_SLOT)
  }

  ghost predicate PlaceOk(q: Queue)
    requires |q.taken| <= |q.accepted|
  {
    match q.place
    case Outside => true
    case Copied(crt) => Waiting(q) != [] && Waiting(q)[0] == crt
    case _ => q.taken != [] && q.taken[|q.taken| - 1] == q.place.crt
  }

  ghost predicate Inv(q: Queue) {
    && Shape(q) && |q.taken| <= |q.accepted| && q.taken == q.accepted[..|q.taken|]
    && Ring(q.slots, Base(q), Waiting(q)) && q.write == Wrap(Base(q) + |Waiting(q)|, |q.slots|)
    && PlaceOk(q)
    && (if q.place.Outside? then q.hook <==> Waiting(q) != [] else q.hook)
  }

  lemma RingAdd(slots: seq<Interrupt>, base: nat, waiting: seq<Interrupt>, e: Interrupt)
    requires Ring(slots, base, waiting) && e.id != ELUA_INT_EMPTY_SLOT
    ensures Wrap(base + |waiting|, |slots|) < |slots|
    ensures slots[Wrap(base + |waiting|, |slots|)].id == ELUA_INT_EMPTY_SLOT <==> |waiting| < |slots|
    ensures |waiting| < |slots| ==> Ring(slots[Wrap(base + |waiting|, |slots|) := e], base, waiting + [e])
    ensures |waiting| < |slots| ==>
              Wrap(Wrap(base + |waiting|, |slots|) + 1, |slots|) == Wrap(base + |waiting + [e]|, |slots|)
  {
    if |waiting| == |slots| {
      assert slots[base] == At(slots, base, 0);
    } else {
      assert slots[Wrap(base + |waiting|, |slots|)] == At(slots, base, |waiting|);
      var now := slots[Wrap(base + |waiting|, |slots|) := e];
      forall i {:trigger At(now, base, i)} | 0 <= i < |slots|
        ensures At(now, base, i) == if i == |waiting| then e else At(slots, base, i)
      {
      }
    }
  }

  lemma RingRemove(slots: seq<Interrupt>, base: nat, waiting: seq<Interrupt>)
    requires Ring(slots, base, waiting) && waiting != []
    ensures slots[base] == waiting[0]
    ensures Ring(slots[base := slots[base].(id := ELUA_INT_EMPTY_SLOT)], Wrap(base + 1, |slots|), waiting[1..])
    ensures Wrap(Wrap(base + 1, |slots|) + |waiting[1..]|, |slots|) == Wrap(base + |waiting|, |slots|)
  {
    var n := |slots|;
    var now := slots[base := slots[base].(id := ELUA_INT_EMPTY_SLOT)];
    var next := Wrap(base + 1, n);
    assert At(slots, base, 0) == slots[base];
    forall i {:trigger At(now, next, i)} | 0 <= i < n
      ensures At(now, next, i) == if i == n - 1 then now[base] else At(slots, base, i + 1)
    {
    }
  }

  /** An add is accepted exactly while fewer interrupts wait than there are slots, and keeps everything in order. */
  lemma AddKeeps(q: Queue, e: Interrupt)
    requires Inv(q) && e.id != ELUA_INT_EMPTY_SLOT
    ensures Inv(Add(q, e)) && (Full(q) <==> |Waiting(q)| == |q.slots|)
    ensures Waiting(Add(q, e)) == Waiting(q) + if Full(q) then [] else [e]
  {
    hide Ring;
    RingAdd(q.slots, Base(q), Waiting(q), e);
    RingSize(q.slots, Base(q), Waiting(q));
    assert (q.accepted + [e])[|q.taken|..] == Waiting(q) + [e];
    assert (q.accepted + [e])[..|q.taken|] == q.taken;
    assert Waiting(q) + [] == Waiting(q);
    hide At;
  }

  lemma RingSize(slots: seq<Interrupt>, base: nat, waiting: seq<Interrupt>)
    requires Ring(slots, base, waiting)
    ensures |waiting| <= |slots| && (slots[base].id == ELUA_INT_EMPTY_SLOT <==> waiting == [])
            && (waiting != [] ==> slots[base] == waiting[0])
  {
    assert At(slots, base, 0) == slots[base];
  }

  /** Every step of the hook keeps everything in order; the hook never runs on an empty queue, and once it is clear
      nothing waits. */
  lemma HookKeeps(q: Queue, enabled: bool)
    requires Inv(q) && q.hook
    ensures Inv(HookStep(q, enabled)) && HookStep(q, enabled).accepted == q.accepted
    ensures !HookStep(q, enabled).hook ==> Waiting(q) == []
    ensures q.place.Copied? ==> HookStep(q, enabled).taken == q.taken + [Waiting(q)[0]]
    ensures Rank(HookStep(q, enabled)) < Rank(q)
  {
    hide Ring;
    RingSize(q.slots, Base(q), Waiting(q));
    if q.place.Copied? {
      RingRemove(q.slots, q.read, Waiting(q));
      var n := HookStep(q, enabled);
      assert Waiting(n) == Waiting(q)[1..];
      assert Waiting(q)[0] == q.accepted[|q.taken|];
      assert q.accepted[..|q.taken| + 1] == q.accepted[..|q.taken|] + [q.accepted[|q.taken|]];
      assert n.taken == q.accepted[..|n.taken|];
    }
  }

  /** How many steps the hook needs until it is clear, if nothing is added. */
  ghost function Rank(q: Queue): nat
    requires |q.taken| <= |q.accepted|
  {
    5 * |Waiting(q)|
    + match q.place
      case Outside => (if q.hook then 5 else 0)
      case Copied(_) => 4
      case Emptied(_) => 8
      case Moved(_) => 7
      case Handled(_) => 6
  }

  // ---- runs ----

  datatype Move = AddMove(e: Interrupt) | HookMove(enabled: bool)

  /** Interrupts have IDs other than the mark of an empty slot; the interpreter runs the hook while it is set. */
  ghost predicate Possible(q: Queue, m: Move) {
    match m case AddMove(e) => e.id != ELUA_INT_EMPTY_SLOT case HookMove(_) => q.hook
  }

  ghost function Next(q: Queue, m: Move): (n: Queue)
    requires Shape(q) && Possible(q, m)
    ensures Shape(n)
  {
    match m case AddMove(e) => Add(q, e) case HookMove(enabled) => HookStep(q, enabled)
  }

  ghost predicate Moves(q: Queue, ms: seq<Move>)
    requires Shape(q)
    decreases |ms|
  {
    ms == [] || (Possible(q, ms[0]) && Moves(Next(q, ms[0]), ms[1..]))
  }

  ghost function After(q: Queue, ms: seq<Move>): (n: Queue)
    requires Shape(q) && Moves(q, ms)
    ensures Shape(n)
    decreases |ms|
  {
    if ms == [] then q else After(Next(q, ms[0]), ms[1..])
  }

  function Start(slots: seq<Interrupt>): Queue { Queue(slots, 0, 0, false, Outside, [], [], []) }

  lemma StartKeeps(slots: seq<Interrupt>)
    requires |slots| > 0 && forall i :: 0 <= i < |slots| ==> slots[i].id == ELUA_INT_EMPTY_SLOT
    ensures Inv(Start(slots))
  {
  }

  lemma StepKeeps(q: Queue, m: Move)
    requires Inv(q) && Possible(q, m)
    ensures Shape(q) && Inv(Next(q, m))
  {
    hide Ring, Base;
    match m {
      case AddMove(e) => AddKeeps(q, e);
      case HookMove(enabled) => HookKeeps(q, enabled);
    }
  }

  lemma {:induction false} RunKeeps(q: Queue, ms: seq<Move>)
    requires Inv(q) && Moves(q, ms)
    ensures Inv(After(q, ms))
    decreases |ms|
  {
    if ms != [] {
      StepKeeps(q, ms[0]);
      RunKeeps(Next(q, ms[0]), ms[1..]);
    }
  }

  /** In every interleaving of adds with the single steps of the hook: what was taken out is what was accepted, in
      order and each once; all slots are usable; nothing waits without the hook being set. */
  lemma TakenInOrder(slots: seq<Interrupt>, ms: seq<Move>)
    requires |slots| > 0 && (forall i :: 0 <= i < |slots| ==> slots[i].id == ELUA_INT_EMPTY_SLOT)
             && Moves(Start(slots), ms)
    ensures var q := After(Start(slots), ms);
            && Shape(q) && q.taken <= q.accepted && |Waiting(q)| <= |q.slots| && (Waiting(q) != [] ==> q.hook)
            && (Full(q) <==> |Waiting(q)| == |q.slots|)
  {
    StartKeeps(slots);
    RunKeeps(Start(slots), ms);
    hide After, Moves, Ring;
    var q := After(Start(slots), ms);
    AddKeeps(q, Interrupt(1, 0));
    RingSize(q.slots, Base(q), Waiting(q));
  }

  // ---- which handlers run ----

  /** For every step that the hook made, whether the interrupt it was at was enabled then. */
  function HookFlags(ms: seq<Move>): seq<bool> {
    if ms == [] then [] else (if ms[0].HookMove? then [ms[0].enabled] else []) + HookFlags(ms[1..])
  }

  /** The hook works in rounds of five steps. In the fourth one of a round it looks whether the interrupt that it took
      in the second one is enabled. */
  function Chosen(taken: seq<Interrupt>, flags: seq<bool>): seq<Interrupt> {
    if taken == [] then []
    else
      var n := |taken| - 1;
      Chosen(taken[..n], flags) + if 5 * n + 3 < |flags| && flags[5 * n + 3] then [taken[n]] else []
  }

  /** One more step of the hook changes the choice only if it is a fourth one. */
  lemma {:induction false} ChosenMore(taken: seq<Interrupt>, flags: seq<bool>, e: bool)
    requires 5 * |taken| <= |flags| + 3
    ensures Chosen(taken, flags + [e]) ==
            Chosen(taken, flags) + if taken != [] && |flags| == 5 * |taken| - 2 && e then [taken[|taken| - 1]] else []
  {
    if taken != [] {
      var n := |taken| - 1;
      ChosenMore(taken[..n], flags, e);
      assert Chosen(taken[..n], flags + [e]) == Chosen(taken[..n], flags) + [];
      assert 5 * n + 3 < |flags| ==> (flags + [e])[5 * n + 3] == flags[5 * n + 3];
      assert 5 * n + 3 == |flags| ==> (flags + [e])[5 * n + 3] == e;
    } else {
      assert Chosen(taken, flags) + [] == Chosen(taken, flags);
    }
  }

  lemma ChosenSnoc(taken: seq<Interrupt>, flags: seq<bool>, crt: Interrupt)
    requires |flags| <= 5 * |taken| + 3
    ensures Chosen(taken + [crt], flags) == Chosen(taken, flags)
  {
    assert (taken + [crt])[..|taken|] == taken;
    assert Chosen(taken, flags) + [] == Chosen(taken, flags);
  }

  /** Where the hook is after that many steps. */
  predicate InRound(p: Place, n: nat) {
    match p
    case Outside => n % 5 == 0
    case Copied(_) => n % 5 == 1
    case Emptied(_) => n % 5 == 2
    case Moved(_) => n % 5 == 3
    case Handled(_) => n % 5 == 4
  }

  ghost predicate Calls(q: Queue, flags: seq<bool>) {
    InRound(q.place, |flags|) && |q.taken| == (|flags| + 3) / 5 && q.called == Chosen(q.taken, flags)
  }

  lemma RoundGoesOn(q: Queue, enabled: bool, k: nat, r: nat)
    requires Shape(q) && r < 5 && InRound(q.place, 5 * k + r) && |q.taken| == (5 * k + r + 3) / 5
    ensures var n := HookStep(q, enabled);
            InRound(n.place, 5 * k + r + 1) && |n.taken| == (5 * k + r + 4) / 5
  {
    hide Wrap;
    Fifths(k, r);
  }

  lemma CalledInFourth(q: Queue, enabled: bool, flags: seq<bool>, k: nat, r: nat)
    requires Shape(q) && r < 5 && |flags| == 5 * k + r && InRound(q.place, |flags|)
    requires |q.taken| == (|flags| + 3) / 5 && q.called == Chosen(q.taken, flags)
    requires q.place.Moved? ==> q.taken != [] && q.taken[|q.taken| - 1] == q.place.crt
    ensures HookStep(q, enabled).called == Chosen(HookStep(q, enabled).taken, flags + [enabled])
  {
    hide Wrap, Chosen;
    Fifths(k, r);
    ChosenMore(q.taken, flags, enabled);
    if q.place.Copied? { ChosenSnoc(q.taken, flags + [enabled], q.place.crt); }
    assert q.called + [] == q.called;
  }

  lemma HookCalls(q: Queue, enabled: bool, flags: seq<bool>)
    requires Inv(q) && Calls(q, flags)
    ensures Calls(HookStep(q, enabled), flags + [enabled])
  {
    CrtIsLast(q);
    hide Inv, Chosen, InRound, HookStep;
    var k, r := |flags| / 5, |flags| % 5;
    RoundGoesOn(q, enabled, k, r);
    CalledInFourth(q, enabled, flags, k, r);
  }
  /** The round and the step in it, after n steps and after one more. */
  lemma Fifths(k: nat, r: nat)
    requires r < 5
    ensures (5 * k + r + 3) / 5 == k + (if r < 2 then 0 else 1) && (5 * k + r + 4) / 5 == k + if r < 1 then 0 else 1
    ensures (5 * k + r + 1) % 5 == if r == 4 then 0 else r + 1
  {
  }

  lemma CrtIsLast(q: Queue)
    requires Inv(q)
    ensures Shape(q) && (q.place.Moved? ==> q.taken != [] && q.taken[|q.taken| - 1] == q.place.crt)
  {
    hide Ring, Base;
  }

  lemma {:induction false} RunCalls(q: Queue, ms: seq<Move>, flags: seq<bool>)
    requires Inv(q) && Moves(q, ms) && Calls(q, flags)
    ensures Calls(After(q, ms), flags + HookFlags(ms))
    decreases |ms|
  {
    hide Inv, Calls, Add, HookStep, Chosen;
    if ms == [] {
      assert flags + [] == flags;
    } else {
      StepKeeps(q, ms[0]);
      var more := if ms[0].HookMove? then [ms[0].enabled] else [];
      assert Calls(Next(q, ms[0]), flags + more) by {
        assert flags + [] == flags;
        match ms[0] {
          case AddMove(e) => AddCalls(q, e, flags);
          case HookMove(enabled) => HookCalls(q, enabled, flags);
        }
      }
      RunCalls(Next(q, ms[0]), ms[1..], flags + more);
      assert (flags + more) + HookFlags(ms[1..]) == flags + (more + HookFlags(ms[1..]));
    }
  }

  lemma AddCalls(q: Queue, e: Interrupt, flags: seq<bool>)
    requires Shape(q) && Calls(q, flags)
    ensures Calls(Add(q, e), flags)
  {
    hide Chosen;
  }

  lemma AllChosen(taken: seq<Interrupt>, flags: seq<bool>)
    requires (forall i :: 0 <= i < |flags| ==> flags[i]) && |taken| == (|flags| + 3) / 5
    ensures Chosen(taken, flags) == taken[..(|flags| + 1) / 5]
  {
    var k := (|flags| + 1) / 5;
    ChosenFront(taken[..k], flags);
    assert k == |taken| || k + 1 == |taken|;
    if k < |taken| {
      assert taken == taken[..k] + [taken[k]];
      ChosenSnoc(taken[..k], flags, taken[k]);
    } else {
      assert taken[..k] == taken;
    }
  }

  lemma {:induction false} ChosenFront(taken: seq<Interrupt>, flags: seq<bool>)
    requires (forall i :: 0 <= i < |flags| ==> flags[i]) && 5 * |taken| <= |flags| + 1
    ensures Chosen(taken, flags) == taken
  {
    if taken != [] {
      var n := |taken| - 1;
      ChosenFront(taken[..n], flags);
      assert taken == taken[..n] + [taken[n]];
    }
  }

  /** In every interleaving the handler is called, in order, for exactly those interrupts that are enabled when the hook
      looks; if all always are, that is every one that was taken, but for one that it has yet to look at. */
  lemma CalledIff(slots: seq<Interrupt>, ms: seq<Move>)
    requires |slots| > 0 && (forall i :: 0 <= i < |slots| ==> slots[i].id == ELUA_INT_EMPTY_SLOT)
             && Moves(Start(slots), ms)
    ensures var q, flags := After(Start(slots), ms), HookFlags(ms);
            && |q.taken| == (|flags| + 3) / 5 && q.called == Chosen(q.taken, flags)
            && ((forall i :: 0 <= i < |flags| ==> flags[i]) ==> q.called == q.taken[..(|flags| + 1) / 5])
  {
    StartKeeps(slots);
    RunCalls(Start(slots), ms, []);
    hide After, Moves, Ring, Inv, Chosen;
    var q, flags := After(Start(slots), ms), HookFlags(ms);
    assert [] + flags == flags;
    if forall i :: 0 <= i < |flags| ==> flags[i] { AllChosen(q.taken, flags); }
  }

  /** Left alone, the hook empties the queue and clears itself. */
  lemma {:induction false} Drains(q: Queue) returns (n: nat)
    requires Inv(q)
    ensures Moves(q, HookTimes(n)) && !After(q, HookTimes(n)).hook && After(q, HookTimes(n)).taken == q.accepted
    decreases Rank(q)
  {
    hide Ring, Base;
    if !q.hook {
      n := 0;
      assert q.taken == q.accepted;
    } else {
      HookKeeps(q, true);
      var k := Drains(HookStep(q, true));
      n := k + 1;
      assert HookTimes(n)[1..] == HookTimes(k);
      hide HookStep, Inv;
    }
  }

  function HookTimes(n: nat): seq<Move> { seq(n, _ => HookMove(true)) }
}
