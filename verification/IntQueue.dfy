/** The interrupt queue and the enable flags as they are stored. */
module IntQueue {
  import opened Words
  import opened BinMaps
  import opened Masks
  import opened IntSteps

  const ELUA_INT_FIRST_ID := 1
  const LUA_INT_MAX_SOURCES := 128

  /** x & (1 << i). */
  lemma {:induction false} AndBit(x: nat, i: nat)
    ensures And(x, Pow2(i)) != 0 <==> Bit(x, i)
  {
    if x == 0 {
      BitZero(i);
    } else if i > 0 {
      AndBit(x / 2, i - 1);
      assert Pow2(i) / 2 == Pow2(i - 1) && Pow2(i) % 2 == 0;
    } else {
      assert And(x / 2, 0) == 0;
    }
  }

  lemma MaskWraps(i: nat, k: nat)
    requires i < Pow2(k)
    ensures And(i + 1, Pow2(k) - 1) == Wrap(i + 1, Pow2(k))
  {
    hide And, Pow2;
    AndMask(i + 1, k);
    var p := Pow2(k);
    if i + 1 == p { assert (i + 1) % p == 0; } else { assert (i + 1) % p == i + 1; }
  }

  class Ints {
    const logSize: nat
    const queue: array<Interrupt>
    const flags: array<word>
    var readIdx: nat
    var writeIdx: nat
    /** The hook of the Lua state, where the hook function is, and what handlers were called for. */
    var hook: bool
    var place: Place
    var called: seq<Interrupt>
    ghost var accepted: seq<Interrupt>
    ghost var taken: seq<Interrupt>

    ghost function Model(): Queue
      reads this, queue
    {
      Queue(queue[..], readIdx, writeIdx, hook, place, accepted, taken, called)
    }

    ghost predicate Valid()
      reads this, queue
    {
      queue.Length == Pow2(logSize) && flags.Length == LUA_INT_MAX_SOURCES / 32 && Inv(Model())
    }

    ghost predicate On(id: nat)
      requires flags.Length == LUA_INT_MAX_SOURCES / 32
      reads flags
    {
      id < LUA_INT_MAX_SOURCES && Marked(flags[id / 32], id % 32)
    }

    constructor (logSize: nat)
      ensures Valid() && this.logSize == logSize && Model() == Start(queue[..]) && fresh(queue) && fresh(flags)
      ensures forall id: nat :: !On(id)
    {
      this.logSize := logSize;
      queue := new Interrupt[Pow2(logSize)](_ => Interrupt(ELUA_INT_EMPTY_SLOT, 0));
      flags := new word[LUA_INT_MAX_SOURCES / 32](_ => 0);
      readIdx, writeIdx, hook, place, called := 0, 0, false, Outside, [];
      accepted, taken := [], [];
      new;
      forall id: nat
        ensures !On(id)
      {
        BitZero(id % 32);
      }
      StartKeeps(queue[..]);
    }

    method Enable(inttype: nat)
      requires flags.Length == LUA_INT_MAX_SOURCES / 32
      modifies flags
      ensures forall id: nat :: On(id) <==> old(On(id)) || (id == inttype && id < LUA_INT_MAX_SOURCES)
    {
      hide Mark, Marked;
      if inttype < LUA_INT_MAX_SOURCES {
        ghost var was := flags[inttype / 32];
        flags[inttype / 32] := Mark(flags[inttype / 32], inttype % 32);
        forall id: nat
          ensures On(id) <==> old(On(id)) || id == inttype
        {
          MarkClear(was, inttype % 32, id % 32);
        }
      }
    }

    method Disable(inttype: nat)
      requires flags.Length == LUA_INT_MAX_SOURCES / 32
      modifies flags
      ensures forall id: nat :: On(id) <==> old(On(id)) && id != inttype
    {
      hide Clear, Marked;
      if inttype < LUA_INT_MAX_SOURCES {
        ghost var was := flags[inttype / 32];
        flags[inttype / 32] := Clear(flags[inttype / 32], inttype % 32);
        forall id: nat
          ensures On(id) <==> old(On(id)) && id != inttype
        {
          MarkClear(was, inttype % 32, id % 32);
        }
      }
    }

    method IsEnabled(inttype: nat) returns (r: bool)
      requires flags.Length == LUA_INT_MAX_SOURCES / 32
      ensures r == On(inttype)
    {
      hide And, Bit, Pow2;
      if inttype < LUA_INT_MAX_SOURCES {
        r := And(flags[inttype / 32], Idx2Bit(inttype % 32)) != 0;
        AndBit(flags[inttype / 32], inttype % 32);
      } else {
        r := false;
      }
    }

    method DisableAll()
      requires flags.Length == LUA_INT_MAX_SOURCES / 32
      modifies flags
      ensures forall id: nat :: !On(id)
    {
      var i := 0;
      while i < LUA_INT_MAX_SOURCES / 32
        invariant 0 <= i <= LUA_INT_MAX_SOURCES / 32
        invariant forall j :: 0 <= j < i ==> flags[j] == 0
      {
        flags[i] := 0;
        i := i + 1;
      }
      forall id: nat
        ensures !On(id)
      {
        BitZero(id % 32);
      }
    }

    /** elua_int_add, which no step of the hook can interrupt. */
    method AddInt(inttype: nat, resnum: nat, last: nat, running: bool) returns (ok: bool)
      requires Valid()
      modifies this`writeIdx, this`hook, this`accepted, queue
      ensures Valid()
      ensures ok == (ELUA_INT_FIRST_ID <= inttype <= last && running && On(inttype)
                && |Waiting(old(Model()))| < queue.Length)
      ensures Model() == if ok then Add(old(Model()), Interrupt(inttype, resnum)) else old(Model())
      ensures ok ==> Waiting(Model()) == Waiting(old(Model())) + [Interrupt(inttype, resnum)] && hook
    {
      hide Inv, And, Pow2, Bit, Marked, Waiting, Full;
      ok := false;
      if inttype < ELUA_INT_FIRST_ID || inttype > last { return; }
      var enabled := IsEnabled(inttype);
      if !running || !enabled { return; }
      ghost var q := Model();
      Facts(q);
      AddKeeps(q, Interrupt(inttype, resnum));
      FullIs(q);
      if queue[writeIdx].id != ELUA_INT_EMPTY_SLOT { return; }
      queue[writeIdx] := Interrupt(inttype, resnum);
      MaskWraps(writeIdx, logSize);
      writeIdx := And(writeIdx + 1, Pow2(logSize) - 1);
      hook := true;
      accepted := accepted + [Interrupt(inttype, resnum)];
      ok := true;
      assert Model() == Add(q, Interrupt(inttype, resnum));
    }

    // ---- the steps of elua_int_hook, between which interrupts may be added ----

    method HookCopy()
      requires Valid() && place.Outside? && hook
      modifies this`place
      ensures Valid() && Model() == HookStep(old(Model()), true)
    {
      hide Inv;
      Facts(Model());
      HookKeeps(Model(), true);
      place := Copied(queue[readIdx]);
    }

    method HookEmpty()
      requires Valid() && place.Copied?
      modifies this`place, this`taken, queue
      ensures Valid() && Model() == HookStep(old(Model()), true)
    {
      hide Inv;
      Facts(Model());
      HookKeeps(Model(), true);
      queue[readIdx] := queue[readIdx].(id := ELUA_INT_EMPTY_SLOT);
      taken := taken + [place.crt];
      place := Emptied(place.crt);
    }

    method HookMove()
      requires Valid() && place.Emptied?
      modifies this`place, this`readIdx
      ensures Valid() && Model() == HookStep(old(Model()), true)
    {
      hide Inv;
      Facts(Model());
      HookKeeps(Model(), true);
      MaskWraps(readIdx, logSize);
      readIdx := And(readIdx + 1, Pow2(logSize) - 1);
      place := Moved(place.crt);
    }

    method HookHandle()
      requires Valid() && place.Moved?
      modifies this`place, this`called
      ensures Valid() && Model() == HookStep(old(Model()), old(On(place.crt.id)))
    {
      hide Inv;
      Facts(Model());
      var enabled := IsEnabled(place.crt.id);
      HookKeeps(Model(), enabled);
      assert called + [] == called;
      if enabled { called := called + [place.crt]; }
      place := Handled(place.crt);
    }

    /** With interrupts disabled. */
    method HookFinish()
      requires Valid() && place.Handled?
      modifies this`place, this`hook
      ensures Valid() && Model() == HookStep(old(Model()), true)
      ensures hook <==> Waiting(Model()) != []
    {
      Facts(Model());
      HookKeeps(Model(), true);
      hide Ring;
      if queue[readIdx].id == ELUA_INT_EMPTY_SLOT { hook := false; }
      place := Outside;
    }
  }

  lemma FullIs(q: Queue)
    requires Inv(q)
    ensures Full(q) <==> q.slots[q.write].id != ELUA_INT_EMPTY_SLOT
    ensures |Waiting(q)| <= |q.slots|
  {
    hide At;
  }

  lemma Facts(q: Queue)
    requires Inv(q)
    ensures Shape(q) && |q.taken| <= |q.accepted| && (!q.place.Outside? ==> q.hook)
  {
  }
}
