/** elua_sbrk: the RAM regions of the platform, handed out in order. */
module Sbrk {
  import opened Bytes
  import opened Words

  const FAILURE := -1

  /** The regions do not overlap and begin at multiples of 8. */
  ghost predicate RegionsOk(rs: seq<Region>) {
    && (forall i :: 0 <= i < |rs| ==> 0 < rs[i].first && rs[i].first % 8 == 0 && rs[i].last <= TWO_32)
    && forall i, j :: 0 <= i < |rs| && 0 <= j < |rs| && i != j ==>
         rs[i].first < rs[i].last && rs[j].first < rs[j].last ==>
         rs[i].last <= rs[j].first || rs[j].last <= rs[i].first
  }

  /** The heap pointer is null or lies in the current region. */
  ghost predicate PointerOk(rs: seq<Region>, index: nat, ptr: int) {
    ptr != 0 ==> index < |rs| && rs[index].first <= ptr <= rs[index].last && ptr % 8 == 0
  }

  /** No region begins or ends so high that adding incr to an address of it wraps around. */
  ghost predicate Unwrapped(rs: seq<Region>, incr: int) {
    forall i :: 0 <= i < |rs| ==> rs[i].first + incr < TWO_32 && rs[i].last + incr < TWO_32
  }

  /** What a call yields: the new region index, the new heap pointer and the answer. */
  function Serve(rs: seq<Region>, index: nat, ptr: int, incr: int): (nat, int, int)
    requires ptr != 0 ==> index < |rs|
    decreases |rs| - index
  {
    if incr < 0 then (index, ptr, FAILURE)
    else if ptr == 0 && index >= |rs| then (index, 0, FAILURE)
    else
      var p := if ptr == 0 then rs[index].first else ptr;
      if p + incr > rs[index].last then Serve(rs, index + 1, 0, incr) else (index, p + incr, p)
  }

  /** The same in 32-bit arithmetic, in which heap_ptr + incr wraps around. */
  function Serve32(rs: seq<Region>, index: nat, ptr: int, incr: int): (nat, int, int)
    requires ptr != 0 ==> index < |rs|
    decreases |rs| - index
  {
    if incr < 0 then (index, ptr, FAILURE)
    else if ptr == 0 && index >= |rs| then (index, 0, FAILURE)
    else
      var p := if ptr == 0 then rs[index].first else ptr;
      var end := (p + incr) % TWO_32;
      if end > rs[index].last then Serve32(rs, index + 1, 0, incr) else (index, end, p)
  }

  /** In none of the regions that are tried does the addition wrap around. */
  predicate NoneWraps(rs: seq<Region>, index: nat, ptr: int, incr: int)
    requires ptr != 0 ==> index < |rs|
    decreases |rs| - index
  {
    if incr < 0 || (ptr == 0 && index >= |rs|) then true
    else
      var p := if ptr == 0 then rs[index].first else ptr;
      p + incr < TWO_32 && (p + incr > rs[index].last ==> NoneWraps(rs, index + 1, 0, incr))
  }

  lemma {:induction false} AnswerBehind(rs: seq<Region>, index: nat, ptr: int, incr: int)
    requires ptr != 0 ==> index < |rs|
    ensures Serve(rs, index, ptr, incr).0 >= index
    decreases |rs| - index
  {
    if incr >= 0 && !(ptr == 0 && index >= |rs|) { AnswerBehind(rs, index + 1, 0, incr); }
  }

  /** The 32-bit arithmetic answers from the regions exactly if it wraps around in none that is tried. */
  lemma {:induction false} WrapsIff(rs: seq<Region>, index: nat, ptr: int, incr: int)
    requires PointerOk(rs, index, ptr) && incr < TWO_32
    requires forall i :: 0 <= i < |rs| ==> 0 < rs[i].first && rs[i].first % 8 == 0 && rs[i].first <= rs[i].last < TWO_32
    ensures Serve32(rs, index, ptr, incr) == Serve(rs, index, ptr, incr) <==> NoneWraps(rs, index, ptr, incr)
    decreases |rs| - index
  {
    if incr >= 0 && !(ptr == 0 && index >= |rs|) {
      var p := if ptr == 0 then rs[index].first else ptr;
      Wrapped(p, incr);
      if p + incr > rs[index].last { AnswerBehind(rs, index + 1, 0, incr); }
      if p + incr < TWO_32 && p + incr > rs[index].last { WrapsIff(rs, index + 1, 0, incr); }
    }
  }

  lemma Wrapped(p: int, incr: int)
    requires 0 < p < TWO_32 && 0 <= incr < TWO_32
    ensures (p + incr) % TWO_32 == if p + incr < TWO_32 then p + incr else p + incr - TWO_32
  {
  }

  /** A request that wraps around is granted, although only 240 bytes are left, and moves the heap pointer back. */
  lemma WrapAround()
    ensures var rs := [Region(0xFFFF_FF00, 0xFFFF_FFF0)];
            && RegionsOk(rs) && !NoneWraps(rs, 0, 0, 0x1000)
            && Serve(rs, 0, 0, 0x1000).2 == FAILURE && Serve32(rs, 0, 0, 0x1000) == (0, 0xF00, 0xFFFF_FF00)
  {
    var rs := [Region(0xFFFF_FF00, 0xFFFF_FFF0)];
    assert Serve(rs, 0, 0, 0x1000) == Serve(rs, 1, 0, 0x1000);
  }

  lemma {:induction false} UnwrappedSame(rs: seq<Region>, index: nat, ptr: int, incr: int)
    requires RegionsOk(rs) && PointerOk(rs, index, ptr) && (incr >= 0 ==> Unwrapped(rs, incr))
    ensures Serve32(rs, index, ptr, incr) == Serve(rs, index, ptr, incr)
    decreases |rs| - index
  {
    if incr >= 0 && !(ptr == 0 && index >= |rs|) {
      var p := if ptr == 0 then rs[index].first else ptr;
      assert rs[index].first + incr < TWO_32 && rs[index].last + incr < TWO_32;
      Wrapped(p, incr);
      UnwrappedSame(rs, index + 1, 0, incr);
    }
  }

  /** The byte at x has been handed out, or has been passed over for good. */
  ghost predicate Given(rs: seq<Region>, index: nat, ptr: int, x: int) {
    exists i :: 0 <= i < |rs| && i <= index && rs[i].first <= x < (if i < index then rs[i].last else ptr)
  }

  ghost predicate AllGiven(rs: seq<Region>, index: nat, ptr: int, a: int, n: nat) {
    forall x :: a <= x < a + n ==> Given(rs, index, ptr, x)
  }

  /** An answer is a pointer to incr bytes, all of them handed out now. */
  lemma {:induction false} ServeGives(rs: seq<Region>, index: nat, ptr: int, incr: int)
    requires RegionsOk(rs) && PointerOk(rs, index, ptr) && incr % 8 == 0
    ensures var r := Serve(rs, index, ptr, incr);
            PointerOk(rs, r.0, r.1) && (incr >= 0 && r.2 == FAILURE ==> r.1 == 0)
    ensures var r := Serve(rs, index, ptr, incr);
            r.2 != FAILURE ==>
              r.2 > 0 && r.2 % 8 == 0 && r.1 == r.2 + incr <= TWO_32 && incr >= 0 && AllGiven(rs, r.0, r.1, r.2, incr)
    decreases |rs| - index
  {
    if incr >= 0 && !(ptr == 0 && index >= |rs|) {
      var p := if ptr == 0 then rs[index].first else ptr;
      if p + incr > rs[index].last {
        ServeGives(rs, index + 1, 0, incr);
      } else {
        assert (p + incr) % 8 == 0;
      }
    }
  }

  /** No byte handed out before lies in the answer, and it stays handed out. */
  lemma {:induction false} ServeIsFresh(rs: seq<Region>, index: nat, ptr: int, incr: int, x: int)
    requires RegionsOk(rs) && PointerOk(rs, index, ptr) && Given(rs, index, ptr, x)
    ensures var r := Serve(rs, index, ptr, incr);
            Given(rs, r.0, r.1, x) && (r.2 != FAILURE ==> x < r.2 || r.2 + incr <= x)
    decreases |rs| - index
  {
    if incr >= 0 && !(ptr == 0 && index >= |rs|) {
      var p := if ptr == 0 then rs[index].first else ptr;
      if p + incr > rs[index].last {
        GivenLater(rs, index, ptr, x);
        hide Given, RegionsOk;
        ServeIsFresh(rs, index + 1, 0, incr, x);
      } else {
        GivenHere(rs, index, ptr, incr, x);
        hide Given, RegionsOk;
      }
    }
  }

  lemma GivenLater(rs: seq<Region>, index: nat, ptr: int, x: int)
    requires RegionsOk(rs) && PointerOk(rs, index, ptr) && Given(rs, index, ptr, x)
    ensures Given(rs, index + 1, 0, x)
  {
    var i :| 0 <= i < |rs| && i <= index && rs[i].first <= x < (if i < index then rs[i].last else ptr);
    assert i < index + 1 && x < rs[i].last;
  }

  /** A block taken in the current region lies behind everything given. */
  lemma GivenHere(rs: seq<Region>, index: nat, ptr: int, incr: int, x: int)
    requires RegionsOk(rs) && PointerOk(rs, index, ptr) && Given(rs, index, ptr, x) && index < |rs| && incr >= 0
    requires (if ptr == 0 then rs[index].first else ptr) + incr <= rs[index].last
    ensures var p := if ptr == 0 then rs[index].first else ptr;
            Given(rs, index, p + incr, x) && (x < p || p + incr <= x)
  {
    var p := if ptr == 0 then rs[index].first else ptr;
    var i :| 0 <= i < |rs| && i <= index && rs[i].first <= x < (if i < index then rs[i].last else ptr);
    assert x < (if i < index then rs[i].last else p + incr);
  }

  /** So memory handed out before and the answer have nothing in common. */
  lemma FreshBlock(rs: seq<Region>, index: nat, ptr: int, incr: int, a: int, n: nat)
    requires RegionsOk(rs) && PointerOk(rs, index, ptr) && AllGiven(rs, index, ptr, a, n) && n > 0
    ensures var r := Serve(rs, index, ptr, incr);
            AllGiven(rs, r.0, r.1, a, n) && (r.2 != FAILURE && incr > 0 ==> a + n <= r.2 || r.2 + incr <= a)
  {
    hide Given, RegionsOk, Serve;
    var r := Serve(rs, index, ptr, incr);
    forall x | a <= x < a + n
      ensures Given(rs, r.0, r.1, x) && (r.2 != FAILURE ==> x < r.2 || r.2 + incr <= x)
    {
      ServeIsFresh(rs, index, ptr, incr, x);
    }
    var x := if a < r.2 then r.2 else a;
    assert a <= x < a + n ==> Given(rs, r.0, r.1, x);
  }

  class SbrkState {
    const regions: seq<Region>
    var heapPtr: int
    var memIndex: nat

    ghost predicate Valid()
      reads this
    {
      RegionsOk(regions) && PointerOk(regions, memIndex, heapPtr)
    }

    ghost predicate Gave(a: int, n: nat)
      reads this
    {
      AllGiven(regions, memIndex, heapPtr, a, n)
    }

    constructor (rs: seq<Region>)
      requires RegionsOk(rs)
      ensures Valid() && regions == rs && heapPtr == 0 && memIndex == 0
    {
      regions := rs;
      heapPtr := 0;
      memIndex := 0;
    }

    method Morecore(incr: int) returns (ptr: int)
      requires Valid()
      modifies this
      ensures (memIndex, heapPtr, ptr) == Serve32(regions, old(memIndex), old(heapPtr), incr)
    {
      if incr < 0 {
        return FAILURE;
      }
      while true
        invariant heapPtr != 0 ==> memIndex < |regions|
        invariant Serve32(regions, memIndex, heapPtr, incr) == Serve32(regions, old(memIndex), old(heapPtr), incr)
        decreases |regions| - memIndex
      {
        if heapPtr == 0 {
          if memIndex >= |regions| {
            ptr := FAILURE;
            break;
          }
          heapPtr := regions[memIndex].first;
        }
        if (heapPtr + incr) % TWO_32 > regions[memIndex].last {
          heapPtr := 0;
          memIndex := memIndex + 1;
        } else {
          ptr := heapPtr;
          heapPtr := (heapPtr + incr) % TWO_32;
          break;
        }
      }
    }
  }

  /** No region begins where another one ends. */
  ghost predicate Gaps(rs: seq<Region>) {
    forall i, j :: 0 <= i < |rs| && 0 <= j < |rs| ==> rs[i].first != rs[j].last
  }

  /** The block that elua_sbrk gave last ends at its heap pointer, in its current region. */
  ghost predicate LastBlock(rs: seq<Region>, index: nat, ptr: int, br: int, n: nat) {
    index < |rs| && rs[index].first <= br && br + n == ptr <= rs[index].last && ptr != 0
  }

  function FourRegions(): seq<Region> {
    [Region(0x1000, 0x1100), Region(0x1100, 0x1180), Region(0x1180, 0x1200), Region(0x2000, 0x3000)]
  }

  lemma FourServe()
    ensures var rs := FourRegions();
            Serve(rs, 0, 0, 256) == (0, 0x1100, 0x1000) && Serve(rs, 0, 0x1100, 256) == (3, 0x2100, 0x2000)
  {
    var rs := FourRegions();
    assert Serve(rs, 3, 0, 256) == (3, 0x2100, 0x2000);
    assert Serve(rs, 2, 0, 256) == Serve(rs, 3, 0, 256);
    assert Serve(rs, 1, 0, 256) == Serve(rs, 2, 0, 256);
    assert Serve(rs, 0, 0x1100, 256) == Serve(rs, 1, 0, 256);
  }

  lemma FourOk()
    ensures RegionsOk(FourRegions()) && !Gaps(FourRegions())
  {
    var rs := FourRegions();
    assert rs[1].first == rs[0].last;
  }

  /** When regions touch that need not be so: the two small regions are passed over, and passed over for good. */
  lemma TouchingRegions()
    ensures var rs := FourRegions();
            && RegionsOk(rs) && !Gaps(rs) && Serve(rs, 0, 0, 256) == (0, 0x1100, 0x1000)
            && Serve(rs, 0, 0x1100, 256) == (3, 0x2100, 0x2000)
            && AllGiven(rs, 3, 0x2100, 0x1000, 512)
  {
    FourOk();
    FourServe();
    hide Serve, RegionsOk, Gaps;
    var rs := FourRegions();
    forall x | 0x1000 <= x < 0x1000 + 512
      ensures Given(rs, 3, 0x2100, x)
    {
      var i := if x < 0x1100 then 0 else if x < 0x1180 then 1 else 2;
      assert rs[i].first <= x < rs[i].last;
    }
  }

  /** The address where a region ends belongs to no region. */
  lemma NotInGap(rs: seq<Region>, index: nat, ptr: int, k: nat)
    requires RegionsOk(rs) && Gaps(rs) && PointerOk(rs, index, ptr) && k < |rs| && rs[k].first < rs[k].last
    ensures !Given(rs, index, ptr, rs[k].last)
  {
  }

  // ---- answers in terms of the regions ----

  /** Where a block in region i would begin. */
  function StartIn(rs: seq<Region>, index: nat, ptr: int, i: nat): int
    requires i < |rs|
  {
    if i == index && ptr != 0 then ptr else rs[i].first
  }

  /** Region i is the first one, from the current one on, that has n bytes left. */
  ghost predicate FirstRoom(rs: seq<Region>, index: nat, ptr: int, n: nat, i: nat) {
    && index <= i < |rs| && StartIn(rs, index, ptr, i) + n <= rs[i].last
    && forall j :: index <= j < i ==> StartIn(rs, index, ptr, j) + n > rs[j].last
  }

  /** No region behind region i has n bytes. */
  ghost predicate NoneBehind(rs: seq<Region>, i: nat, n: nat) {
    forall j :: i < j < |rs| ==> rs[j].first + n > rs[j].last }

  /** elua_sbrk serves a request from the first region with room, and fails exactly if there is none. */
  lemma {:induction false} ServeIsFirst(rs: seq<Region>, index: nat, ptr: int, n: nat, i: nat)
    requires PointerOk(rs, index, ptr) && index <= i <= |rs|
             && forall j :: index <= j < i ==> StartIn(rs, index, ptr, j) + n > rs[j].last
    requires i < |rs| ==> StartIn(rs, index, ptr, i) + n <= rs[i].last
    ensures i < |rs| ==> Serve(rs, index, ptr, n) == (i, StartIn(rs, index, ptr, i) + n, StartIn(rs, index, ptr, i))
    ensures i == |rs| ==> Serve(rs, index, ptr, n).2 == FAILURE
    decreases i - index
  {
    if index < i {
      assert StartIn(rs, index, ptr, index) + n > rs[index].last;
      forall j | index + 1 <= j < i
        ensures StartIn(rs, index + 1, 0, j) + n > rs[j].last
      {
        assert StartIn(rs, index, ptr, j) + n > rs[j].last;
      }
      ServeIsFirst(rs, index + 1, 0, n, i);
    }
  }

  lemma {:induction false} FindRoom(rs: seq<Region>, index: nat, ptr: int, n: nat, from: nat) returns (i: nat)
    requires index <= from <= |rs| && forall j :: index <= j < from ==> StartIn(rs, index, ptr, j) + n > rs[j].last
    ensures from <= i <= |rs| && (forall j :: index <= j < i ==> StartIn(rs, index, ptr, j) + n > rs[j].last)
    ensures i < |rs| ==> StartIn(rs, index, ptr, i) + n <= rs[i].last
    decreases |rs| - from
  {
    if from < |rs| && StartIn(rs, index, ptr, from) + n > rs[from].last {
      i := FindRoom(rs, index, ptr, n, from + 1); } else { i := from; }
  }

  /** Some region, from the current one on, has n bytes left. */
  ghost predicate HasRoom(rs: seq<Region>, index: nat, ptr: int, n: nat) {
    exists i :: index <= i < |rs| && StartIn(rs, index, ptr, i) + n <= rs[i].last
  }

  lemma NoRegionLeft(rs: seq<Region>, index: nat, ptr: int, n: nat)
    requires PointerOk(rs, index, ptr) && index >= |rs|
    ensures Serve(rs, index, ptr, n).2 == FAILURE
  {
  }

  /** A block comes from the first region with room, and there is none if there is no answer. */
  lemma ServesLast(rs: seq<Region>, index: nat, ptr: int, n: nat)
    requires RegionsOk(rs) && PointerOk(rs, index, ptr)
    ensures var r := Serve(rs, index, ptr, n);
            if r.2 == FAILURE then forall i :: !FirstRoom(rs, index, ptr, n, i)
            else LastBlock(rs, r.0, r.1, r.2, n) && FirstRoom(rs, index, ptr, n, r.0)
                 && StartIn(rs, index, ptr, r.0) == r.2
                 && forall i :: FirstRoom(rs, index, ptr, n, i) ==> i == r.0
  {
    hide Serve;
    if index < |rs| {
      var i := FindRoom(rs, index, ptr, n, index);
      ServeIsFirst(rs, index, ptr, n, i);
    } else {
      NoRegionLeft(rs, index, ptr, n);
    }
  }

  /** A call fails exactly if no region has room, and after that all regions are used up. */
  lemma FailsIff(rs: seq<Region>, index: nat, ptr: int, n: nat)
    requires RegionsOk(rs) && PointerOk(rs, index, ptr)
    ensures var r := Serve(rs, index, ptr, n);
            && (r.2 == FAILURE <==> !HasRoom(rs, index, ptr, n))
            && (r.2 == FAILURE ==> r.1 == 0 && |rs| <= r.0 && forall m: nat :: !HasRoom(rs, r.0, r.1, m))
  {
    hide Serve;
    FailsBehindAll(rs, index, ptr, n);
    if index < |rs| {
      var i := FindRoom(rs, index, ptr, n, index);
      ServeIsFirst(rs, index, ptr, n, i);
    } else {
      NoRegionLeft(rs, index, ptr, n);
    }
  }

  lemma {:induction false} FailsBehindAll(rs: seq<Region>, index: nat, ptr: int, n: nat)
    requires RegionsOk(rs) && PointerOk(rs, index, ptr)
    ensures var r := Serve(rs, index, ptr, n);
            r.2 == FAILURE ==> r.1 == 0 && |rs| <= r.0
    decreases |rs| - index
  {
    if !(ptr == 0 && index >= |rs|) { FailsBehindAll(rs, index + 1, 0, n); }
  }

  /** A call for no bytes passes over no room. */
  lemma ProbeKeepsRoom(rs: seq<Region>, index: nat, ptr: int, n: nat)
    requires RegionsOk(rs) && PointerOk(rs, index, ptr)
    ensures var r := Serve(rs, index, ptr, 0);
            HasRoom(rs, r.0, r.1, n) <==> HasRoom(rs, index, ptr, n)
  {
    FailsIff(rs, index, ptr, 0);
    ServesLast(rs, index, ptr, 0);
    hide Serve, RegionsOk, PointerOk;
    var r := Serve(rs, index, ptr, 0);
    if r.2 != FAILURE {
      forall i | r.0 <= i < |rs|
        ensures StartIn(rs, r.0, r.1, i) == StartIn(rs, index, ptr, i)
      {
      }
      forall i | index <= i < r.0
        ensures StartIn(rs, index, ptr, i) + n > rs[i].last
      {
      }
    }
  }

  /** After an answer that ends at ptr, more bytes follow it if there is room for them in its region; if no region
      behind has room either, the call fails. */
  lemma NextFollows(rs: seq<Region>, index: nat, ptr: int, n: nat)
    requires RegionsOk(rs) && PointerOk(rs, index, ptr) && ptr != 0
    ensures ptr + n <= rs[index].last ==> Serve(rs, index, ptr, n) == (index, ptr + n, ptr)
    ensures ptr + n > rs[index].last && NoneBehind(rs, index, n) ==> Serve(rs, index, ptr, n).2 == FAILURE
    ensures ptr + n > rs[index].last && !NoneBehind(rs, index, n) ==>
              var r := Serve(rs, index, ptr, n);
                r.2 != FAILURE && index < r.0 < |rs| && r.2 == rs[r.0].first && r.1 == r.2 + n <= rs[r.0].last
  {
    var i := FindRoom(rs, index, ptr, n, index);
    ServeIsFirst(rs, index, ptr, n, i);
    if ptr + n > rs[index].last {
      if i < |rs| {
        assert i != index && rs[i].first + n <= rs[i].last;
      } else {
        forall j | index < j < |rs|
          ensures rs[j].first + n > rs[j].last
        {
          assert StartIn(rs, index, ptr, j) + n > rs[j].last;
        }
      }
    }
  }

  /** Between separated regions: the answer to a second call is failure or follows the first one exactly if the region
      has room for it or no region behind has. */
  lemma FollowsIff(rs: seq<Region>, index: nat, ptr: int, n: nat)
    requires PointerOk(rs, index, ptr) && Gaps(rs) && RegionsOk(rs) && ptr != 0 && rs[index].first < ptr && n > 0
    ensures (Serve(rs, index, ptr, n).2 == FAILURE || Serve(rs, index, ptr, n).2 == ptr) <==>
              (ptr + n <= rs[index].last || NoneBehind(rs, index, n))
  {
    NextFollows(rs, index, ptr, n);
    var r := Serve(rs, index, ptr, n);
    if ptr + n > rs[index].last && !NoneBehind(rs, index, n) {
      assert rs[r.0].first < rs[r.0].last && rs[index].first < rs[index].last;
    }
    hide Serve;
  }

  /** Between separated regions, the last block and the answer to one more call are one block of memory exactly if they
      meet, which they do exactly if the region has room for both. */
  lemma JoinedIffAdjacent(rs: seq<Region>, index: nat, ptr: int, br: int, n: nat, more: nat)
    requires RegionsOk(rs) && PointerOk(rs, index, ptr) && Gaps(rs) && LastBlock(rs, index, ptr, br, n) && n > 0
    requires AllGiven(rs, index, ptr, br, n) && more % 8 == 0 && more > 0 && Serve(rs, index, ptr, more).2 != FAILURE
    ensures var q := Serve(rs, index, ptr, more);
            (AllGiven(rs, q.0, q.1, br, n + more) <==> q.2 == br + n)
                && (q.2 == br + n <==> ptr + more <= rs[index].last)
  {
    FollowsIff(rs, index, ptr, more);
    NextFollows(rs, index, ptr, more);
    ServeGives(rs, index, ptr, more);
    hide Serve, Given, RegionsOk, Gaps;
    var q := Serve(rs, index, ptr, more);
    if q.2 == br + n {
      FreshBlock(rs, index, ptr, more, br, n);
      forall x | br <= x < br + n + more
        ensures Given(rs, q.0, q.1, x)
      {
      }
    } else {
      NotInGap(rs, q.0, q.1, index) by { assert rs[index].first < rs[index].last; }
      assert br <= rs[index].last < br + (n + more);
    }
  }
}
