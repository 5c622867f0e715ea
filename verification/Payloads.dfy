/** The bytes that callers keep in their chunks, and the copying and clearing of them. */
module Payloads {
  import opened Bytes

  function ByteAt(m: map<int, byte>, x: int): byte { if x in m then m[x] else 0 }

  /** The n bytes at dst are those that were at src. */
  ghost predicate Copied(was: map<int, byte>, now: map<int, byte>, src: int, dst: int, n: nat) {
    forall x :: dst <= x < dst + n ==> ByteAt(now, x) == ByteAt(was, x - dst + src)
  }

  ghost predicate Cleared(now: map<int, byte>, dst: int, n: nat) {
    forall x :: dst <= x < dst + n ==> ByteAt(now, x) == 0 }

  ghost predicate OnlyAt(was: map<int, byte>, now: map<int, byte>, dst: int, n: nat) {
    forall x :: x < dst || dst + n <= x ==> ByteAt(now, x) == ByteAt(was, x)
  }

  lemma CopiedOne(was: map<int, byte>, m: map<int, byte>, src: int, dst: int, n: nat, i: nat)
    requires i < n && (dst + n <= src || src + n <= dst) && Copied(was, m, src, dst, i) && OnlyAt(was, m, dst, i)
    ensures var now := m[dst + i := ByteAt(m, src + i)];
            Copied(was, now, src, dst, i + 1) && OnlyAt(was, now, dst, i + 1)
  {
    assert ByteAt(m, src + i) == ByteAt(was, src + i);
    var now := m[dst + i := ByteAt(m, src + i)];
    forall x | x != dst + i
      ensures ByteAt(now, x) == ByteAt(m, x)
    {
      assert x in now <==> x in m;
    }
    assert ByteAt(now, dst + i) == ByteAt(was, src + i);
    hide ByteAt;
  }

  lemma ClearedOne(was: map<int, byte>, m: map<int, byte>, dst: int, i: nat)
    requires Cleared(m, dst, i) && OnlyAt(was, m, dst, i)
    ensures Cleared(m[dst + i := 0], dst, i + 1) && OnlyAt(was, m[dst + i := 0], dst, i + 1)
  {
    var now := m[dst + i := 0];
    forall x | x != dst + i
      ensures ByteAt(now, x) == ByteAt(m, x)
    {
      assert x in now <==> x in m;
    }
    assert ByteAt(now, dst + i) == 0;
    hide ByteAt;
  }

  class Payload {
    var bytes: map<int, byte>

    constructor ()
    {
      bytes := map[];
    }

    /** memcpy of stretches that do not overlap. */
    method Copy(dst: int, src: int, n: nat)
      requires dst + n <= src || src + n <= dst
      modifies this
      ensures Copied(old(bytes), bytes, src, dst, n) && OnlyAt(old(bytes), bytes, dst, n)
    {
      var i := 0;
      while i < n
        invariant i <= n && Copied(old(bytes), bytes, src, dst, i) && OnlyAt(old(bytes), bytes, dst, i)
      {
        CopiedOne(old(bytes), bytes, src, dst, n, i);
        hide Copied, OnlyAt;
        bytes := bytes[dst + i := ByteAt(bytes, src + i)];
        i := i + 1;
      }
    }

    /** memset to 0. */
    method Clear(dst: int, n: nat)
      modifies this
      ensures Cleared(bytes, dst, n) && OnlyAt(old(bytes), bytes, dst, n)
    {
      var i := 0;
      while i < n
        invariant i <= n && Cleared(bytes, dst, i) && OnlyAt(old(bytes), bytes, dst, i)
      {
        ClearedOne(old(bytes), bytes, dst, i);
        hide Cleared, OnlyAt;
        bytes := bytes[dst + i := 0];
        i := i + 1;
      }
    }
  }
}
