/** Facts about unions of maps. */
module Maps {
  lemma EarlierInsert(a: map<int, nat>, b: map<int, nat>, x: int, s: nat)
    requires x !in b
    ensures a[x := s] + b == (a + b)[x := s]
  {
  }

  lemma LaterInsert(a: map<int, nat>, b: map<int, nat>, x: int, s: nat)
    ensures a + b[x := s] == (a + b)[x := s]
  {
  }

  lemma EarlierRemove(a: map<int, nat>, b: map<int, nat>, x: int)
    requires x !in b
    ensures (a - {x}) + b == (a + b) - {x}
  {
  }

  lemma LaterRemove(a: map<int, nat>, b: map<int, nat>, x: int)
    requires x !in a
    ensures a + (b - {x}) == (a + b) - {x}
  {
  }
}
