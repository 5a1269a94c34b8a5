/**
 Resource lists: partial maps from resource names to quantities (pkg/resourcelist/resourcelist.go).

 The functions give the meaning of each operation on map values; the class performs the same operations
 in place, one key at a time in an arbitrary order, as the source does.
 */
module ResourceLists {

  type ResourceName = string
  type Quantities = map<ResourceName, int>

  /** A Go map read: the zero quantity when the key is absent. */
  function At(q: Quantities, n: ResourceName): int {
    if n in q then q[n] else 0
  }

  function MaxOf(x: int, y: int): int {
    if x < y then y else x
  }

  function MinOf(x: int, y: int): int {
    if x < y then x else y
  }

  ghost predicate NonNegative(q: Quantities) {
    forall n | n in q :: q[n] >= 0
  }

  function Plus(a: Quantities, b: Quantities): Quantities {
    map n | n in a.Keys + b.Keys :: At(a, n) + At(b, n)
  }

  function Minus(a: Quantities, b: Quantities): Quantities {
    map n | n in a.Keys + b.Keys :: At(a, n) - At(b, n)
  }

  /** Pointwise maximum; an absent key is below every quantity. */
  function Join(a: Quantities, b: Quantities): Quantities {
    map n | n in a.Keys + b.Keys ::
      if n !in a then b[n] else if n !in b then a[n] else MaxOf(a[n], b[n])
  }

  /** Pointwise minimum; an absent key is below every quantity. */
  function Meet(a: Quantities, b: Quantities): Quantities {
    map n | n in a.Keys * b.Keys :: MinOf(a[n], b[n])
  }

  predicate Geq(a: Quantities, b: Quantities) {
    forall n | n in b :: n in a && a[n] >= b[n]
  }

  predicate SameAmounts(a: Quantities, b: Quantities) {
    forall n | n in a.Keys + b.Keys :: At(a, n) == At(b, n)
  }

  // ---------------------------------------------------------------- in-place lists

  /** A Go map of quantities: a reference, so that updates are seen by every holder of it. */
  class ResourceList {
    var q: Quantities

    constructor (q: Quantities)
      ensures this.q == q
    {
      this.q := q;
    }

    /** The argument may be the receiver itself: the value read for a key is the one before the write. */
    method Add(rhs: ResourceList)
      modifies this
      ensures q == Plus(old(q), old(rhs.q))
    {
      var todo := rhs.q.Keys;
      while todo != {}
        invariant todo <= old(rhs.q).Keys
        invariant q.Keys == old(q).Keys + (old(rhs.q).Keys - todo)
        invariant forall n | n in q :: q[n] == At(old(q), n) + if n in todo then 0 else At(old(rhs.q), n)
        decreases todo
      {
        var n :| n in todo;
        q := q[n := At(q, n) + rhs.q[n]];
        todo := todo - {n};
      }
    }

    method Sub(rhs: ResourceList)
      modifies this
      ensures q == Minus(old(q), old(rhs.q))
    {
      var todo := rhs.q.Keys;
      while todo != {}
        invariant todo <= old(rhs.q).Keys
        invariant q.Keys == old(q).Keys + (old(rhs.q).Keys - todo)
        invariant forall n | n in q :: q[n] == At(old(q), n) - if n in todo then 0 else At(old(rhs.q), n)
        decreases todo
      {
        var n :| n in todo;
        q := q[n := At(q, n) - rhs.q[n]];
        todo := todo - {n};
      }
    }

    method SetMax(rhs: ResourceList)
      modifies this
      ensures q == Join(old(q), old(rhs.q))
    {
      var todo := rhs.q.Keys;
      while todo != {}
        invariant todo <= old(rhs.q).Keys
        invariant q.Keys == old(q).Keys + (old(rhs.q).Keys - todo)
        invariant forall n | n in q && n in todo :: q[n] == old(q)[n]
        invariant forall n | n in q && n !in todo :: q[n] == Join(old(q), old(rhs.q))[n]
        decreases todo
      {
        var n :| n in todo;
        q := q[n := if n in q then MaxOf(q[n], rhs.q[n]) else rhs.q[n]];
        todo := todo - {n};
      }
    }

    method SetMin(rhs: ResourceList)
      modifies this
      ensures q == Meet(old(q), old(rhs.q))
    {
      var todo := rhs.q.Keys;
      while todo != {}
        invariant todo <= old(rhs.q).Keys
        invariant q.Keys == old(q).Keys
        invariant forall n | n in q ::
            q[n] == if n in old(rhs.q) && n !in todo then MinOf(old(q)[n], old(rhs.q)[n]) else old(q)[n]
        decreases todo
      {
        var n :| n in todo;
        if n in q {
          q := q[n := MinOf(q[n], rhs.q[n])];
        }
        todo := todo - {n};
      }
      todo := q.Keys;
      while todo != {}
        invariant todo <= old(q).Keys
        invariant old(q).Keys * old(rhs.q).Keys <= q.Keys <= old(q).Keys
        invariant q.Keys - todo <= old(rhs.q).Keys
        invariant todo <= q.Keys
        invariant forall n | n in q && n in old(rhs.q) :: q[n] == MinOf(old(q)[n], old(rhs.q)[n])
        decreases todo
      {
        var n :| n in todo;
        if n !in rhs.q {
          q := q - {n};
        }
        todo := todo - {n};
      }
    }

    method GreaterOrEqual(rhs: ResourceList) returns (r: bool)
      ensures r <==> Geq(q, rhs.q)
    {
      var todo := rhs.q.Keys;
      while todo != {}
        invariant todo <= rhs.q.Keys
        invariant forall n | n in rhs.q && n !in todo :: n in q && q[n] >= rhs.q[n]
        decreases todo
      {
        var n :| n in todo;
        if n !in q || q[n] < rhs.q[n] {
          return false;
        }
        todo := todo - {n};
      }
      return true;
    }

    method EqualTo(rhs: ResourceList) returns (r: bool)
      ensures r <==> SameAmounts(q, rhs.q)
    {
      r := Covered(q, rhs.q);
      if r {
        r := Covered(rhs.q, q);
      }
    }
  }

  /** The inner closure of EqualTo: every quantity of one list equals the other's, absent meaning zero. */
  method Covered(a: Quantities, b: Quantities) returns (r: bool)
    ensures r <==> forall n | n in a :: a[n] == At(b, n)
  {
    var todo := a.Keys;
    while todo != {}
      invariant todo <= a.Keys
      invariant forall n | n in a && n !in todo :: a[n] == At(b, n)
      decreases todo
    {
      var n :| n in todo;
      if a[n] != At(b, n) {
        return false;
      }
      todo := todo - {n};
    }
    return true;
  }

  // ---------------------------------------------------------------- order and lattice laws

  lemma GeqIsPartialOrder(a: Quantities, b: Quantities, c: Quantities)
    ensures Geq(a, a)
    ensures Geq(a, b) && Geq(b, c) ==> Geq(a, c)
    ensures Geq(a, b) && Geq(b, a) ==> a == b
  {
  }

  /** SetMax and SetMin compute the two bounds of GreaterOrEqual, and each of them determines that order. */
  lemma JoinAndMeetAreTheBoundsOfGeq(a: Quantities, b: Quantities, c: Quantities)
    ensures Geq(c, Join(a, b)) <==> Geq(c, a) && Geq(c, b)
    ensures Geq(Meet(a, b), c) <==> Geq(a, c) && Geq(b, c)
    ensures Join(a, b) == a <==> Geq(a, b)
    ensures Meet(a, b) == b <==> Geq(a, b)
  {
  }

  lemma JoinAndMeetAreCommutativeAndAbsorbing(a: Quantities, b: Quantities)
    ensures Join(a, b) == Join(b, a) && Meet(a, b) == Meet(b, a)
    ensures Join(a, Meet(a, b)) == a && Meet(a, Join(a, b)) == a
  {
  }

  lemma JoinIsAssociative(a: Quantities, b: Quantities, c: Quantities)
    ensures Join(a, Join(b, c)) == Join(Join(a, b), c)
  {
    var l, r := Join(a, Join(b, c)), Join(Join(a, b), c);
    assert l.Keys == r.Keys;
    forall n | n in l ensures l[n] == r[n] {
    }
  }

  lemma MeetIsAssociative(a: Quantities, b: Quantities, c: Quantities)
    ensures Meet(a, Meet(b, c)) == Meet(Meet(a, b), c)
  {
  }

  lemma JoinDistributesOverMeet(a: Quantities, b: Quantities, c: Quantities)
    ensures Join(a, Meet(b, c)) == Meet(Join(a, b), Join(a, c))
  {
  }

  lemma MeetDistributesOverJoin(a: Quantities, b: Quantities, c: Quantities)
    ensures Meet(a, Join(b, c)) == Join(Meet(a, b), Meet(a, c))
  {
  }

  lemma SameAmountsIsEquivalence(a: Quantities, b: Quantities, c: Quantities)
    ensures SameAmounts(a, a)
    ensures SameAmounts(a, b) ==> SameAmounts(b, a)
    ensures SameAmounts(a, b) && SameAmounts(b, c) ==> SameAmounts(a, c)
  {
  }

  /** EqualTo compares all resources there are, an absent key being zero. */
  lemma SameAmountsMeansEqualQuantities(a: Quantities, b: Quantities)
    ensures SameAmounts(a, b) <==> forall n :: At(a, n) == At(b, n)
  {
    if SameAmounts(a, b) {
      forall n ensures At(a, n) == At(b, n) {
        if n in a.Keys + b.Keys {
          assert At(a, n) == At(b, n);
        }
      }
    } else {
      var n :| n in a.Keys + b.Keys && At(a, n) != At(b, n);
    }
  }

  /** Sub undoes Add up to EqualTo always, and exactly when the added list brings no new key. */
  lemma SubUndoesAdd(a: Quantities, b: Quantities)
    ensures SameAmounts(Minus(Plus(a, b), b), a)
    ensures SameAmounts(Plus(Minus(a, b), b), a)
    ensures Minus(Plus(a, b), b) == a <==> b.Keys <= a.Keys
  {
    var r := Minus(Plus(a, b), b);
    assert r.Keys == a.Keys + b.Keys;
    if b.Keys <= a.Keys {
      assert r.Keys == a.Keys;
    }
    if r == a {
      assert b.Keys <= r.Keys;
    }
  }

  lemma PlusIsCommutativeMonoid(a: Quantities, b: Quantities, c: Quantities)
    ensures Plus(a, b) == Plus(b, a)
    ensures Plus(a, Plus(b, c)) == Plus(Plus(a, b), c)
    ensures Plus(a, map[]) == a
  {
    assert Plus(a, map[]).Keys == a.Keys;
    PlusIsAssociative(a, b, c);
  }

  lemma PlusIsAssociative(a: Quantities, b: Quantities, c: Quantities)
    ensures Plus(a, Plus(b, c)) == Plus(Plus(a, b), c)
  {
    var l, r := Plus(a, Plus(b, c)), Plus(Plus(a, b), c);
    assert l.Keys == r.Keys;
    forall n | n in l ensures l[n] == r[n] {
    }
  }

  lemma PlusIsMonotone(a: Quantities, a': Quantities, b: Quantities, b': Quantities)
    requires Geq(a', a) && Geq(b', b) && NonNegative(a') && NonNegative(b')
    ensures Geq(Plus(a', b'), Plus(a, b))
  {
  }

  lemma JoinIsMonotone(a: Quantities, a': Quantities, b: Quantities, b': Quantities)
    requires Geq(a', a) && Geq(b', b)
    ensures Geq(Join(a', b'), Join(a, b))
  {
  }
}
