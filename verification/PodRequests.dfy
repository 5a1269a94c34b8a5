/** The request of a pod (pkg/resourcelist/resourcelist.go:27-46), computed in place in a fresh list. */
module PodRequests {
  import opened Wrappers
  import opened ResourceLists

  /** The parts of a pod's spec that its request depends on; the lists are the pod's own maps. */
  datatype Containers = Containers(
    init: seq<ResourceList>,
    main: seq<ResourceList>,
    overhead: Option<ResourceList>)

  function SumOf(qs: seq<Quantities>): Quantities {
    if qs == [] then map[] else Plus(SumOf(qs[..|qs|-1]), qs[|qs|-1])
  }

  function JoinOf(qs: seq<Quantities>): Quantities {
    if qs == [] then map[] else Join(JoinOf(qs[..|qs|-1]), qs[|qs|-1])
  }

  function Request(init: seq<Quantities>, main: seq<Quantities>, overhead: Option<Quantities>): Quantities {
    var peak := Join(SumOf(main), JoinOf(init));
    if overhead.Some? then Plus(peak, overhead.value) else peak
  }

  ghost function Values(lists: seq<ResourceList>): seq<Quantities>
    reads lists
  {
    seq(|lists|, i requires 0 <= i < |lists| reads lists => lists[i].q)
  }

  /** Only the fresh result is written: the pod's own lists keep their quantities. */
  method PodRequestResourceList(pod: Containers) returns (r: ResourceList)
    ensures fresh(r)
    ensures r.q == Request(old(Values(pod.init)), old(Values(pod.main)),
                           if pod.overhead.Some? then Some(old(pod.overhead.value.q)) else None)
  {
    ghost var init, main := Values(pod.init), Values(pod.main);
    var icRes := new ResourceList(map[]);
    for i := 0 to |pod.init|
      invariant fresh(icRes)
      invariant icRes.q == JoinOf(init[..i])
    {
      assert init[..i+1][..i] == init[..i] && init[i] == pod.init[i].q;
      icRes.SetMax(pod.init[i]);
    }
    assert init[..|init|] == init;

    r := new ResourceList(map[]);
    for i := 0 to |pod.main|
      invariant fresh(r) && r != icRes
      invariant icRes.q == JoinOf(init)
      invariant r.q == SumOf(main[..i])
    {
      assert main[..i+1][..i] == main[..i] && main[i] == pod.main[i].q;
      r.Add(pod.main[i]);
    }
    assert main[..|main|] == main;

    r.SetMax(icRes);
    if pod.overhead.Some? {
      r.Add(pod.overhead.value);
    }
  }

  // ---------------------------------------------------------------- what the loops amount to

  ghost predicate AllNonNegative(qs: seq<Quantities>) {
    forall i | 0 <= i < |qs| :: NonNegative(qs[i])
  }

  ghost function SumAt(qs: seq<Quantities>, n: ResourceName): int {
    if qs == [] then 0 else SumAt(qs[..|qs|-1], n) + At(qs[|qs|-1], n)
  }

  /** The greatest quantity of one resource over some lists, and zero when there are none. */
  ghost predicate IsPeak(qs: seq<Quantities>, n: ResourceName, peak: int) {
    && (forall i | 0 <= i < |qs| :: At(qs[i], n) <= peak)
    && (peak == 0 || exists i | 0 <= i < |qs| :: At(qs[i], n) == peak)
  }

  ghost predicate Mentions(qs: seq<Quantities>, n: ResourceName) {
    exists i | 0 <= i < |qs| :: n in qs[i]
  }

  lemma {:induction false} SumOfAt(qs: seq<Quantities>, n: ResourceName)
    ensures At(SumOf(qs), n) == SumAt(qs, n)
    ensures n in SumOf(qs) <==> Mentions(qs, n)
    ensures AllNonNegative(qs) ==> SumAt(qs, n) >= 0
  {
    if qs != [] {
      var front := qs[..|qs|-1];
      SumOfAt(front, n);
      MentionsSnoc(qs, n);
      assert AllNonNegative(qs) ==> AllNonNegative(front);
    }
  }

  lemma {:induction false} JoinOfAt(qs: seq<Quantities>, n: ResourceName)
    requires AllNonNegative(qs)
    ensures NonNegative(JoinOf(qs))
    ensures IsPeak(qs, n, At(JoinOf(qs), n))
    ensures n in JoinOf(qs) <==> Mentions(qs, n)
  {
    if qs != [] {
      var front, last := qs[..|qs|-1], qs[|qs|-1];
      assert forall i | 0 <= i < |front| :: front[i] == qs[i];
      JoinOfAt(front, n);
      MentionsSnoc(qs, n);
      var peak, before := At(JoinOf(qs), n), At(JoinOf(front), n);
      assert peak == MaxOf(before, At(last, n));
      if peak == before && peak != 0 {
        var i :| 0 <= i < |front| && At(front[i], n) == peak;
        assert At(qs[i], n) == peak;
      }
    }
  }

  lemma MentionsSnoc(qs: seq<Quantities>, n: ResourceName)
    requires qs != []
    ensures Mentions(qs, n) <==> Mentions(qs[..|qs|-1], n) || n in qs[|qs|-1]
  {
  }

  /** Per resource: the larger of the containers' sum and the init containers' peak, plus the overhead. */
  lemma RequestFormula(init: seq<Quantities>, main: seq<Quantities>, overhead: Option<Quantities>,
                       n: ResourceName, peak: int)
    requires AllNonNegative(init) && AllNonNegative(main) && IsPeak(init, n, peak) && peak >= 0
    ensures At(Request(init, main, overhead), n)
         == MaxOf(SumAt(main, n), peak) + At(overhead.GetOr(map[]), n)
    ensures n in Request(init, main, overhead)
       <==> Mentions(init, n) || Mentions(main, n) || n in overhead.GetOr(map[])
  {
    SumOfAt(main, n);
    JoinOfAt(init, n);
    PeakIsUnique(init, n, peak, At(JoinOf(init), n));
  }

  lemma PeakIsUnique(qs: seq<Quantities>, n: ResourceName, x: int, y: int)
    requires IsPeak(qs, n, x) && IsPeak(qs, n, y) && x >= 0 && y >= 0
    ensures x == y
  {
  }

  // ---------------------------------------------------------------- order of containers

  lemma PlusSwaps(a: Quantities, b: Quantities, c: Quantities)
    ensures Plus(Plus(a, b), c) == Plus(Plus(a, c), b)
  {
    assert Plus(Plus(a, b), c).Keys == Plus(Plus(a, c), b).Keys;
  }

  lemma JoinSwaps(a: Quantities, b: Quantities, c: Quantities)
    ensures Join(Join(a, b), c) == Join(Join(a, c), b)
  {
    hide Join, Meet;
    JoinIsAssociative(a, b, c);
    JoinIsAssociative(a, c, b);
    JoinAndMeetAreCommutativeAndAbsorbing(b, c);
  }

  lemma MoveSkipsTheLast(qs: seq<Quantities>, i: nat)
    requires i < |qs| - 1
    ensures var last, rest := |qs| - 1, qs[..i] + qs[i+1..];
      qs[..last][i] == qs[i] && rest[|rest|-1] == qs[last]
      && qs[..last][..i] + qs[..last][i+1..] == rest[..|rest|-1]
  {
  }

  lemma {:induction false} SumOfMove(qs: seq<Quantities>, i: nat)
    requires i < |qs|
    ensures SumOf(qs) == Plus(SumOf(qs[..i] + qs[i+1..]), qs[i])
  {
    hide Plus;
    var last := |qs| - 1;
    if i == last {
      assert qs[..i] + qs[i+1..] == qs[..last];
    } else {
      var front, rest := qs[..last], qs[..i] + qs[i+1..];
      MoveSkipsTheLast(qs, i);
      SumOfMove(front, i);
      PlusSwaps(SumOf(rest[..|rest|-1]), qs[i], qs[last]);
    }
  }

  lemma {:induction false} JoinOfMove(qs: seq<Quantities>, i: nat)
    requires i < |qs|
    ensures JoinOf(qs) == Join(JoinOf(qs[..i] + qs[i+1..]), qs[i])
  {
    hide Join;
    var last := |qs| - 1;
    if i == last {
      assert qs[..i] + qs[i+1..] == qs[..last];
    } else {
      var front, rest := qs[..last], qs[..i] + qs[i+1..];
      MoveSkipsTheLast(qs, i);
      JoinOfMove(front, i);
      JoinSwaps(JoinOf(rest[..|rest|-1]), qs[i], qs[last]);
    }
  }

  lemma RemoveFromMultiset(qs: seq<Quantities>, i: nat)
    requires i < |qs|
    ensures multiset(qs[..i] + qs[i+1..]) == multiset(qs) - multiset{qs[i]}
  {
    assert qs == qs[..i] + [qs[i]] + qs[i+1..];
  }

  lemma {:induction false} FoldsIgnoreOrder(qs: seq<Quantities>, rs: seq<Quantities>)
    requires multiset(qs) == multiset(rs)
    ensures SumOf(qs) == SumOf(rs) && JoinOf(qs) == JoinOf(rs)
    decreases |qs|
  {
    if qs == [] {
      assert |multiset(rs)| == 0;
    } else {
      var last := |qs| - 1;
      assert qs[last] in multiset(rs);
      var i :| 0 <= i < |rs| && rs[i] == qs[last];
      RemoveFromMultiset(qs, last);
      RemoveFromMultiset(rs, i);
      assert qs[..last] + qs[last+1..] == qs[..last];
      FoldsIgnoreOrder(qs[..last], rs[..i] + rs[i+1..]);
      SumOfMove(rs, i);
      JoinOfMove(rs, i);
    }
  }

  lemma RequestIgnoresContainerOrder(init: seq<Quantities>, init': seq<Quantities>,
                                     main: seq<Quantities>, main': seq<Quantities>, overhead: Option<Quantities>)
    requires multiset(init) == multiset(init') && multiset(main) == multiset(main')
    ensures Request(init, main, overhead) == Request(init', main', overhead)
  {
    FoldsIgnoreOrder(init, init');
    FoldsIgnoreOrder(main, main');
  }

  // ---------------------------------------------------------------- growth of requests

  /** Some containers raised, and others added after them; where they stand does not matter to the request. */
  ghost predicate AllGeq(qs: seq<Quantities>, rs: seq<Quantities>) {
    |qs| >= |rs| && forall i | 0 <= i < |rs| :: Geq(qs[i], rs[i])
  }

  /** The lists without their last containers, when the first list is not empty. */
  lemma FrontsAreGeq(qs: seq<Quantities>, rs: seq<Quantities>) returns (r0: seq<Quantities>, r: Quantities)
    requires AllGeq(qs, rs) && AllNonNegative(qs) && qs != []
    ensures var last := |qs| - 1;
      && AllGeq(qs[..last], r0) && AllNonNegative(qs[..last]) && Geq(qs[last], r) && NonNegative(qs[last])
    ensures SumOf(rs) == Plus(SumOf(r0), r) && JoinOf(rs) == Join(JoinOf(r0), r)
  {
    hide Plus, Join;
    var last := |qs| - 1;
    if |rs| > last {
      r0, r := rs[..last], rs[last];
    } else {
      r0, r := rs, map[];
      NothingAdded(SumOf(rs), JoinOf(rs));
    }
  }

  lemma EmptyFolds(rs: seq<Quantities>)
    requires AllGeq([], rs)
    ensures Geq(SumOf([]), SumOf(rs)) && NonNegative(SumOf([]))
    ensures Geq(JoinOf([]), JoinOf(rs)) && NonNegative(JoinOf([]))
  {
  }

  lemma {:induction false} SumIsMonotone(qs: seq<Quantities>, rs: seq<Quantities>)
    requires AllGeq(qs, rs) && AllNonNegative(qs)
    ensures Geq(SumOf(qs), SumOf(rs)) && NonNegative(SumOf(qs))
  {
    hide AllGeq, AllNonNegative, Geq, NonNegative, At, Plus;
    if qs == [] {
      EmptyFolds(rs);
    } else {
      var last := |qs| - 1;
      var r0, r := FrontsAreGeq(qs, rs);
      SumIsMonotone(qs[..last], r0);
      AddingKeepsSign(SumOf(qs[..last]), SumOf(qs[..last]), qs[last]);
      PlusIsMonotone(SumOf(r0), SumOf(qs[..last]), r, qs[last]);
    }
  }

  lemma {:induction false} JoinOfIsMonotone(qs: seq<Quantities>, rs: seq<Quantities>)
    requires AllGeq(qs, rs) && AllNonNegative(qs)
    ensures Geq(JoinOf(qs), JoinOf(rs)) && NonNegative(JoinOf(qs))
  {
    hide AllGeq, AllNonNegative, Geq, NonNegative, At, Join;
    if qs == [] {
      EmptyFolds(rs);
    } else {
      var last := |qs| - 1;
      var r0, r := FrontsAreGeq(qs, rs);
      JoinOfIsMonotone(qs[..last], r0);
      AddingKeepsSign(JoinOf(qs[..last]), JoinOf(qs[..last]), qs[last]);
      JoinIsMonotone(JoinOf(r0), JoinOf(qs[..last]), r, qs[last]);
    }
  }

  lemma AddingKeepsSign(a: Quantities, b: Quantities, q: Quantities)
    requires NonNegative(a) && NonNegative(b) && NonNegative(q)
    ensures NonNegative(Plus(a, q)) && NonNegative(Join(b, q))
  {
  }

  lemma NothingAdded(a: Quantities, b: Quantities)
    ensures Plus(a, map[]) == a && Join(b, map[]) == b
  {
    assert Plus(a, map[]).Keys == a.Keys && Join(b, map[]).Keys == b.Keys;
  }

  /** Raising or adding a container, an init container or an overhead never lowers the pod's request. */
  lemma RequestIsMonotone(init: seq<Quantities>, init': seq<Quantities>,
                          main: seq<Quantities>, main': seq<Quantities>,
                          overhead: Option<Quantities>, overhead': Option<Quantities>)
    requires AllGeq(init', init) && AllGeq(main', main) && Geq(overhead'.GetOr(map[]), overhead.GetOr(map[]))
    requires AllNonNegative(init') && AllNonNegative(main') && NonNegative(overhead'.GetOr(map[]))
    ensures Geq(Request(init', main', overhead'), Request(init, main, overhead))
  {
    hide Plus, Join;
    JoinOfIsMonotone(init', init);
    SumIsMonotone(main', main);
    JoinIsMonotone(SumOf(main), SumOf(main'), JoinOf(init), JoinOf(init'));
    var peak, peak' := Join(SumOf(main), JoinOf(init)), Join(SumOf(main'), JoinOf(init'));
    NothingAdded(peak, peak);
    NothingAdded(peak', peak');
    AddingKeepsSign(SumOf(main'), SumOf(main'), JoinOf(init'));
    PlusIsMonotone(peak, peak', overhead.GetOr(map[]), overhead'.GetOr(map[]));
  }
}
