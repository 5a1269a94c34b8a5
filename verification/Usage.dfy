/** The usage of a list of pods, summed as a reconcile does (pkg/controllers/throttle_controller.go:116-119). */
module Usage {
  import opened Wrappers
  import opened Names
  import opened ResourceAmounts
  import opened PodModel

  predicate NoDuplicates<T(==)>(s: seq<T>) {
    forall i, j | 0 <= i < j < |s| :: s[i] != s[j]
  }

  /** Each pod contributes its own amount. */
  ghost function UsageOf(pods: set<Pod>): Amount {
    Total(map p | p in pods :: OfPod(p.request))
  }

  lemma UsageOfOneMore(pods: set<Pod>, pod: Pod)
    requires pod !in pods
    ensures UsageOf(pods + {pod}) == Sum(UsageOf(pods), OfPod(pod.request))
  {
    var m := map p | p in pods :: OfPod(p.request);
    assert (map p | p in pods + {pod} :: OfPod(p.request)) == m[pod := OfPod(pod.request)];
    assert m - {pod} == m;
    TotalPutsIn(m, pod, OfPod(pod.request));
  }

  function Elements(pods: seq<Pod>): set<Pod> {
    set p | p in pods
  }

  lemma UsageCountsPods(pods: set<Pod>)
    ensures UsageOf(pods).counts == if pods == {} then None else Some(|pods|)
  {
    var m := map p | p in pods :: OfPod(p.request);
    TotalCountsPods(m);
    assert m.Keys == pods;
  }

  /** Lister keys: no two pods share a name. */
  ghost predicate NamesAreKeys(pods: set<Pod>) {
    forall p, q | p in pods && q in pods && p.name == q.name :: p == q
  }

  ghost function ByName(pods: set<Pod>): map<Name, Amount>
    requires NamesAreKeys(pods)
  {
    map p | p in pods :: p.name := OfPod(p.request)
  }

  lemma ByNameOfOneMore(pods: set<Pod>, pod: Pod)
    requires pod in pods && NamesAreKeys(pods)
    ensures ByName(pods) == ByName(pods - {pod})[pod.name := OfPod(pod.request)]
    ensures pod.name !in ByName(pods - {pod})
  {
  }

  lemma NoElements()
    ensures Elements([]) == {}
  {
  }

  lemma UsageOfNobody()
    ensures UsageOf({}) == NOTHING
  {
  }

  lemma ByNameOfNobody(pods: set<Pod>)
    requires pods == {}
    ensures ByName(pods) == map[]
  {
  }

  lemma OneMoreOnTop(m: map<Name, Amount>, n: map<Name, Amount>, k: Name, a: Amount)
    requires k !in m && k !in n
    ensures m + n[k := a] == (m + n)[k := a] && (m + n) - {k} == m + n
  {
  }

  /** When no pod of the list is still reserved, used and reserved together count each pod exactly once. */
  lemma {:induction false} UsedAndReservedCountEachPodOnce(pods: set<Pod>, reserved: map<Name, Amount>)
    requires NamesAreKeys(pods) && forall p | p in pods :: p.name !in reserved
    ensures Sum(UsageOf(pods), Total(reserved)) == Total(reserved + ByName(pods))
  {
    hide UsageOf, Sum, OfPod, Total, ByName;
    if pods == {} {
      UsageOfNobody();
      SumIsCommutativeMonoid(Total(reserved), NOTHING, NOTHING);
      assert reserved + ByName(pods) == reserved by { ByNameOfNobody(pods); }
    } else {
      var p :| p in pods;
      var rest, a := pods - {p}, OfPod(p.request);
      UsedAndReservedCountEachPodOnce(rest, reserved);
      assert rest + {p} == pods;
      UsageOfOneMore(rest, p);
      ByNameOfOneMore(pods, p);
      var m := reserved + ByName(rest);
      OneMoreOnTop(reserved, ByName(rest), p.name, a);
      TotalPutsIn(m, p.name, a);
      SumSwaps(UsageOf(rest), a, Total(reserved));
    }
  }

  lemma SumSwaps(a: Amount, b: Amount, c: Amount)
    ensures Sum(Sum(a, b), c) == Sum(Sum(a, c), b)
  {
    SumIsCommutativeMonoid(a, b, c);
    SumIsCommutativeMonoid(a, c, b);
    SumIsCommutativeMonoid(b, c, a);
  }

  lemma ElementsSnoc(pods: seq<Pod>, i: nat)
    requires i < |pods| && NoDuplicates(pods)
    ensures Elements(pods[..i+1]) == Elements(pods[..i]) + {pods[i]}
    ensures pods[i] !in Elements(pods[..i])
  {
  }

  /** The order of the list does not matter. */
  method SumUsage(pods: seq<Pod>) returns (used: Amount)
    requires NoDuplicates(pods)
    ensures used == UsageOf(Elements(pods))
  {
    hide Sum, Total, Elements, NoDuplicates;
    used := NOTHING;
    UsageOfNobody();
    assert Elements(pods[..0]) == {} by { NoElements(); }
    for i := 0 to |pods|
      invariant used == UsageOf(Elements(pods[..i]))
    {
      ElementsSnoc(pods, i);
      UsageOfOneMore(Elements(pods[..i]), pods[i]);
      used := Sum(used, OfPod(pods[i].request));
    }
    assert pods[..|pods|] == pods;
  }
}
