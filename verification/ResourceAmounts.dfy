/**
 Resource amounts: an optional pod count and a resource list
 (pkg/apis/schedule/v1alpha1/resource_amount.go).
 A nil list and an empty one are one value here, as they are for the source's semantic equality.
 */
module ResourceAmounts {
  import opened Wrappers
  import opened ResourceLists

  datatype Amount = Amount(counts: Option<int>, requests: Quantities)

  /** The throttled flags of a threshold: one for the pod count, one per thresholded resource. */
  datatype Flags = Flags(counts: bool, requests: map<ResourceName, bool>)

  const NOTHING := Amount(None, map[])

  /** The amount of one pod. */
  function OfPod(request: Quantities): Amount {
    Amount(Some(1), request)
  }

  function Pods(a: Amount): int {
    a.counts.GetOr(0)
  }

  ghost predicate NonNegativeAmount(a: Amount) {
    Pods(a) >= 0 && NonNegative(a.requests)
  }

  function CountsSum(a: Option<int>, b: Option<int>): Option<int> {
    if a.None? then b else if b.None? then a else Some(a.value + b.value)
  }

  /** Count subtraction clamps at zero, and does nothing when either count is nil. */
  function CountsDiff(a: Option<int>, b: Option<int>): Option<int> {
    if a.Some? && b.Some? then Some(MaxOf(0, a.value - b.value)) else a
  }

  function Sum(a: Amount, b: Amount): Amount {
    Amount(CountsSum(a.counts, b.counts), Plus(a.requests, b.requests))
  }

  function Diff(a: Amount, b: Amount): Amount {
    Amount(CountsDiff(a.counts, b.counts), Minus(a.requests, b.requests))
  }

  lemma SumIsCommutativeMonoid(a: Amount, b: Amount, c: Amount)
    ensures Sum(a, b) == Sum(b, a)
    ensures Sum(a, Sum(b, c)) == Sum(Sum(a, b), c)
    ensures Sum(a, NOTHING) == a == Sum(NOTHING, a)
  {
    PlusIsCommutativeMonoid(a.requests, b.requests, c.requests);
    PlusIsCommutativeMonoid(map[], a.requests, map[]);
  }

  /**
   Sub undoes Add on the resource list up to EqualTo. On the count it does so exactly when the receiver
   had a count or the argument had none: otherwise a zero count is left where there was nil.
   */
  lemma DiffUndoesSum(a: Amount, b: Amount)
    requires Pods(a) >= 0
    ensures SameAmounts(Diff(Sum(a, b), b).requests, a.requests)
    ensures Diff(Sum(a, b), b).counts == a.counts <==> a.counts.Some? || b.counts.None?
    ensures Pods(Diff(Sum(a, b), b)) == Pods(a)
  {
  }

  // ---------------------------------------------------------------- in-place sums

  /** The source's struct: the count is copied, the list is a reference (nil or shared). */
  datatype AmountRef = AmountRef(counts: Option<int>, requests: ResourceList?)

  ghost function ValueOf(a: AmountRef): Amount
    reads if a.requests == null then {} else {a.requests}
  {
    Amount(a.counts, if a.requests == null then map[] else a.requests.q)
  }

  ghost function ListsOf(a: AmountRef): set<object> {
    if a.requests == null then {} else {a.requests}
  }

  /**
   Adds in place: a receiver that has a list keeps that very list, now holding the sum, and a receiver
   without one gets a fresh list. No other list is written, unless the argument shares the receiver's.
   */
  method Add(a: AmountRef, b: AmountRef) returns (r: AmountRef)
    modifies ListsOf(a)
    ensures r.requests != null && (if a.requests == null then fresh(r.requests) else r.requests == a.requests)
    ensures ValueOf(r) == Sum(old(ValueOf(a)), old(ValueOf(b)))
  {
    var list := a.requests;
    if list == null {
      list := new ResourceList(map[]);
    }
    if b.requests != null {
      list.Add(b.requests);
    } else {
      PlusIsCommutativeMonoid(list.q, map[], map[]);
    }
    r := AmountRef(CountsSum(a.counts, b.counts), list);
  }

  method Sub(a: AmountRef, b: AmountRef) returns (r: AmountRef)
    modifies ListsOf(a)
    ensures r.requests != null && (if a.requests == null then fresh(r.requests) else r.requests == a.requests)
    ensures ValueOf(r) == Diff(old(ValueOf(a)), old(ValueOf(b)))
  {
    var list := a.requests;
    if list == null {
      list := new ResourceList(map[]);
    }
    if b.requests != null {
      list.Sub(b.requests);
    } else {
      assert Minus(list.q, map[]) == list.q;
    }
    r := AmountRef(CountsDiff(a.counts, b.counts), list);
  }

  /** The check's sums start from an amount without a list, so neither the status nor the reservation is written. */
  method AlreadyUsed(used: AmountRef, reserved: AmountRef) returns (load: AmountRef)
    ensures load.requests != null && fresh(load.requests)
    ensures ValueOf(load) == Sum(Sum(NOTHING, ValueOf(used)), ValueOf(reserved))
  {
    load := Add(AmountRef(None, null), used);
    load := Add(load, reserved);
  }

  method UsedWithPod(used: AmountRef, pod: AmountRef, reserved: AmountRef) returns (load: AmountRef)
    ensures load.requests != null && fresh(load.requests)
    ensures ValueOf(load) == Sum(Sum(Sum(NOTHING, ValueOf(used)), ValueOf(pod)), ValueOf(reserved))
  {
    load := Add(AmountRef(None, null), used);
    load := Add(load, pod);
    load := Add(load, reserved);
  }

  // ---------------------------------------------------------------- thresholds

  function Reaches(used: int, threshold: int, onEqual: bool): bool {
    if onEqual then used >= threshold else used > threshold
  }

  /** What IsThrottled means: a flag per thresholded key, never set by an amount that lacks the key. */
  function FlagsOf(threshold: Amount, used: Amount, onEqual: bool): Flags {
    Flags(
      threshold.counts.Some? && used.counts.Some? && Reaches(used.counts.value, threshold.counts.value, onEqual),
      map n | n in threshold.requests ::
        n in used.requests && Reaches(used.requests[n], threshold.requests[n], onEqual))
  }

  method IsThrottled(threshold: Amount, used: Amount, onEqual: bool) returns (flags: Flags)
    ensures flags == FlagsOf(threshold, used, onEqual)
  {
    var counts := false;
    if threshold.counts.Some? && used.counts.Some? {
      counts := Reaches(used.counts.value, threshold.counts.value, onEqual);
    }
    var requests: map<ResourceName, bool> := map[];
    var todo := threshold.requests.Keys;
    while todo != {}
      invariant todo <= threshold.requests.Keys
      invariant requests.Keys == threshold.requests.Keys - todo
      invariant forall n | n in requests :: requests[n] == FlagsOf(threshold, used, onEqual).requests[n]
      decreases todo
    {
      var n :| n in todo;
      if n in used.requests {
        requests := requests[n := Reaches(used.requests[n], threshold.requests[n], onEqual)];
      } else {
        requests := requests[n := false];
      }
      todo := todo - {n};
    }
    flags := Flags(counts, requests);
  }

  /** A pod is held back by the count flag, or by the flag of a resource it requests a non-zero amount of. */
  predicate Blocks(flags: Flags, request: Quantities) {
    flags.counts || exists n | n in request :: request[n] != 0 && n in flags.requests && flags.requests[n]
  }

  method IsThrottledFor(flags: Flags, request: Quantities) returns (r: bool)
    ensures r <==> Blocks(flags, request)
  {
    if flags.counts {
      return true;
    }
    var todo := request.Keys;
    while todo != {}
      invariant todo <= request.Keys
      invariant forall n | n in request && n !in todo ::
          request[n] == 0 || n !in flags.requests || !flags.requests[n]
      decreases todo
    {
      var n :| n in todo;
      if request[n] != 0 && n in flags.requests && flags.requests[n] {
        return true;
      }
      todo := todo - {n};
    }
    return false;
  }

  // ---------------------------------------------------------------- totals

  /** The sum of the amounts of a finite map, in some order. */
  ghost function Total<K(!new)>(m: map<K, Amount>): Amount {
    if m == map[] then NOTHING
    else
      var k :| k in m;
      Sum(Total(m - {k}), m[k])
  }

  /** The order does not matter: any entry can be the last one added. */
  lemma {:induction false} TotalTakesOut<K(!new)>(m: map<K, Amount>, k: K)
    requires k in m
    ensures Total(m) == Sum(Total(m - {k}), m[k])
    decreases |m|
  {
    var first :| first in m && Total(m) == Sum(Total(m - {first}), m[first]);
    if first != k {
      var rest := m - {first} - {k};
      assert rest == m - {k} - {first};
      assert (m - {first})[k] == m[k] && (m - {k})[first] == m[first];
      TotalTakesOut(m - {first}, k);
      TotalTakesOut(m - {k}, first);
      SumIsCommutativeMonoid(Total(rest), m[k], m[first]);
      SumIsCommutativeMonoid(Total(rest), m[first], m[k]);
      SumIsCommutativeMonoid(m[k], m[first], NOTHING);
    }
  }

  lemma TotalPutsIn<K(!new)>(m: map<K, Amount>, k: K, a: Amount)
    ensures Total(m[k := a]) == Sum(Total(m - {k}), a)
  {
    assert m[k := a] - {k} == m - {k};
    TotalTakesOut(m[k := a], k);
  }

  /** How much of a resource an amount holds. */
  lemma AtOfSum(a: Amount, b: Amount, n: ResourceName)
    ensures At(Sum(a, b).requests, n) == At(a.requests, n) + At(b.requests, n)
    ensures Pods(Sum(a, b)) == Pods(a) + Pods(b)
  {
  }

  lemma AtOfDiff(a: Amount, b: Amount, n: ResourceName)
    ensures At(Diff(a, b).requests, n) == At(a.requests, n) - At(b.requests, n)
    ensures a.counts.Some? && b.counts.Some? ==>
      Pods(Diff(a, b)) == if Pods(a) >= Pods(b) then Pods(a) - Pods(b) else 0
    ensures a.counts.None? || b.counts.None? ==> Diff(a, b).counts == a.counts
  {
  }

  ghost predicate EntriesArePods<K(!new)>(m: map<K, Amount>) {
    forall k | k in m :: m[k].counts == Some(1)
  }

  /** Over pods, the total's count is the number of pods, and nil when there is none. */
  lemma {:induction false} TotalCountsPods<K(!new)>(m: map<K, Amount>)
    requires EntriesArePods(m)
    ensures Total(m).counts == if m == map[] then None else Some(|m|)
    decreases |m|
  {
    if m != map[] {
      var k :| k in m;
      TotalTakesOut(m, k);
      TotalCountsPods(m - {k});
      assert (m - {k}).Keys == m.Keys - {k};
    }
  }

  lemma {:induction false} TotalIsNonNegative<K(!new)>(m: map<K, Amount>)
    requires forall k | k in m :: NonNegativeAmount(m[k])
    ensures NonNegativeAmount(Total(m))
    decreases |m|
  {
    if m != map[] {
      var k :| k in m;
      TotalTakesOut(m, k);
      TotalIsNonNegative(m - {k});
    }
  }

  /** Whatever two maps cover between them, with the same entries, they hold at least as much of. */
  lemma {:induction false} TotalIsCovered<K(!new)>(
    m: map<K, Amount>, u: map<K, Amount>, v: map<K, Amount>, n: ResourceName)
    requires forall k | k in m :: (k in u && u[k] == m[k]) || (k in v && v[k] == m[k])
    requires forall k | k in u :: NonNegativeAmount(u[k])
    requires forall k | k in v :: NonNegativeAmount(v[k])
    ensures At(Total(m).requests, n) <= At(Total(u).requests, n) + At(Total(v).requests, n)
    ensures Pods(Total(m)) <= Pods(Total(u)) + Pods(Total(v))
    decreases |m|
  {
    if m == map[] {
      TotalIsNonNegative(u);
      TotalIsNonNegative(v);
    } else {
      var k :| k in m;
      TotalTakesOut(m, k);
      AtOfSum(Total(m - {k}), m[k], n);
      if k in u && u[k] == m[k] {
        TotalTakesOut(u, k);
        AtOfSum(Total(u - {k}), u[k], n);
        TotalIsCovered(m - {k}, u - {k}, v, n);
      } else {
        TotalTakesOut(v, k);
        AtOfSum(Total(v - {k}), v[k], n);
        TotalIsCovered(m - {k}, u, v - {k}, n);
      }
    }
  }
}
