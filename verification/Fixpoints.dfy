/**
 A reconcile's own status update enqueues its key again. The second reconcile finds nothing to do: it writes no
 status, so the two cannot chase each other, and for a ClusterThrottle it changes no reservation either.
 */
module Fixpoints {
  import opened Names
  import opened ResourceAmounts
  import opened Overrides
  import opened PodModel
  import opened ReservedAmounts
  import opened Scans
  import opened ThrottleControllers
  import opened ClusterThrottleControllers

  /** A status that says what the reconcile would write is left alone, and no write is sent that could fail. */
  method ReconcileSettledClusterThrottle(c: ClusterThrottleController, name: string, now: Time, updateOk: bool)
    returns (failed: bool)
    requires c.Valid() && Name("", name) in c.throttles && !c.CountingFails(c.throttles[Name("", name)])
    requires c.throttles[Name("", name)].status == c.StatusAfter(c.throttles[Name("", name)], now)
    modifies c`throttles, c`wakeUps, c.cache.Footprint()
    ensures c.Valid() && !failed && c.throttles == old(c.throttles)
    ensures fresh(c.cache.Footprint() - old(c.cache.Footprint()))
    ensures forall t ::
      c.cache.On(t) == if t == Name("", name) then old(c.cache.On(t)) - old(c.CountedNames(c.throttles[Name("", name)]))
        else old(c.cache.On(t))
  {
    hide ClusterThrottleController.CountedNames, ClusterThrottleController.CountingFails,
      ClusterThrottleController.StatusAfter, ClusterThrottleController.AsksForWakeUp, PodAmounts.Valid;
    failed := c.Reconcile(name, now, updateOk);
    var thr := old(c.throttles[Name("", name)]);
    assert thr.(status := thr.status) == thr;
  }

  /**
   With the same pods and an equal calculated threshold, two reconciles leave what the first would leave
   if it succeeded, and the second cannot fail, since it sends no write. This holds even when the first one's
   write failed: the lister's object already says what should have been written, so nobody writes it again.
   */
  method ReconcileClusterThrottleTwice(
    c: ClusterThrottleController, name: string, now: Time, updateOk: bool, later: Time, laterOk: bool)
    returns (failed: bool, again: bool)
    requires c.Valid() && Name("", name) in c.throttles && !c.CountingFails(c.throttles[Name("", name)])
    requires var spec := c.throttles[Name("", name)].spec;
      Calculated(spec, later) == Calculated(spec, now).(calculatedAt := later)
    modifies c`throttles, c`wakeUps, c.cache.Footprint()
    ensures c.Valid() && !again
    ensures var thr, status := old(c.throttles[Name("", name)]), old(c.StatusAfter(c.throttles[Name("", name)], now));
      c.throttles == old(c.throttles)[Name("", name) := thr.(status := status)]
    ensures forall t ::
      c.cache.On(t) == if t == Name("", name) then old(c.cache.On(t)) - old(c.CountedNames(c.throttles[Name("", name)]))
        else old(c.cache.On(t))
  {
    hide ClusterThrottleController.CountedNames, ClusterThrottleController.CountingFails,
      ClusterThrottleController.StatusAfter, ClusterThrottleController.AsksForWakeUp, PodAmounts.Valid;
    var key := Name("", name);
    ghost var thr, names := c.throttles[key], c.CountedNames(c.throttles[key]);
    ghost var status := c.StatusAfter(thr, now);
    c.StatusIsKept(thr, now, later);
    failed := c.Reconcile(name, now, updateOk);
    assert c.throttles[key] == thr.(status := status) && c.CountedNames(c.throttles[key]) == names;
    assert forall t :: c.cache.On(t) == if t == key && !failed then old(c.cache.On(t)) - names else old(c.cache.On(t));
    again := ReconcileSettledClusterThrottle(c, name, later, laterOk);
  }

  method ReconcileSettledThrottle(c: ThrottleController, key: Name, now: Time, updateOk: bool)
    returns (failed: bool, ghost dropped: set<Name>)
    requires c.Valid() && key in c.throttles && !c.CountingFails(c.throttles[key])
    requires c.throttles[key].status == c.StatusAfter(c.throttles[key], now)
    modifies c`throttles, c`wakeUps, c.cache.Footprint()
    ensures c.Valid() && !failed && c.throttles == old(c.throttles)
    ensures fresh(c.cache.Footprint() - old(c.cache.Footprint()))
    ensures MayBeDropped(old(c.CountedPods(c.throttles[key])), dropped)
    ensures forall t :: c.cache.On(t) == if t == key then old(c.cache.On(t)) - dropped else old(c.cache.On(t))
  {
    hide ThrottleController.CountedPods, ThrottleController.CountingFails, ThrottleController.StatusAfter,
      ThrottleController.AsksForWakeUp, PodAmounts.Valid, MayBeDropped;
    failed, dropped := c.Reconcile(key, now, updateOk);
    var thr := old(c.throttles[key]);
    assert thr.(status := thr.status) == thr;
  }

  /**
   The same for a Throttle, whose two reconciles may drop different finished pods: each drops all running pods
   and some finished ones, as the lister's order has it. The second one changes no reservation when the
   first left no finished pod reserved; Scans.DroppingAgainChangesNothing says that nothing less will do.
   */
  method ReconcileThrottleTwice(
    c: ThrottleController, key: Name, now: Time, updateOk: bool, later: Time, laterOk: bool)
    returns (failed: bool, again: bool, ghost first: set<Name>, ghost second: set<Name>)
    requires c.Valid() && key in c.throttles && !c.CountingFails(c.throttles[key])
    requires var spec := c.throttles[key].spec;
      Calculated(spec, later) == Calculated(spec, now).(calculatedAt := later)
    modifies c`throttles, c`wakeUps, c.cache.Footprint()
    ensures c.Valid() && !again
    ensures var thr := old(c.throttles[key]);
      c.throttles == old(c.throttles)[key := thr.(status := old(c.StatusAfter(c.throttles[key], now)))]
    ensures var pods := old(c.CountedPods(c.throttles[key]));
      MayBeDropped(pods, first) && MayBeDropped(pods, second)
    ensures forall t | t != key :: c.cache.On(t) == old(c.cache.On(t))
    ensures c.cache.On(key) == (if failed then old(c.cache.On(key)) else old(c.cache.On(key)) - first) - second
    ensures var left := old(c.cache.On(key)) - first;
      !failed && (forall p | p in old(c.CountedPods(c.throttles[key])) && !IsNotFinished(p) :: p.name !in left) ==>
        c.cache.On(key) == left
  {
    hide ThrottleController.CountedPods, ThrottleController.CountingFails, ThrottleController.StatusAfter,
      ThrottleController.AsksForWakeUp, PodAmounts.Valid, MayBeDropped;
    ghost var thr, pods := c.throttles[key], c.CountedPods(c.throttles[key]);
    ghost var status := c.StatusAfter(thr, now);
    ghost var reserved := c.cache.On(key);
    c.StatusIsKept(thr, now, later);
    failed, first := c.Reconcile(key, now, updateOk);
    assert c.throttles[key] == thr.(status := status) && c.CountedPods(c.throttles[key]) == pods;
    assert forall t :: c.cache.On(t) == if t == key && !failed then old(c.cache.On(t)) - first else old(c.cache.On(t));
    again, second := ReconcileSettledThrottle(c, key, later, laterOk);
    SecondDropChangesNothing(pods, reserved, first, second);
  }

  lemma SecondDropChangesNothing(pods: set<Pod>, reserved: map<Name, Amount>, first: set<Name>, second: set<Name>)
    requires MayBeDropped(pods, first) && MayBeDropped(pods, second)
    ensures (forall p | p in pods && !IsNotFinished(p) :: p.name !in reserved - first) ==>
      reserved - first - second == reserved - first
  {
    hide MayBeDropped;
    DroppedExactly(pods, first);
    assert forall p | p in pods && IsNotFinished(p) :: p.name in RunningNames(pods);
    DroppingAgainChangesNothing(pods, reserved - first);
  }
}
