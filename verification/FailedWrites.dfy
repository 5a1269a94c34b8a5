/**
 What becomes of a status write that failed. The lister's own object was changed before the write was sent, so the
 retry compares with what was to be written: it sends a write only if it computes something else by then.
 */
module FailedWrites {
  import opened Wrappers
  import opened Names
  import opened ResourceAmounts
  import opened Overrides
  import opened Throttles
  import opened PodModel
  import opened Selectors
  import opened ReservedAmounts
  import opened Usage
  import opened Scans
  import opened ThrottleControllers
  import opened ClusterThrottleControllers

  /**
   A reconcile while writes are refused, any change of the pods, and a retry, with writes still refused. The retry
   fails, and so is retried in turn, exactly when it cannot list the pods or computes another status than the first.
   */
  method RetryThrottle(c: ThrottleController, key: Name, now: Time, pods: map<Name, Pod>, later: Time)
    returns (failed: bool, again: bool, ghost refused: Status)
    requires c.Valid() && key in c.throttles && !c.CountingFails(c.throttles[key])
    requires forall k | k in pods :: pods[k].name == k
    modifies c`pods, c`throttles, c`wakeUps, c.cache.Footprint()
    ensures c.Valid() && c.pods == pods && refused == old(c.StatusAfter(c.throttles[key], now))
    ensures failed <==> refused != old(c.throttles[key]).status
    ensures var thr := old(c.throttles[key]).(status := refused);
      again <==> c.CountingFails(thr) || c.StatusAfter(thr, later) != refused
  {
    hide ThrottleController.CountedPods, ThrottleController.CountingFails, ThrottleController.StatusAfter,
      ThrottleController.AsksForWakeUp, PodAmounts.Valid, MayBeDropped;
    ghost var dropped;
    refused := c.StatusAfter(c.throttles[key], now);
    failed, dropped := c.Reconcile(key, now, false);
    var thr := c.throttles[key];
    assert thr == old(c.throttles[key]).(status := refused);
    PodsChange(c, pods);
    ghost var fails, status := c.CountingFails(thr), c.StatusAfter(thr, later);
    again, dropped := c.Reconcile(key, later, false);
    assert c.CountingFails(thr) == fails && c.StatusAfter(thr, later) == status;
  }

  method RetryClusterThrottle(
    c: ClusterThrottleController, name: string, now: Time, pods: map<Name, Pod>, later: Time)
    returns (failed: bool, again: bool, ghost refused: Status)
    requires c.Valid() && Name("", name) in c.throttles && !c.CountingFails(c.throttles[Name("", name)])
    requires forall k | k in pods :: pods[k].name == k
    modifies c`pods, c`throttles, c`wakeUps, c.cache.Footprint()
    ensures c.Valid() && c.pods == pods && refused == old(c.StatusAfter(c.throttles[Name("", name)], now))
    ensures failed <==> refused != old(c.throttles[Name("", name)]).status
    ensures var thr := old(c.throttles[Name("", name)]).(status := refused);
      again <==> c.CountingFails(thr) || c.StatusAfter(thr, later) != refused
  {
    hide ClusterThrottleController.CountedNames, ClusterThrottleController.CountingFails,
      ClusterThrottleController.StatusAfter, ClusterThrottleController.AsksForWakeUp, PodAmounts.Valid;
    refused := c.StatusAfter(c.throttles[Name("", name)], now);
    failed := c.Reconcile(name, now, false);
    var thr := c.throttles[Name("", name)];
    assert thr == old(c.throttles[Name("", name)]).(status := refused);
    PodsChangeForAll(c, pods);
    ghost var fails, status := c.CountingFails(thr), c.StatusAfter(thr, later);
    again := c.Reconcile(name, later, false);
    assert c.CountingFails(thr) == fails && c.StatusAfter(thr, later) == status;
  }

  method PodsChange(c: ThrottleController, pods: map<Name, Pod>)
    requires c.Valid() && forall k | k in pods :: pods[k].name == k
    modifies c`pods
    ensures c.Valid() && c.pods == pods
  {
    c.pods := pods;
  }

  method PodsChangeForAll(c: ClusterThrottleController, pods: map<Name, Pod>)
    requires c.Valid() && forall k | k in pods :: pods[k].name == k
    modifies c`pods
    ensures c.Valid() && c.pods == pods
  {
    c.pods := pods;
  }

  // ---------------------------------------------------------------- instances

  const POD := Pod(Name("ns", "p"), map[], "my-scheduler", "node", PhaseRunning, map[])
  const SPEC := SpecBase("", NOTHING, [])

  /** One running pod makes a write due on a new status. */
  lemma OnePodMakesAWriteDue(now: Time)
    ensures NextStatus(SPEC, NEW_STATUS, UsageOf({POD}), now).used.counts == Some(1)
    ensures Calculated(SPEC, now + 1) == Calculated(SPEC, now).(calculatedAt := now + 1)
  {
    UsageCountsPods({POD});
  }

  /** The first write to a new throttle with one running pod fails, and nobody tries again. */
  method ThrottleStatusIsNeverWritten(now: Time) returns (c: ThrottleController, failed: bool, again: bool)
    ensures failed && !again
  {
    var cache := new ReservedResourceAmounts();
    c := new ThrottleController("", "my-scheduler", cache);
    var thr := Throttle(Name("ns", "t"), SPEC, [Selects(_ => true)], NEW_STATUS);
    c.pods, c.throttles := map[POD.name := POD], map[thr.name := thr];
    OnlyPodIsRunning(c, thr);
    OnePodMakesAWriteDue(now);
    c.StatusIsKept(thr, now, now + 1);
    ghost var refused;
    failed, again, refused := RetryThrottle(c, thr.name, now, c.pods, now + 1);
  }

  lemma OnlyPodIsRunning(c: ThrottleController, thr: Throttle)
    requires c.pods == map[POD.name := POD] && c.targetSchedulerName == "my-scheduler" && thr.name.namespace == "ns"
    requires |thr.selector| == 1 && thr.selector[0].Selects? && forall l :: thr.selector[0].test(l)
    ensures c.RunningPods(thr) == {POD}
    ensures forall status :: !c.CountingFails(thr.(status := status))
  {
    Everything(thr.selector);
    assert c.pods[POD.name] == POD;
    assert c.pods.Values == {POD};
    assert Matches(thr.selector, POD.labels) == Ok(true);
    assert POD.name.namespace == thr.name.namespace;
    assert c.Counts(POD);
    assert c.Counted(thr, POD) == Ok(true);
    assert forall status :: c.Counted(thr.(status := status), POD) == Ok(true);
  }

  lemma Everything(selector: seq<LabelSelector>)
    requires |selector| == 1 && selector[0].Selects? && forall l :: selector[0].test(l)
    ensures forall l :: Matches(selector, l) == Ok(true)
  {
    forall l ensures Matches(selector, l) == Ok(true) {
      assert Outcomes(selector, l)[0] == Ok(true);
    }
  }

  /** A controller that lists one namespace, one running pod in it, and one new throttle that selects everything. */
  method OnePodForAll() returns (c: ClusterThrottleController)
    ensures fresh(c) && fresh(c.cache) && c.cache.cache == map[] && c.Valid()
    ensures var key := Name("", "t");
      && key in c.throttles && c.throttles[key].spec == SPEC && c.throttles[key].status == NEW_STATUS
      && c.RunningPods(c.throttles[key]) == {POD}
      && forall status :: !c.CountingFails(c.throttles[key].(status := status))
  {
    var cache := new ReservedResourceAmounts();
    c := new ClusterThrottleController("", "my-scheduler", cache);
    var all := ClusterTerm(Selects(_ => true), Selects(_ => true));
    var thr := ClusterThrottle(Name("", "t"), SPEC, [all], NEW_STATUS);
    c.namespaces := map["ns" := Namespace("ns", map[])];
    c.pods, c.throttles := map[POD.name := POD], map[thr.name := thr];
    OnlyPodIsRunningForAll(c, thr);
  }

  method ClusterThrottleStatusIsNeverWritten(now: Time)
    returns (c: ClusterThrottleController, failed: bool, again: bool)
    ensures failed && !again
  {
    hide ClusterThrottleController.RunningPods, ClusterThrottleController.CountingFails;
    c := OnePodForAll();
    var thr := c.throttles[Name("", "t")];
    OnePodMakesAWriteDue(now);
    c.StatusIsKept(thr, now, now + 1);
    assert thr.(status := thr.status) == thr;
    ghost var refused;
    failed, again, refused := RetryClusterThrottle(c, "t", now, c.pods, now + 1);
  }

  lemma OnlyPodIsRunningForAll(c: ClusterThrottleController, thr: ClusterThrottle)
    requires c.pods == map[POD.name := POD] && c.targetSchedulerName == "my-scheduler"
    requires c.namespaces == map["ns" := Namespace("ns", map[])]
    requires |thr.selector| == 1 && thr.selector[0].pods.Selects? && thr.selector[0].namespaces.Selects?
    requires forall l :: thr.selector[0].pods.test(l) && thr.selector[0].namespaces.test(l)
    ensures c.RunningPods(thr) == {POD}
    ensures forall status :: !c.CountingFails(thr.(status := status))
  {
    var ns := c.namespaces["ns"].labels;
    assert PodOutcomes(thr.selector, POD.labels, ns)[0] == Ok(true);
    assert NamespaceOutcomes(thr.selector, ns)[0] == Ok(true);
    assert c.pods[POD.name] == POD;
    assert c.pods.Values == {POD};
    assert forall status :: c.Counted(thr.(status := status), POD) == Ok(true);
    assert c.Counted(thr, POD) == Ok(true);
  }
}
