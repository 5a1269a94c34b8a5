/**
 What the controllers do, in terms of the fields of pods, namespaces and throttles alone: which throttles a pod is up
 against, and which pods a reconcile sums.
 */
module InTermsOfFields {
  import opened Wrappers
  import opened Names
  import opened ResourceAmounts
  import opened Overrides
  import opened Throttles
  import opened PodModel
  import opened Selectors
  import opened ReservedAmounts
  import opened Usage
  import opened Scans
  import opened ThrottleControllers
  import opened ClusterThrottleControllers

  /** The pod is on a node, and the scheduler in question put it there. */
  predicate OnNode(target: string, p: Pod) {
    p.schedulerName == target && p.nodeName != ""
  }

  predicate Ended(p: Pod) {
    p.phase == PhaseSucceeded || p.phase == PhaseFailed
  }

  /** The total of the given pods, each counting as one, with its request. */
  ghost function TotalOf(pods: set<Pod>): Amount {
    Total(map p | p in pods :: Amount(Some(1), p.request))
  }

  lemma TotalOfIsUsage(pods: set<Pod>)
    ensures TotalOf(pods) == UsageOf(pods)
  {
    assert (map p | p in pods :: Amount(Some(1), p.request)) == map p | p in pods :: OfPod(p.request);
  }

  /** The next instant at which an override of the spec begins or ends, within the reach of a duration. */
  ghost predicate NextInstant(spec: SpecBase, now: Time, t: Time) {
    t in Ahead(spec.overrides, now) && (forall u | u in Ahead(spec.overrides, now) :: t <= u)
    && t - now < 0x8000_0000_0000_0000
  }

  lemma WakesAtTheNextInstant(spec: SpecBase, now: Time, d: Option<int>, t: Time)
    requires IsNextWake(Ahead(spec.overrides, now), now, d) && NextInstant(spec, now, t)
    ensures d == Some(t - now)
  {
    WakeUpIsExact(spec.overrides, now, d.value, t);
  }

  // ---------------------------------------------------------------- Throttle

  /** The pods on a node in the throttle's namespace. */
  ghost function InScope(c: ThrottleController, pods: map<Name, Pod>, thr: Throttle): set<Pod> {
    set p | p in pods.Values && OnNode(c.targetSchedulerName, p) && p.name.namespace == thr.name.namespace
  }

  ghost predicate Selected(thr: Throttle, p: Pod) {
    exists i :: TermWins(thr.selector, p.labels, i)
  }

  ghost predicate Undecided(thr: Throttle, p: Pod) {
    exists i :: TermSpoils(thr.selector, p.labels, i)
  }

  lemma CountedByFields(c: ThrottleController, thr: Throttle, p: Pod)
    requires p in c.pods.Values
    ensures c.Counted(thr, p) == Ok(true) <==> p in InScope(c, c.pods, thr) && Selected(thr, p)
    ensures c.Counted(thr, p).Err? <==> p in InScope(c, c.pods, thr) && Undecided(thr, p)
  {
    ThrottleSelectorIsAnOr(thr.selector, p.labels);
  }

  /** The throttles a pod is up against are this throttler's, in its namespace, that select it. */
  lemma MatchingByFields(c: ThrottleController, pod: Pod)
    ensures forall t :: t in c.Matching(pod) <==> t in c.throttles && var thr := c.throttles[t];
      thr.spec.throttlerName == c.throttlerName && thr.name.namespace == pod.name.namespace && Selected(thr, pod)
    ensures c.LookupFails(pod) <==> exists t :: t in c.throttles && var thr := c.throttles[t];
      thr.spec.throttlerName == c.throttlerName && thr.name.namespace == pod.name.namespace && Undecided(thr, pod)
  {
    forall t | t in c.throttles
      ensures c.Affects(c.throttles[t], pod) == Ok(true) <==> var thr := c.throttles[t];
        thr.spec.throttlerName == c.throttlerName && thr.name.namespace == pod.name.namespace && Selected(thr, pod)
      ensures c.Affects(c.throttles[t], pod).Err? <==> var thr := c.throttles[t];
        thr.spec.throttlerName == c.throttlerName && thr.name.namespace == pod.name.namespace && Undecided(thr, pod)
    {
      ThrottleSelectorIsAnOr(c.throttles[t].selector, pod.labels);
    }
  }

  /** The pods a reconcile sums: on a node, in the namespace, selected, and not ended. */
  ghost function InUse(c: ThrottleController, pods: map<Name, Pod>, thr: Throttle): set<Pod> {
    set p | p in InScope(c, pods, thr) && Selected(thr, p) && !Ended(p)
  }

  lemma RunningByFields(c: ThrottleController, thr: Throttle)
    ensures c.RunningPods(thr) == InUse(c, c.pods, thr)
    ensures c.CountingFails(thr) <==> exists p :: p in InScope(c, c.pods, thr) && Undecided(thr, p)
  {
    forall p | p in c.pods.Values
      ensures c.Counted(thr, p) == Ok(true) <==> p in InScope(c, c.pods, thr) && Selected(thr, p)
      ensures c.Counted(thr, p).Err? <==> p in InScope(c, c.pods, thr) && Undecided(thr, p)
    {
      CountedByFields(c, thr, p);
    }
  }

  /**
   After a reconcile the status's usage is the total of exactly the pods in use, unless a selector fails on a pod. On
   success none of them is still reserved, and a wake-up is asked for at the next instant of an override.
   */
  method ReconcileThrottle(c: ThrottleController, key: Name, now: Time, updateOk: bool) returns (failed: bool)
    requires c.Valid() && key in c.throttles
    modifies c`throttles, c`wakeUps, c.cache.Footprint()
    ensures c.Valid() && c.throttles.Keys == old(c.throttles).Keys
    ensures var thr := old(c.throttles[key]);
      if exists p :: p in InScope(c, c.pods, thr) && Undecided(thr, p) then failed && c.throttles == old(c.throttles)
      else
        && c.throttles[key].status.used == TotalOf(InUse(c, c.pods, thr))
        && (!failed ==> forall p | p in InUse(c, c.pods, thr) :: p.name !in c.cache.On(key))
        && (!failed ==> forall t | NextInstant(thr.spec, now, t) :: (key, t - now) in c.wakeUps)
  {
    hide IsNextWake, NextInstant, ThrottleController.CountedPods, ThrottleController.CountingFails,
      PodAmounts.Valid, MayBeDropped, UsageOf, TotalOf, ReservedResourceAmounts.On;
    ghost var thr := c.throttles[key];
    RunningByFields(c, thr);
    TotalOfIsUsage(InUse(c, c.pods, thr));
    ghost var counted := c.CountedPods(thr);
    ghost var dropped;
    failed, dropped := c.Reconcile(key, now, updateOk);
    if !failed && !old(c.CountingFails(c.throttles[key])) {
      DroppedCoversRunning(counted, dropped);
      ghost var d :| IsNextWake(Ahead(thr.spec.overrides, now), now, d)
        && c.wakeUps == old(c.wakeUps) + if d.Some? then {(key, d.value)} else {};
      forall t | NextInstant(thr.spec, now, t) {
        WakesAtTheNextInstant(thr.spec, now, d, t);
      }
    }
  }

  lemma DroppedCoversRunning(pods: set<Pod>, dropped: set<Name>)
    requires MayBeDropped(pods, dropped)
    ensures forall p | p in pods && IsNotFinished(p) :: p.name in dropped
  {
    hide MayBeDropped;
    DroppedExactly(pods, dropped);
  }

  // ---------------------------------------------------------------- ClusterThrottle

  /** The pods on a node in a known namespace. */
  ghost function InClusterScope(c: ClusterThrottleController, pods: map<Name, Pod>): set<Pod>
    reads c`namespaces
  {
    set p | p in pods.Values && OnNode(c.targetSchedulerName, p) && p.name.namespace in c.namespaces
  }

  ghost predicate ClusterSelected(c: ClusterThrottleController, thr: ClusterThrottle, p: Pod)
    requires p.name.namespace in c.namespaces
    reads c`namespaces
  {
    exists i :: ClusterTermWins(thr.selector, p.labels, c.namespaces[p.name.namespace].labels, i)
  }

  ghost predicate ClusterUndecided(c: ClusterThrottleController, thr: ClusterThrottle, p: Pod)
    requires p.name.namespace in c.namespaces
    reads c`namespaces
  {
    exists i :: ClusterTermSpoils(thr.selector, p.labels, c.namespaces[p.name.namespace].labels, i)
  }

  /** The cluster throttles a pod is up against are this throttler's that select it. */
  lemma ClusterMatchingByFields(c: ClusterThrottleController, pod: Pod)
    ensures forall t :: t in c.Matching(pod) <==>
      && t in c.throttles && pod.name.namespace in c.namespaces
      && c.throttles[t].spec.throttlerName == c.throttlerName && ClusterSelected(c, c.throttles[t], pod)
    ensures c.LookupFails(pod) <==> pod.name.namespace !in c.namespaces || exists t ::
      && t in c.throttles && c.throttles[t].spec.throttlerName == c.throttlerName
      && ClusterUndecided(c, c.throttles[t], pod)
  {
    if pod.name.namespace in c.namespaces {
      forall t | t in c.throttles
        ensures c.Affects(c.throttles[t], pod) == Ok(true) <==>
          c.throttles[t].spec.throttlerName == c.throttlerName && ClusterSelected(c, c.throttles[t], pod)
        ensures c.Affects(c.throttles[t], pod).Err? <==>
          c.throttles[t].spec.throttlerName == c.throttlerName && ClusterUndecided(c, c.throttles[t], pod)
      {
        ClusterSelectorIsAnOr(c.throttles[t].selector, pod.labels, c.namespaces[pod.name.namespace].labels);
      }
    }
  }

  lemma ClusterCountedByFields(c: ClusterThrottleController, thr: ClusterThrottle, p: Pod)
    ensures p.name.namespace in c.namespaces && OnNode(c.targetSchedulerName, p) ==>
      && (c.Counted(thr, p) == Ok(true) <==> ClusterSelected(c, thr, p))
      && (c.Counted(thr, p).Err? <==> ClusterUndecided(c, thr, p))
    ensures p.name.namespace !in c.namespaces || !OnNode(c.targetSchedulerName, p) ==> c.Counted(thr, p) == Ok(false)
  {
    if p.name.namespace in c.namespaces {
      var labels := c.namespaces[p.name.namespace].labels;
      ClusterSelectorIsAnOr(thr.selector, p.labels, labels);
      NamespacePrefilterLosesNothing(thr.selector, p.labels, labels);
      var matchNs := MatchesNamespace(thr.selector, labels);
      assert matchNs == if matchNs.value then Ok(true) else Ok(false);
    }
  }

  ghost function ClusterInUse(c: ClusterThrottleController, pods: map<Name, Pod>, thr: ClusterThrottle): set<Pod>
    reads c`namespaces
  {
    set p | p in InClusterScope(c, pods) && ClusterSelected(c, thr, p) && !Ended(p)
  }

  lemma ClusterRunningByFields(c: ClusterThrottleController, thr: ClusterThrottle)
    requires c.ListersValid()
    ensures c.RunningPods(thr) == ClusterInUse(c, c.pods, thr)
    ensures c.CountingFails(thr) <==> exists p :: p in InClusterScope(c, c.pods) && ClusterUndecided(c, thr, p)
    ensures c.CountedPods(thr) == set p | p in InClusterScope(c, c.pods) && ClusterSelected(c, thr, p)
  {
    assert forall p :: c.Listed(p) <==> p in c.pods.Values;
    forall p | p in c.pods.Values
      ensures c.Counted(thr, p) == Ok(true) <==> p in InClusterScope(c, c.pods) && ClusterSelected(c, thr, p)
      ensures c.Counted(thr, p).Err? <==> p in InClusterScope(c, c.pods) && ClusterUndecided(c, thr, p)
    {
      ClusterCountedByFields(c, thr, p);
    }
  }

  /** The same for ClusterThrottle, where no selected pod at all, running or ended, is still reserved on success. */
  method ReconcileClusterThrottle(c: ClusterThrottleController, name: string, now: Time, updateOk: bool)
    returns (failed: bool)
    requires c.Valid() && Name("", name) in c.throttles
    modifies c`throttles, c`wakeUps, c.cache.Footprint()
    ensures c.Valid() && c.throttles.Keys == old(c.throttles).Keys
    ensures var thr := old(c.throttles[Name("", name)]);
      if exists p :: p in InClusterScope(c, c.pods) && ClusterUndecided(c, thr, p) then
        failed && c.throttles == old(c.throttles)
      else
        && c.throttles[Name("", name)].status.used == TotalOf(ClusterInUse(c, c.pods, thr))
        && (!failed ==> forall p | p in InClusterScope(c, c.pods) && ClusterSelected(c, thr, p) ::
              p.name !in c.cache.On(Name("", name)))
        && (!failed ==> forall t | NextInstant(thr.spec, now, t) :: (Name("", name), t - now) in c.wakeUps)
  {
    hide IsNextWake, NextInstant, ClusterThrottleController.CountingFails, PodAmounts.Valid, UsageOf,
      TotalOf, ReservedResourceAmounts.On;
    ghost var thr := c.throttles[Name("", name)];
    ClusterRunningByFields(c, thr);
    TotalOfIsUsage(ClusterInUse(c, c.pods, thr));
    failed := c.Reconcile(name, now, updateOk);
    if !failed && !old(c.CountingFails(c.throttles[Name("", name)])) {
      ghost var d :| IsNextWake(Ahead(thr.spec.overrides, now), now, d)
        && c.wakeUps == old(c.wakeUps) + if d.Some? then {(Name("", name), d.value)} else {};
      forall t | NextInstant(thr.spec, now, t) {
        WakesAtTheNextInstant(thr.spec, now, d, t);
      }
    }
  }
}
