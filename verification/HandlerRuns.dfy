/**
 The controller's other calls are steps of the machine as well: the handlers of events, run when they are
 delivered, and the scheduler's check, reserve and un-reserve.
 */
module HandlerRuns {
  import opened Wrappers
  import opened Names
  import opened ResourceAmounts
  import opened Throttles
  import opened PodModel
  import opened Selectors
  import opened ReservedAmounts
  import opened ThrottleControllers
  import opened Protocol
  import opened ProtocolResults
  import opened SequentialRuns
  import opened ControllerRuns

  // ---------------------------------------------------------------- what a call may change

  /** The state has moved on in reservations and queues alone. */
  ghost predicate SameView(s: State, s': State) {
    && s'.phase == s.phase && s'.affects == s.affects && s'.thrs.Keys == s.thrs.Keys && s'.delayed == s.delayed
    && forall t | t in s.thrs :: s'.thrs[t] == s.thrs[t].(reserved := s'.thrs[t].reserved)
  }

  /** A call that changes reservations and adds to the queue takes mirrored states to mirrored states. */
  lemma SameViewMirrors(c: ThrottleController, w: World, s: State, s': State, queue: set<Name>, ts: set<Name>)
    requires c.Valid() && SameView(s, s') && ts <= s.thrs.Keys && s'.dirty == s.dirty + ts
    requires MirrorsSpecs(c, c.throttles, s) && MirrorsPods(c, c.throttles, c.pods, w, s)
    requires MirrorsQueues(queue, c.delayed, s) && c.queue == queue + ts
    requires forall t | t in s.thrs :: s'.thrs[t].reserved == c.cache.On(t)
    ensures Mirrors(c, w, s')
  {
    KeysAreAdded(queue, c.delayed, s, s', ts);
  }

  /** The pods that the scheduler and the handlers ask about: labels and request as the machine has them. */
  ghost predicate Knows(c: ThrottleController, w: World, s: State, pod: Pod)
    reads c`throttles
  {
    !c.LookupFails(pod) && AffectsOf(s, pod.name) == c.Matching(pod) && RequestOf(w, pod.name) == pod.request
  }

  lemma KnownThrottlesAreListed(c: ThrottleController, w: World, s: State, pod: Pod)
    requires MirrorsSpecs(c, c.throttles, s) && Knows(c, w, s, pod)
    ensures AffectsOf(s, pod.name) <= s.thrs.Keys
  {
  }

  // ---------------------------------------------------------------- the scheduler's calls

  /** The controller's verdicts are those that the machine's reads and judgements come to. */
  lemma VerdictsAgree(c: ThrottleController, w: World, s: State, pod: Pod)
    requires c.Valid() && Mirrors(c, w, s) && Knows(c, w, s, pod)
    ensures c.Verdicts(pod, false).Keys == AffectsOf(s, pod.name)
    ensures AllPass(w, s, pod.name) <==>
      forall t | t in c.Verdicts(pod, false) :: c.Verdicts(pod, false)[t] == NotThrottled
    ensures forall t | t in c.Verdicts(pod, false) ::
      && t in s.thrs && t in AffectsOf(s, pod.name)
      && c.Verdicts(pod, false)[t]
        == CheckThrottle(s.thrs[t].spec, s.thrs[t].status, RequestOf(w, pod.name), Total(s.thrs[t].reserved), false)
  {
    hide CheckThrottle, Total, MirrorsPods;
    KnownThrottlesAreListed(c, w, s, pod);
    forall t | t in AffectsOf(s, pod.name) ensures t in c.Verdicts(pod, false) {
    }
  }

  lemma AllAreSorted(checked: Checked, verdicts: map<Name, Verdict>)
    requires checked.Sorts(verdicts)
    ensures checked.affected == verdicts.Keys
  {
  }

  /** A check is a run: past all throttles of the pod when it admits the pod, and to the end of the cycle when not. */
  method CheckAsARun(c: ThrottleController, ghost w: World, ghost s: State, pod: Pod)
    returns (checked: Checked, ghost steps: seq<Step>)
    requires c.Valid() && Mirrors(c, w, s) && Knows(c, w, s, pod) && s.cycle == Checking(pod.name, {}, None)
    ensures Mirrors(c, w, s) && checked.affected == AffectsOf(s, pod.name)
    ensures checked.Admits() <==> AllPass(w, s, pod.name)
    ensures checked.Admits() ==> forall step | step in steps :: step.ReadReserved? || step.Judge?
    ensures !checked.Admits() ==> exists t | t in checked.affected :: steps == [ReadReserved(t), Judge]
    ensures Leads(w, s, steps,
                  s.(cycle := if checked.Admits() then Checking(pod.name, AffectsOf(s, pod.name), None) else NoCycle))
  {
    hide CheckThrottle, Total, MirrorsPods, MirrorsSpecs, MirrorsQueues, Leads, AllPass, Checked.Sorts,
      ThrottleController.Matching, ThrottleController.LookupFails;
    ghost var verdicts := c.Verdicts(pod, false);
    VerdictsAgree(c, w, s, pod);
    var r := c.CheckThrottled(pod, false);
    checked := r.value;
    assert checked.affected == verdicts.Keys by { AllAreSorted(checked, verdicts); }
    AdmitsMeansNoRefusal(checked, verdicts);
    if checked.Admits() {
      steps := ChecksLead(w, s);
    } else {
      ghost var t :| t in verdicts && verdicts[t] != NotThrottled;
      RefusalLeads(w, s, t);
      steps := [ReadReserved(t), Judge];
    }
  }

  /** Reserving is a run to a state in which the pod holds a reservation on every throttle that affects it. */
  method ReserveAsARun(c: ThrottleController, ghost w: World, ghost s: State, pod: Pod) returns (ghost steps: seq<Step>)
    requires c.Valid() && Mirrors(c, w, s) && Knows(c, w, s, pod) && s.cycle == Reserving(pod.name, {})
    modifies c.cache.Footprint()
    ensures forall step | step in steps :: step.ReserveOn?
    ensures c.Valid() && var s' := Reserved(w, s, AffectsOf(s, pod.name)); Leads(w, s, steps, s') && Mirrors(c, w, s')
  {
    hide Leads, MirrorsPods, MirrorsSpecs, MirrorsQueues, PodAmounts.Valid, ReservedResourceAmounts.On,
      ThrottleController.Matching, ThrottleController.LookupFails;
    KnownThrottlesAreListed(c, w, s, pod);
    ghost var ts := AffectsOf(s, pod.name);
    steps := ReservesLead(w, s, ts);
    var r := c.Reserve(pod);
    assert c.queue + {} == c.queue && s.dirty + {} == s.dirty;
    SameViewMirrors(c, w, s, Reserved(w, s, ts), c.queue, {});
  }

  /** Un-reserving is a run to a state in which the pod holds none, and is pending again. */
  method UnreserveAsARun(c: ThrottleController, ghost w: World, ghost s: State, pod: Pod)
    returns (ghost steps: seq<Step>, ghost s': State)
    requires c.Valid() && Mirrors(c, w, s) && Knows(c, w, s, pod) && PhaseOf(s, pod.name).Unreserving? && Pruned(s) == s
    modifies c.cache.Footprint()
    ensures c.Valid() && Leads(w, s, steps, s') && Mirrors(c, w, s') && PhaseOf(s', pod.name).Pending?
    ensures forall step | step in steps :: (step.UnreserveOn? || step.UnreserveDone?) && step.p == pod.name
    ensures forall t | t in s'.thrs && t in AffectsOf(s', pod.name) :: pod.name !in s'.thrs[t].reserved
  {
    hide Leads, MirrorsPods, MirrorsSpecs, MirrorsQueues, PodAmounts.Valid, ReservedResourceAmounts.On, Pruned,
      ThrottleController.Matching, ThrottleController.LookupFails;
    KnownThrottlesAreListed(c, w, s, pod);
    ghost var ts := AffectsOf(s, pod.name);
    steps := UnreservesLead(w, s, pod.name, ts);
    var r := c.UnReserve(pod);
    ghost var gone := Unreserved(s, pod.name, ts);
    assert c.queue + {} == c.queue && s.dirty + {} == s.dirty;
    SameViewMirrors(c, w, s, gone, c.queue, {});
    s' := UnreservedIsPending(c, w, s, gone, pod.name);
    LeadsOn(w, s, steps, gone, [UnreserveDone(pod.name)], s');
    steps := steps + [UnreserveDone(pod.name)];
  }

  lemma UnreservedIsPending(c: ThrottleController, w: World, s: State, gone: State, p: Name) returns (s': State)
    requires c.Valid() && Mirrors(c, w, gone) && PhaseOf(s, p).Unreserving? && Pruned(s) == s
    requires gone == Unreserved(s, p, AffectsOf(s, p))
    ensures Leads(w, gone, [UnreserveDone(p)], s') && Mirrors(c, w, s') && PhaseOf(s', p).Pending?
    ensures s'.thrs == gone.thrs && s'.affects == gone.affects
  {
    hide Leads, MirrorsPods, Demand;
    var done := Apply(w, gone, UnreserveDone(p));
    s' := Pruned(done);
    OneStepLeads(w, gone, UnreserveDone(p));
    OffListIsInvisible(c, c.throttles, c.pods, w, gone, s', p);
  }

  lemma OffListIsInvisible(c: ThrottleController, throttles: map<Name, Throttle>, pods: map<Name, Pod>,
                           w: World, s: State, s': State, p: Name)
    requires MirrorsPods(c, throttles, pods, w, s) && s'.affects == s.affects
    requires p in s'.phase && s'.phase == s.phase[p := s'.phase[p]]
    requires !Seen(PhaseOf(s, p)) && !Seen(PhaseOf(s', p))
    ensures MirrorsPods(c, throttles, pods, w, s')
  {
    assert forall q | q != p :: PhaseOf(s', q) == PhaseOf(s, q);
    forall n: Name | n in pods && c.Counts(pods[n]) ensures MirrorsPod(c, throttles, w, s', pods[n]) {
      assert pods[n].name == n && MirrorsPod(c, throttles, w, s, pods[n]);
      assert n != p;
    }
  }

  // ---------------------------------------------------------------- the lister's changes

  /** The informer stores a pod's new version, or removes the pod, before it calls the handlers. */
  method Store(c: ThrottleController, pods: map<Name, Pod>)
    requires c.Valid() && forall k | k in pods :: pods[k].name == k
    modifies c`pods
    ensures c.Valid() && c.pods == pods
    ensures forall t :: c.cache.On(t) == old(c.cache.On(t))
  {
    c.pods := pods;
  }

  lemma StoredIsSeen(c: ThrottleController, throttles: map<Name, Throttle>, pods: map<Name, Pod>, w: World,
                     s: State, s': State, pod: Pod)
    requires MirrorsPods(c, throttles, pods, w, s) && c.Counts(pod) && s'.affects == s.affects
    requires s'.phase == s.phase[pod.name := if IsNotFinished(pod) then Running else Phase.Finished]
    requires AffectsOf(s, pod.name) == MatchingIn(c, throttles, pod) && RequestOf(w, pod.name) == pod.request
    ensures MirrorsPods(c, throttles, pods[pod.name := pod], w, s')
  {
    var pods' := pods[pod.name := pod];
    assert forall q | q != pod.name :: PhaseOf(s', q) == PhaseOf(s, q);
    forall n: Name | n in pods' && c.Counts(pods'[n])
      ensures pods'[n].name == n && MirrorsPod(c, throttles, w, s', pods'[n])
    {
      if n != pod.name {
        assert pods[n].name == n && MirrorsPod(c, throttles, w, s, pods[n]);
      }
    }
  }

  lemma RemovedIsGone(c: ThrottleController, throttles: map<Name, Throttle>, pods: map<Name, Pod>, w: World,
                      s: State, s': State, p: Name)
    requires MirrorsPods(c, throttles, pods, w, s) && s'.affects == s.affects && s'.phase == s.phase[p := Gone]
    ensures MirrorsPods(c, throttles, pods - {p}, w, s')
  {
    assert forall q | q != p :: PhaseOf(s', q) == PhaseOf(s, q);
    forall n: Name | n in pods - {p} && c.Counts(pods[n])
      ensures pods[n].name == n && MirrorsPod(c, throttles, w, s', pods[n])
    {
      assert MirrorsPod(c, throttles, w, s, pods[n]);
    }
  }

  /** The lister showing a bound pod, or that it has finished, is one step. */
  method StoreAsAStep(c: ThrottleController, ghost w: World, ghost s: State, pod: Pod)
    requires c.Valid() && Mirrors(c, w, s) && Knows(c, w, s, pod) && c.Counts(pod)
    requires MayBecomeSeen(PhaseOf(s, pod.name), if IsNotFinished(pod) then Running else Phase.Finished)
    modifies c`pods
    ensures c.Valid() && var see := See(pod.name, if IsNotFinished(pod) then Running else Phase.Finished);
      Enabled(w, s, see) && Mirrors(c, w, Apply(w, s, see))
  {
    hide MirrorsPods, MirrorsSpecs, MirrorsQueues, ThrottleController.LookupFails, ReservedResourceAmounts.On;
    ghost var s' := Apply(w, s, See(pod.name, if IsNotFinished(pod) then Running else Phase.Finished));
    StoredIsSeen(c, c.throttles, c.pods, w, s, s', pod);
    OnlyPodsMove(c, s, s');
    Store(c, c.pods[pod.name := pod]);
  }

  method RemoveAsAStep(c: ThrottleController, ghost w: World, ghost s: State, p: Name)
    requires c.Valid() && Mirrors(c, w, s) && MayBecomeSeen(PhaseOf(s, p), Gone)
    modifies c`pods
    ensures c.Valid() && Enabled(w, s, See(p, Gone)) && Mirrors(c, w, Apply(w, s, See(p, Gone)))
  {
    hide MirrorsPods, MirrorsSpecs, MirrorsQueues, ReservedResourceAmounts.On;
    ghost var s' := Apply(w, s, See(p, Gone));
    RemovedIsGone(c, c.throttles, c.pods, w, s, s', p);
    OnlyPodsMove(c, s, s');
    Store(c, c.pods - {p});
  }

  lemma OnlyPodsMove(c: ThrottleController, s: State, s': State)
    requires s'.thrs == s.thrs && s'.dirty == s.dirty && s'.delayed == s.delayed
    ensures MirrorsSpecs(c, c.throttles, s) ==> MirrorsSpecs(c, c.throttles, s')
    ensures MirrorsQueues(c.queue, c.delayed, s) ==> MirrorsQueues(c.queue, c.delayed, s')
  {
  }

  // ---------------------------------------------------------------- handlers

  lemma MatchingIsOwn(c: ThrottleController, s: State, pod: Pod)
    requires MirrorsSpecs(c, c.throttles, s)
    ensures c.Matching(pod) <= s.thrs.Keys
  {
  }

  lemma DeliveryEffect(w: World, s: State, n: Notice)
    requires n in s.inbox
    ensures var s' := Apply(w, s, Deliver(n)); SameView(s, s') && s'.dirty == s.dirty + n.thrs
    ensures forall t | t in s.thrs ::
      Apply(w, s, Deliver(n)).thrs[t].reserved
        == if n.deleted && t in n.thrs then s.thrs[t].reserved - {n.about} else s.thrs[t].reserved
  {
  }

  /** The handler of a pod's addition delivers its event. */
  method PodAddAsAStep(c: ThrottleController, ghost w: World, ghost s: State, pod: Pod)
    requires c.Valid() && Mirrors(c, w, s) && c.Counts(pod) && !c.LookupFails(pod)
    requires Notice(pod.name, c.Matching(pod), false) in s.inbox
    modifies c`queue
    ensures c.Valid() && Mirrors(c, w, Apply(w, s, Deliver(Notice(pod.name, c.Matching(pod), false))))
  {
    hide MirrorsPods, MirrorsSpecs, MirrorsQueues, Apply, PodAmounts.Valid, ReservedResourceAmounts.On,
      ThrottleController.Matching, ThrottleController.LookupFails;
    ghost var n := Notice(pod.name, c.Matching(pod), false);
    MatchingIsOwn(c, s, pod);
    DeliveryEffect(w, s, n);
    c.OnPodAdd(pod);
    SameViewMirrors(c, w, s, Apply(w, s, Deliver(n)), old(c.queue), n.thrs);
  }

  /** So does the handler of an update that leaves the labels alone: a pod scheduled, or finished. */
  method PodUpdateAsAStep(c: ThrottleController, ghost w: World, ghost s: State, oldPod: Pod, newPod: Pod)
    requires c.Valid() && Mirrors(c, w, s) && (c.Counts(oldPod) || c.Counts(newPod)) && !c.LookupFails(newPod)
    requires oldPod.name == newPod.name && oldPod.labels == newPod.labels
    requires Notice(newPod.name, c.Matching(newPod), false) in s.inbox
    modifies c`queue, c.cache.Footprint()
    ensures c.Valid() && Mirrors(c, w, Apply(w, s, Deliver(Notice(newPod.name, c.Matching(newPod), false))))
  {
    hide MirrorsPods, MirrorsSpecs, MirrorsQueues, Apply, PodAmounts.Valid, ReservedResourceAmounts.On,
      ThrottleController.Matching, ThrottleController.LookupFails;
    ghost var n := Notice(newPod.name, c.Matching(newPod), false);
    MatchingIsOwn(c, s, newPod);
    DeliveryEffect(w, s, n);
    SameLabelsSameThrottles(c, oldPod, newPod);
    assert n.thrs + n.thrs == n.thrs;
    c.OnPodUpdate(oldPod, newPod);
    SameViewMirrors(c, w, s, Apply(w, s, Deliver(n)), old(c.queue), n.thrs);
  }

  lemma SameLabelsSameThrottles(c: ThrottleController, pod: Pod, other: Pod)
    requires pod.name == other.name && pod.labels == other.labels
    ensures c.Matching(pod) == c.Matching(other) && c.LookupFails(pod) == c.LookupFails(other)
    ensures c.OnlyMatching(pod, other) == {} == c.OnlyMatching(other, pod)
  {
    assert forall t | t in c.throttles :: c.Affects(c.throttles[t], pod) == c.Affects(c.throttles[t], other);
  }

  /** And the handler of a pod's deletion, which also takes the pod's reservations away. */
  method PodDeleteAsAStep(c: ThrottleController, ghost w: World, ghost s: State, pod: Pod)
    requires c.Valid() && Mirrors(c, w, s) && c.Counts(pod) && !c.LookupFails(pod)
    requires Notice(pod.name, c.Matching(pod), true) in s.inbox
    modifies c`queue, c.cache.Footprint()
    ensures c.Valid() && Mirrors(c, w, Apply(w, s, Deliver(Notice(pod.name, c.Matching(pod), true))))
  {
    hide MirrorsPods, MirrorsSpecs, MirrorsQueues, Apply, PodAmounts.Valid, ReservedResourceAmounts.On,
      ThrottleController.Matching, ThrottleController.LookupFails;
    ghost var n := Notice(pod.name, c.Matching(pod), true);
    MatchingIsOwn(c, s, pod);
    DeliveryEffect(w, s, n);
    c.OnPodDelete(pod);
    SameViewMirrors(c, w, s, Apply(w, s, Deliver(n)), old(c.queue), n.thrs);
  }

  /** The handler of a throttle's event is one step, after which the throttle is due; another throttler's is none. */
  method ThrottleEventAsAStep(c: ThrottleController, ghost w: World, ghost s: State, t: Name)
    requires c.Valid() && Mirrors(c, w, s) && t in c.throttles
    modifies c`queue
    ensures c.Valid() && if t in s.thrs then
        Enabled(w, s, Enqueue(t)) && Mirrors(c, w, Apply(w, s, Enqueue(t))) && Due(Apply(w, s, Enqueue(t)), t)
      else Mirrors(c, w, s)
  {
    hide MirrorsPods, MirrorsQueues, PodAmounts.Valid, ReservedResourceAmounts.On;
    ghost var ts := if t in s.thrs then {t} else {};
    assert s.dirty + {} == s.dirty;
    c.OnThrottleEvent(c.throttles[t]);
    SameViewMirrors(c, w, s, if t in s.thrs then Apply(w, s, Enqueue(t)) else s, old(c.queue), ts);
  }

  // ---------------------------------------------------------------- relabels

  lemma RelabelIsVisible(c: ThrottleController, throttles: map<Name, Throttle>, pods: map<Name, Pod>,
                         w: World, s: State, s': State, newPod: Pod)
    requires MirrorsPods(c, throttles, pods, w, s) && newPod.name in pods && c.Counts(newPod)
    requires newPod == pods[newPod.name].(labels := newPod.labels)
    requires s'.phase == s.phase && s'.affects == s.affects[newPod.name := MatchingIn(c, throttles, newPod)]
    ensures MirrorsPods(c, throttles, pods[newPod.name := newPod], w, s')
  {
    var pods' := pods[newPod.name := newPod];
    forall n: Name | n in pods' && c.Counts(pods'[n])
      ensures pods'[n].name == n && MirrorsPod(c, throttles, w, s', pods'[n])
    {
      assert n in pods && c.Counts(pods[n]) && MirrorsPod(c, throttles, w, s, pods[n]);
    }
  }

  lemma SpecsStayVisible(c: ThrottleController, throttles: map<Name, Throttle>, s: State, s': State)
    requires MirrorsSpecs(c, throttles, s) && s'.thrs.Keys == s.thrs.Keys
    requires forall t | t in s.thrs :: s'.thrs[t] == s.thrs[t].(reserved := s'.thrs[t].reserved)
    ensures MirrorsSpecs(c, throttles, s')
  {
  }

  lemma PodIsShown(c: ThrottleController, w: World, s: State, n: Name)
    requires c.Valid() && Mirrors(c, w, s) && n in c.pods && c.Counts(c.pods[n]) && !InCycle(s, n)
    ensures AffectsOf(s, n) == c.Matching(c.pods[n]) && RequestOf(w, n) == c.pods[n].request
    ensures !PhaseOf(s, n).Pending? && forall p :: Enabled(w, s, Relabel(n, c.Matching(p)))
    ensures forall p :: c.Matching(p) == MatchingIn(c, c.throttles, p)
  {
    assert MirrorsPod(c, c.throttles, w, s, c.pods[n]);
  }

  /** The machine moves the reservations just as the update handler does. */
  lemma RelabelMoves(w: World, s: State, pod: Pod, ts: set<Name>)
    requires Enabled(w, s, Relabel(pod.name, ts)) && !PhaseOf(s, pod.name).Pending?
    requires RequestOf(w, pod.name) == pod.request
    ensures var s', before := Apply(w, s, Relabel(pod.name, ts)), AffectsOf(s, pod.name);
      && s'.phase == s.phase && s'.affects == s.affects[pod.name := ts]
      && s'.dirty == s.dirty + before + ts && s'.delayed == s.delayed && s'.thrs.Keys == s.thrs.Keys
      && forall t | t in s.thrs ::
        s'.thrs[t] == s.thrs[t].(reserved := MovedEntry(s.thrs[t].reserved, pod, t in before - ts, t in ts - before))
  {
  }

  /** The update of a pod's labels in the lister, and the handler's run, are one step of the machine. */
  method RelabelAsAStep(c: ThrottleController, ghost w: World, ghost s: State, newPod: Pod)
    requires c.Valid() && Mirrors(c, w, s) && !InCycle(s, newPod.name)
    requires newPod.name in c.pods && newPod == c.pods[newPod.name].(labels := newPod.labels) && c.Counts(newPod)
    requires !c.LookupFails(c.pods[newPod.name]) && !c.LookupFails(newPod)
    modifies c`pods, c`queue, c.cache.Footprint()
    ensures c.Valid() && Enabled(w, s, Relabel(newPod.name, c.Matching(newPod)))
    ensures Mirrors(c, w, Apply(w, s, Relabel(newPod.name, c.Matching(newPod))))
  {
    hide MirrorsPods, MirrorsSpecs, MirrorsQueues, Enabled, Apply, MovedEntry, ThrottleController.LookupFails,
      PodAmounts.Valid, ReservedResourceAmounts.On, ThrottleController.Matching, MatchingIn;
    var oldPod := c.pods[newPod.name];
    ghost var before, ts := c.Matching(oldPod), c.Matching(newPod);
    PodIsShown(c, w, s, newPod.name);
    ghost var s' := Apply(w, s, Relabel(newPod.name, ts));
    RelabelMoves(w, s, newPod, ts);
    assert s.dirty + before + ts == s.dirty + (before + ts);
    MatchingIsOwn(c, s, oldPod);
    MatchingIsOwn(c, s, newPod);
    RelabelIsVisible(c, c.throttles, c.pods, w, s, s', newPod);
    SpecsStayVisible(c, c.throttles, s, s');
    Store(c, c.pods[newPod.name := newPod]);
    assert c.OnlyMatching(oldPod, newPod) == before - ts && c.OnlyMatching(newPod, oldPod) == ts - before;
    c.OnPodUpdate(oldPod, newPod);
    assert forall t ::
      c.cache.On(t) == MovedEntry(old(c.cache.On(t)), newPod, t in before - ts, t in ts - before);
    KeysAreAdded(old(c.queue), c.delayed, s, s', before + ts);
  }
}
