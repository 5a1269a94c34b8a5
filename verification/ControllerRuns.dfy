/**
 The controller's calls are runs of the step machine: what one processed work item does to the lister's throttle,
 the queue and the reservations, the machine does in some steps, and the handled update of a pod is one step.
 */
module ControllerRuns {
  import opened Wrappers
  import opened Names
  import opened Overrides
  import opened Throttles
  import opened PodModel
  import opened Selectors
  import opened ReservedAmounts
  import opened Usage
  import opened Scans
  import opened ThrottleControllers
  import opened Protocol
  import opened SequentialRuns

  ghost function MatchingIn(c: ThrottleController, throttles: map<Name, Throttle>, p: Pod): set<Name> {
    set t | t in throttles && c.Affects(throttles[t], p) == Ok(true)
  }

  ghost function CountedIn(c: ThrottleController, pods: map<Name, Pod>, thr: Throttle): set<Pod> {
    set p | p in pods.Values && c.Counted(thr, p) == Ok(true)
  }

  /** What the pod lister shows of a pod that counts. */
  ghost predicate MirrorsPod(c: ThrottleController, throttles: map<Name, Throttle>, w: World, s: State, p: Pod) {
    && PhaseOf(s, p.name) == (if IsNotFinished(p) then Running else Phase.Finished)
    && AffectsOf(s, p.name) == MatchingIn(c, throttles, p) && RequestOf(w, p.name) == p.request
  }

  ghost predicate MirrorsPods(
    c: ThrottleController, throttles: map<Name, Throttle>, pods: map<Name, Pod>, w: World, s: State)
  {
    forall n: Name ::
      if n in pods && c.Counts(pods[n]) then pods[n].name == n && MirrorsPod(c, throttles, w, s, pods[n])
      else !PhaseOf(s, n).Running? && !PhaseOf(s, n).Finished?
  }

  /** The throttles of this throttler. */
  function Own(c: ThrottleController, throttles: map<Name, Throttle>): set<Name> {
    set t | t in throttles && throttles[t].spec.throttlerName == c.throttlerName
  }

  predicate MirrorsSpecs(c: ThrottleController, throttles: map<Name, Throttle>, s: State) {
    s.thrs.Keys == Own(c, throttles) && forall t | t in s.thrs ::
      throttles[t].name == t && s.thrs[t].spec == throttles[t].spec && s.thrs[t].status == throttles[t].status
  }

  /** Keys of throttles that are gone, or another throttler's, may be in the queue too. */
  predicate MirrorsQueues(queue: set<Name>, delayed: set<Name>, s: State) {
    s.dirty == queue * s.thrs.Keys && s.delayed == delayed * s.thrs.Keys
  }

  /** The machine's state is what the controller sees and holds, as far as the throttles of this throttler go. */
  ghost predicate Mirrors(c: ThrottleController, w: World, s: State)
    requires c.Valid()
    reads c, c.cache, c.cache.cache.Values, c.cache.Lists()
  {
    && MirrorsSpecs(c, c.throttles, s) && MirrorsPods(c, c.throttles, c.pods, w, s)
    && (forall t | t in s.thrs :: s.thrs[t].reserved == c.cache.On(t))
    && MirrorsQueues(c.queue, c.delayed, s)
  }

  /** The pods the controller would count for a throttle are those the machine would list. */
  lemma CountedAreListed(
    c: ThrottleController, throttles: map<Name, Throttle>, pods: map<Name, Pod>, w: World, s: State, t: Name)
    requires MirrorsSpecs(c, throttles, s) && MirrorsPods(c, throttles, pods, w, s) && t in s.thrs
    requires forall n | n in pods :: pods[n].name == n
    ensures var counted := CountedIn(c, pods, throttles[t]);
      && NamesAreKeys(counted) && RunningNames(counted) == Listed(s, t)
      && (forall p | p in counted :: RequestOf(w, p.name) == p.request)
      && (forall p | p in counted && !IsNotFinished(p) :: p.name in ListedFinished(s, t))
  {
    var counted := CountedIn(c, pods, throttles[t]);
    forall p | p in pods.Values && c.Counts(p)
      ensures p in counted <==> t in MatchingIn(c, throttles, p)
      ensures MirrorsPod(c, throttles, w, s, p)
    {
      assert p.name in pods && pods[p.name] == p;
    }
    assert forall p | p in counted :: p in pods.Values && c.Counts(p);
    forall n ensures n in RunningNames(counted) <==> n in Listed(s, t) {
      if n in Listed(s, t) {
        assert PhaseOf(s, n).Running?;
        assert n in pods && c.Counts(pods[n]) && MirrorsPod(c, throttles, w, s, pods[n]);
        assert pods[n] in counted;
      }
    }
    forall p | p in counted && !IsNotFinished(p) ensures p.name in ListedFinished(s, t) {
      assert PhaseOf(s, p.name).Finished?;
    }
  }

  /** The status that the controller computes is the one that the machine writes. */
  lemma StatusesAgree(
    c: ThrottleController, throttles: map<Name, Throttle>, pods: map<Name, Pod>, w: World, s: State, t: Name, now: Time)
    requires MirrorsSpecs(c, throttles, s) && MirrorsPods(c, throttles, pods, w, s) && t in s.thrs
    requires forall n | n in pods :: pods[n].name == n
    ensures var running := set p | p in CountedIn(c, pods, throttles[t]) && IsNotFinished(p);
      Rewritten(w, s, t, now).status
        == NextStatus(throttles[t].spec, throttles[t].status, UsageOf(running), now)
  {
    hide NextStatus, UsageOf, UsedBy, Listed, MirrorsPods;
    CountedAreListed(c, throttles, pods, w, s, t);
    var counted := CountedIn(c, pods, throttles[t]);
    var running := set p | p in counted && IsNotFinished(p);
    assert (set p | p in running :: p.name) == RunningNames(counted);
    UsagesAgree(w, running);
  }

  /** What a reconcile may drop is what the machine's snapshot may choose. */
  lemma DropsAgree(
    c: ThrottleController, throttles: map<Name, Throttle>, pods: map<Name, Pod>, w: World, s: State, t: Name,
    dropped: set<Name>)
    requires MirrorsSpecs(c, throttles, s) && MirrorsPods(c, throttles, pods, w, s) && t in s.thrs
    requires forall n | n in pods :: pods[n].name == n
    requires MayBeDropped(CountedIn(c, pods, throttles[t]), dropped)
    ensures MayDrop(s, t, dropped)
  {
    hide MayBeDropped;
    CountedAreListed(c, throttles, pods, w, s, t);
    DroppedExactly(CountedIn(c, pods, throttles[t]), dropped);
  }

  /** Writing a status does not change which throttles a pod matches. */
  lemma StillMirrorsPods(
    c: ThrottleController, throttles: map<Name, Throttle>, t: Name, status: Status, pods: map<Name, Pod>, w: World,
    s: State, s': State)
    requires t in throttles && MirrorsPods(c, throttles, pods, w, s)
    requires s'.phase == s.phase && s'.affects == s.affects
    ensures MirrorsPods(c, throttles[t := throttles[t].(status := status)], pods, w, s')
  {
    var throttles' := throttles[t := throttles[t].(status := status)];
    forall p ensures MatchingIn(c, throttles', p) == MatchingIn(c, throttles, p) {
      assert forall u | u in throttles :: c.Affects(throttles'[u], p) == c.Affects(throttles[u], p);
    }
    assert forall n: Name | n in pods && c.Counts(pods[n]) && MirrorsPod(c, throttles, w, s, pods[n]) ::
      MirrorsPod(c, throttles', w, s', pods[n]);
  }

  ghost predicate Visible(
    c: ThrottleController, throttles: map<Name, Throttle>, pods: map<Name, Pod>, w: World, s: State)
  {
    && MirrorsSpecs(c, throttles, s) && MirrorsPods(c, throttles, pods, w, s)
    && (forall n | n in pods :: pods[n].name == n) && (forall t | t in s.thrs :: s.thrs[t].stage.Idle?)
  }

  /** The status a reconcile computes when it can list the pods. */
  ghost function Computed(c: ThrottleController, thr: Throttle, pods: map<Name, Pod>, now: Time): Status {
    NextStatus(thr.spec, thr.status, UsageOf(set p | p in CountedIn(c, pods, thr) && IsNotFinished(p)), now)
  }

  /** Where one reconcile of the throttle ends, whether it failed or not. */
  ghost predicate EndsIn(s: State, s': State, t: Name, failed: bool, dropped: set<Name>) {
    && s'.dirty == s.dirty - {t} && s'.delayed == s.delayed + (if failed then {t} else {})
    && s'.thrs.Keys == s.thrs.Keys && forall u | u in s.thrs ::
      s'.thrs[u].reserved == if u == t && !failed then s.thrs[u].reserved - dropped else s.thrs[u].reserved
  }

  lemma LookupFailureLeads(
    c: ThrottleController, throttles: map<Name, Throttle>, pods: map<Name, Pod>, w: World, s: State, t: Name)
    returns (steps: seq<Step>, s': State)
    requires Visible(c, throttles, pods, w, s) && t in s.thrs && t in s.dirty && Pruned(s) == s
    ensures Leads(w, s, steps, s') && Visible(c, throttles, pods, w, s') && EndsIn(s, s', t, true, {})
    ensures IsWork(steps, t)
  {
    hide Leads, Pruned, MatchingIn;
    FailedLookupLeads(w, s, t);
    steps, s' := [Get(t)] + [FailEarly(t)], LookupFails(s, t);
  }

  lemma KnownToBoth(c: ThrottleController, throttles: map<Name, Throttle>, s: State, t: Name)
    requires MirrorsSpecs(c, throttles, s) && t in s.thrs
    ensures t in throttles && throttles[t].name == t && s.thrs[t].status == throttles[t].status
    ensures s.thrs[t].spec == throttles[t].spec
  {
  }

  lemma StatusIsVisible(c: ThrottleController, throttles: map<Name, Throttle>, s: State, s': State, t: Name, th: Thr)
    requires MirrorsSpecs(c, throttles, s) && t in s.thrs && s'.thrs == s.thrs[t := th] && th.spec == s.thrs[t].spec
    ensures MirrorsSpecs(c, throttles[t := throttles[t].(status := th.status)], s')
  {
  }

  lemma WriteFailureLeads(c: ThrottleController, throttles: map<Name, Throttle>, pods: map<Name, Pod>,
                          w: World, s: State, t: Name, now: Time, status: Status)
    returns (steps: seq<Step>, s': State)
    requires Visible(c, throttles, pods, w, s) && t in s.thrs && t in s.dirty && Pruned(s) == s
    requires now != ZERO_TIME && now <= s.clock
    requires status == Computed(c, throttles[t], pods, now) && status != throttles[t].status
    ensures Leads(w, s, steps, s') && EndsIn(s, s', t, true, {}) && IsWork(steps, t)
    ensures Visible(c, throttles[t := throttles[t].(status := status)], pods, w, s')
  {
    hide Leads, Pruned, MirrorsPods, MirrorsSpecs, NextStatus, UsageOf, UsedBy, CountedIn, Listed;
    KnownToBoth(c, throttles, s, t);
    StatusesAgree(c, throttles, pods, w, s, t, now);
    FailedWriteLeads(w, s, t, now);
    steps, s' := [Get(t)] + [Snapshot(t, Listed(s, t))] + [Write(t, now, false)], WriteFails(w, s, t, now);
    StatusIsVisible(c, throttles, s, s', t, s'.thrs[t]);
    StillMirrorsPods(c, throttles, t, status, pods, w, s, s');
  }

  lemma SuccessLeads(c: ThrottleController, throttles: map<Name, Throttle>, pods: map<Name, Pod>,
                     w: World, s: State, t: Name, now: Time, status: Status, dropped: set<Name>,
                     d: Option<int>)
    returns (steps: seq<Step>, s': State)
    requires Visible(c, throttles, pods, w, s) && t in s.thrs && t in s.dirty && Pruned(s) == s
    requires now != ZERO_TIME && now <= s.clock
    requires status == Computed(c, throttles[t], pods, now) && MayBeDropped(CountedIn(c, pods, throttles[t]), dropped)
    requires IsNextWake(Ahead(throttles[t].spec.overrides, now), now, d)
    ensures Leads(w, s, steps, s') && IsWork(steps, t) && EndsIn(s, s', t, false, dropped)
    ensures s'.timers == s.timers + Asked(t, s.clock, d)
    ensures Visible(c, throttles[t := throttles[t].(status := status)], pods, w, s')
  {
    hide Leads, Pruned, MirrorsPods, MirrorsSpecs, NextStatus, UsageOf, UsedBy, CountedIn, MayBeDropped,
      MayDrop, Listed, IsNextWake;
    KnownToBoth(c, throttles, s, t);
    StatusesAgree(c, throttles, pods, w, s, t, now);
    DropsAgree(c, throttles, pods, w, s, t, dropped);
    steps := UndisturbedReconcile(w, s, t, dropped, now, d);
    s' := Reconcile(w, s, t, dropped, now, d);
    StatusIsVisible(c, throttles, s, s', t, s'.thrs[t]);
    StillMirrorsPods(c, throttles, t, status, pods, w, s, s');
  }

  /** What the controller's own functions say, on the listers as they are. */
  lemma ControllerSees(c: ThrottleController, now: Time)
    ensures forall thr :: c.CountedPods(thr) == CountedIn(c, c.pods, thr)
    ensures forall thr :: c.StatusAfter(thr, now) == Computed(c, thr, c.pods, now)
  {
    hide NextStatus, UsageOf;
    forall thr ensures c.RunningPods(thr) == set p | p in CountedIn(c, c.pods, thr) && IsNotFinished(p) {
    }
  }

  lemma OwnKeyIsTaken(
    queue: set<Name>, delayed: set<Name>, s: State, s': State, t: Name, failed: bool, dropped: set<Name>)
    requires MirrorsQueues(queue, delayed, s) && t in s.thrs && EndsIn(s, s', t, failed, dropped)
    ensures MirrorsQueues(queue - {t}, delayed + if failed then {t} else {}, s') && s'.thrs.Keys == s.thrs.Keys
    ensures forall u | u in s'.thrs ::
      s'.thrs[u].reserved == if u == t && !failed then s.thrs[u].reserved - dropped else s.thrs[u].reserved
  {
  }

  lemma OwnKeyIsDirty(queue: set<Name>, delayed: set<Name>, s: State, t: Name)
    requires MirrorsQueues(queue, delayed, s) && t in s.thrs && t in queue
    ensures t in s.dirty
  {
  }

  lemma OtherKeyIsTaken(queue: set<Name>, delayed: set<Name>, s: State, t: Name, failed: bool)
    requires MirrorsQueues(queue, delayed, s) && t !in s.thrs
    ensures MirrorsQueues(queue - {t}, delayed + if failed then {t} else {}, s)
  {
  }

  lemma KeysAreAdded(queue: set<Name>, delayed: set<Name>, s: State, s': State, ts: set<Name>)
    requires MirrorsQueues(queue, delayed, s) && ts <= s.thrs.Keys && s'.thrs.Keys == s.thrs.Keys
    requires s'.dirty == s.dirty + ts && s'.delayed == s.delayed
    ensures MirrorsQueues(queue + ts, delayed, s')
  {
  }

  /** The reconcile of another throttler's throttle changes nothing that the machine mirrors. */
  lemma OthersStatusIsInvisible(c: ThrottleController, throttles: map<Name, Throttle>, pods: map<Name, Pod>,
                                w: World, s: State, t: Name, status: Status)
    requires MirrorsSpecs(c, throttles, s) && MirrorsPods(c, throttles, pods, w, s) && t in throttles && t !in s.thrs
    ensures var throttles' := throttles[t := throttles[t].(status := status)];
      MirrorsSpecs(c, throttles', s) && MirrorsPods(c, throttles', pods, w, s)
  {
    StillMirrorsPods(c, throttles, t, status, pods, w, s, s);
  }

  /**
   Every work item the controller processes is a run of the machine, whether it succeeds or fails; and a run of no
   steps when its throttle is gone or another throttler's. On success both ask for the same wake-up.
   */
  method ProcessAsARun(c: ThrottleController, ghost w: World, ghost s: State, now: Time, updateOk: bool)
    returns (key: Name, failed: bool, ghost steps: seq<Step>, ghost s': State, ghost d: Option<int>)
    requires c.Valid() && Mirrors(c, w, s) && Pruned(s) == s && now != ZERO_TIME && now <= s.clock
    requires c.queue != {} && forall t | t in s.thrs :: s.thrs[t].stage.Idle?
    modifies c`queue, c`delayed, c`throttles, c`wakeUps, c.cache.Footprint()
    ensures c.Valid() && Leads(w, s, steps, s') && IsWork(steps, key) && Mirrors(c, w, s')
    ensures forall t | t in s'.thrs :: s'.thrs[t].stage.Idle?
    ensures key in s.thrs && !failed ==>
      && s'.timers == s.timers + Asked(key, s.clock, d)
      && c.wakeUps == old(c.wakeUps) + if d.Some? then {(key, d.value)} else {}
  {
    hide Leads, Pruned, MirrorsPods, MirrorsSpecs, NextStatus, UsageOf, MayBeDropped, Computed, CountedIn, IsNextWake,
      ThrottleController.CountedPods, ThrottleController.StatusAfter, ThrottleController.CountingFails,
      PodAmounts.Valid, ReservedResourceAmounts.On, Asked, MirrorsQueues, EndsIn, IsWork;
    ghost var throttles, pods := c.throttles, c.pods;
    ControllerSees(c, now);
    ghost var dropped;
    key, failed, dropped := c.ProcessNextWorkItem(now, updateOk);
    steps, s', d := [], s, None;
    NoStepsLead(w, s);
    if key in throttles {
      ghost var thr, fails := throttles[key], old(c.CountingFails(c.throttles[key]));
      assert c.throttles == if fails then throttles else throttles[key := thr.(status := c.throttles[key].status)];
      assert forall t ::
        c.cache.On(t) == if t == key && !failed then old(c.cache.On(t)) - dropped else old(c.cache.On(t));
      if key !in s.thrs {
        OthersStatusIsInvisible(c, throttles, pods, w, s, key, c.throttles[key].status);
        OtherKeyIsTaken(old(c.queue), old(c.delayed), s, key, failed);
        assert thr.(status := thr.status) == thr;
      } else if fails {
        OwnKeyIsDirty(old(c.queue), old(c.delayed), s, key);
        steps, s' := LookupFailureLeads(c, throttles, pods, w, s, key);
        OwnKeyIsTaken(old(c.queue), old(c.delayed), s, s', key, true, {});
      } else if failed {
        OwnKeyIsDirty(old(c.queue), old(c.delayed), s, key);
        steps, s' := WriteFailureLeads(c, throttles, pods, w, s, key, now, c.throttles[key].status);
        OwnKeyIsTaken(old(c.queue), old(c.delayed), s, s', key, true, {});
      } else {
        OwnKeyIsDirty(old(c.queue), old(c.delayed), s, key);
        d :| IsNextWake(Ahead(thr.spec.overrides, now), now, d)
          && c.wakeUps == old(c.wakeUps) + if d.Some? then {(key, d.value)} else {};
        steps, s' := SuccessLeads(c, throttles, pods, w, s, key, now, c.throttles[key].status, dropped, d);
        OwnKeyIsTaken(old(c.queue), old(c.delayed), s, s', key, false, dropped);
      }
    } else {
      OnlyListed(c, throttles, s);
      OtherKeyIsTaken(old(c.queue), old(c.delayed), s, key, failed);
    }
  }

  lemma NoStepsLead(w: World, s: State)
    ensures Leads(w, s, [], s)
    ensures forall t :: IsWork([], t)
  {
  }

  lemma OnlyListed(c: ThrottleController, throttles: map<Name, Throttle>, s: State)
    requires MirrorsSpecs(c, throttles, s)
    ensures s.thrs.Keys <= throttles.Keys
  {
  }
}
