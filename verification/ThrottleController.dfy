/** The namespaced controller (pkg/controllers/throttle_controller.go:84-532). */
module ThrottleControllers {
  import opened Wrappers
  import opened Names
  import opened ResourceAmounts
  import opened Overrides
  import opened Throttles
  import opened PodModel
  import opened Selectors
  import opened ReservedAmounts
  import opened Usage
  import opened Scans

  /** The maps of the update handler, key by key: who is affected at all, who was left, who was joined. */
  method SymmetricDifference(old_: set<Name>, new_: set<Name>)
    returns (all: set<Name>, left: set<Name>, joined: set<Name>)
    ensures all == old_ + new_ && left == old_ - new_ && joined == new_ - old_
  {
    all, left, joined := old_ + new_, old_, new_;
    var common: set<Name> := {};
    var todo := all;
    while todo != {}
      invariant todo <= all && common == old_ * new_ - todo
      decreases todo
    {
      var nn :| nn in todo;
      if nn in joined && nn in left {
        common := common + {nn};
      }
      todo := todo - {nn};
    }
    todo := common;
    while todo != {}
      invariant todo <= common && left == old_ - (common - todo)
      decreases todo
    {
      var nn :| nn in todo;
      left := left - {nn};
      todo := todo - {nn};
    }
    todo := common;
    while todo != {}
      invariant todo <= common && joined == new_ - (common - todo)
      decreases todo
    {
      var nn :| nn in todo;
      joined := joined - {nn};
      todo := todo - {nn};
    }
  }

  class ThrottleController {
    const throttlerName: string
    const targetSchedulerName: string
    const cache: ReservedResourceAmounts

    /** The listers, the work queue (due now, and to be retried after a delay), and the timed wake-ups. */
    var pods: map<Name, Pod>
    var throttles: map<Name, Throttle>
    var queue: set<Name>
    var delayed: set<Name>
    var wakeUps: set<(Name, int)>

    constructor (throttlerName: string, targetSchedulerName: string, cache: ReservedResourceAmounts)
      ensures this.throttlerName == throttlerName && this.targetSchedulerName == targetSchedulerName
      ensures this.cache == cache
      ensures pods == map[] && throttles == map[] && queue == {} && delayed == {} && wakeUps == {}
    {
      this.throttlerName, this.targetSchedulerName, this.cache := throttlerName, targetSchedulerName, cache;
      pods, throttles, queue, delayed, wakeUps := map[], map[], {}, {}, {};
    }

    ghost predicate ListersValid()
      reads this`pods, this`throttles
    {
      && (forall k | k in pods :: pods[k].name == k)
      && (forall k | k in throttles :: throttles[k].name == k)
    }

    ghost predicate Valid()
      reads this`pods, this`throttles, cache, cache.cache.Values
    {
      ListersValid() && cache.Valid()
    }

    predicate Counts(pod: Pod) {
      ShouldCountIn(targetSchedulerName, pod)
    }

    /** Whether a listed pod is summed for a throttle of its namespace. */
    function Counted(thr: Throttle, p: Pod): Match {
      if p.name.namespace != thr.name.namespace || !Counts(p) then Ok(false) else Matches(thr.selector, p.labels)
    }

    /** Whether a throttle matches a pod of its namespace, if it is this throttler's. */
    function Affects(thr: Throttle, pod: Pod): Match {
      if thr.name.namespace != pod.name.namespace || thr.spec.throttlerName != throttlerName then Ok(false)
      else Matches(thr.selector, pod.labels)
    }

    ghost function CountedPods(thr: Throttle): set<Pod>
      reads this`pods
    {
      set p | p in pods.Values && Counted(thr, p) == Ok(true)
    }

    ghost predicate CountingFails(thr: Throttle)
      reads this`pods
    {
      exists p :: p in pods.Values && Counted(thr, p).Err?
    }

    /** The throttles that match a pod. */
    ghost function Matching(pod: Pod): set<Name>
      reads this`throttles
    {
      set t | t in throttles && Affects(throttles[t], pod) == Ok(true)
    }

    ghost predicate LookupFails(pod: Pod)
      reads this`throttles
    {
      exists t :: t in throttles && Affects(throttles[t], pod).Err?
    }

    method ListCounted(thr: Throttle) returns (r: Result<seq<Pod>, string>)
      requires ListersValid()
      ensures r.Err? <==> CountingFails(thr)
      ensures r.Ok? ==> NoDuplicates(r.value) && Elements(r.value) == CountedPods(thr)
    {
      var affected: seq<Pod> := [];
      var todo := pods.Keys;
      while todo != {}
        invariant todo <= pods.Keys && NoDuplicates(affected)
        invariant forall p :: p in affected <==>
          p.name in pods && p.name !in todo && pods[p.name] == p && Counted(thr, p) == Ok(true)
        invariant forall k | k in pods && k !in todo :: Counted(thr, pods[k]).Ok?
        decreases todo
      {
        var k :| k in todo;
        assert pods[k] !in affected;
        todo := todo - {k};
        if k.namespace != thr.name.namespace || !Counts(pods[k]) {
          continue;
        }
        var match_ := Matches(thr.selector, pods[k].labels);
        assert match_ == Counted(thr, pods[k]);
        if match_.Err? {
          return Err(match_.error);
        }
        if match_.value {
          affected := affected + [pods[k]];
        }
      }
      return Ok(affected);
    }

    /** The two lists are the scan of the pods that count, each listed once, in some order. */
    method AffectedPods(thr: Throttle)
      returns (r: Result<(seq<Pod>, seq<Pod>), string>, ghost affected: seq<Pod>, ghost caps: seq<nat>)
      requires ListersValid()
      ensures r.Err? <==> CountingFails(thr)
      ensures r.Ok? ==>
        && Shows(affected, caps, CountedPods(thr))
        && r.value == (Scanned(affected, caps).running, Scanned(affected, caps).terminated)
    {
      hide Scanned;
      var listed := ListCounted(thr);
      affected, caps := [], [0];
      if listed.Err? {
        return Err(listed.error), affected, caps;
      }
      affected := listed.value;
      var running, terminated;
      running, terminated, caps := Split(listed.value);
      return Ok((running.arr[..running.len], terminated.arr[..terminated.len])), affected, caps;
    }

    method AffectedThrottles(pod: Pod) returns (r: Result<set<Name>, string>)
      ensures r.Ok? ==> r.value == Matching(pod) && r.value <= throttles.Keys
      ensures r.Ok? ==> forall t | t in r.value :: throttles[t].spec.throttlerName == throttlerName
      ensures r.Err? <==> LookupFails(pod)
    {
      var affected: set<Name> := {};
      var todo := throttles.Keys;
      while todo != {}
        invariant todo <= throttles.Keys
        invariant affected == Matching(pod) - todo
        invariant forall t | t in throttles && t !in todo :: Affects(throttles[t], pod).Ok?
        decreases todo
      {
        var t :| t in todo;
        todo := todo - {t};
        if throttles[t].name.namespace != pod.name.namespace || throttles[t].spec.throttlerName != throttlerName {
          continue;
        }
        var match_ := Matches(throttles[t].selector, pod.labels);
        assert match_ == Affects(throttles[t], pod);
        if match_.Err? {
          return Err(match_.error);
        }
        if match_.value {
          affected := affected + {t};
        }
      }
      return Ok(affected);
    }

    ghost function VerdictOf(t: Name, pod: Pod, onEqual: bool): Verdict
      requires Valid() && t in throttles
      reads this`pods, this`throttles, cache, cache.cache.Values, cache.Lists()
    {
      CheckThrottle(throttles[t].spec, throttles[t].status, pod.request, Total(cache.On(t)), onEqual)
    }

    method CheckOne(t: Name, pod: Pod, onEqual: bool) returns (v: Verdict)
      requires Valid() && t in throttles
      ensures v == VerdictOf(t, pod, onEqual)
    {
      var reserved, _ := cache.ReservedResourceAmount(t);
      v := CheckThrottle(throttles[t].spec, throttles[t].status, pod.request, reserved, onEqual);
    }

    ghost function Verdicts(pod: Pod, onEqual: bool): map<Name, Verdict>
      requires Valid()
      reads this`pods, this`throttles, cache, cache.cache.Values, cache.Lists()
    {
      map t | t in Matching(pod) :: VerdictOf(t, pod, onEqual)
    }

    /** Every affected throttle lands in the list of its verdict, and in no other. */
    method CheckThrottled(pod: Pod, onEqual: bool) returns (r: Result<Checked, string>)
      requires Valid()
      ensures r.Err? <==> LookupFails(pod)
      ensures r.Ok? ==> r.value.Sorts(old(Verdicts(pod, onEqual)))
    {
      hide CheckThrottle, Total, LookupFails, Matching, Checked.Sorts, Checked.Record, Affects;
      var affected :- AffectedThrottles(pod);
      ghost var verdicts := old(Verdicts(pod, onEqual));
      assert verdicts.Keys == affected;
      var c := Checked({}, {}, {}, {});
      assert c.Sorts(verdicts - affected) by { NothingSorted(verdicts); }
      var todo := affected;
      while todo != {}
        invariant todo <= affected && c.Sorts(verdicts - todo)
        decreases todo
      {
        var t :| t in todo;
        var v := CheckOne(t, pod, onEqual);
        assert cache.On(t) == old(cache.On(t));
        assert v == VerdictOf(t, pod, onEqual) == verdicts[t];
        RecordSortsOneMore(c, verdicts, todo, t);
        c := c.Record(t, v);
        todo := todo - {t};
      }
      assert verdicts - {} == verdicts;
      return Ok(c);
    }

    method Reserve(pod: Pod) returns (r: Result<(), string>)
      requires Valid()
      modifies cache.Footprint()
      ensures Valid() && cache.KeepsInnerMaps() && fresh(cache.Footprint() - old(cache.Footprint()))
      ensures r.Err? <==> LookupFails(pod)
      ensures forall t :: cache.On(t) == MovedEntry(old(cache.On(t)), pod, false, r.Ok? && t in Matching(pod))
    {
      hide Matching, LookupFails;
      var affected :- AffectedThrottles(pod);
      cache.AddToAll(pod, affected);
      return Ok(());
    }

    method UnReserve(pod: Pod) returns (r: Result<(), string>)
      requires Valid()
      modifies cache.Footprint()
      ensures Valid() && cache.KeepsInnerMaps() && fresh(cache.Footprint() - old(cache.Footprint()))
      ensures r.Err? <==> LookupFails(pod)
      ensures forall t :: cache.On(t) == MovedEntry(old(cache.On(t)), pod, r.Ok? && t in Matching(pod), false)
    {
      hide Matching, LookupFails;
      var affected :- AffectedThrottles(pod);
      cache.RemoveFromAll(pod.name, affected);
      return Ok(());
    }

    // ---------------------------------------------------------------- pod events

    method Enqueue(throttles: set<Name>)
      requires Valid()
      modifies this`queue
      ensures Valid() && queue == old(queue) + throttles
      ensures forall t :: cache.On(t) == old(cache.On(t))
    {
      queue := queue + throttles;
    }

    /** A pod event is ignored while the pod counts for nobody. */
    method OnPodAdd(pod: Pod)
      requires Valid()
      modifies this`queue
      ensures Valid() && queue == old(queue) + if Counts(pod) && !LookupFails(pod) then Matching(pod) else {}
      ensures forall t :: cache.On(t) == old(cache.On(t))
    {
      hide Matching, LookupFails;
      if Counts(pod) {
        var affected := AffectedThrottles(pod);
        if affected.Ok? {
          Enqueue(affected.value);
        }
      }
    }

    ghost predicate UpdateIsHandled(oldPod: Pod, newPod: Pod)
      reads this`throttles
    {
      (Counts(oldPod) || Counts(newPod)) && !LookupFails(oldPod) && !LookupFails(newPod)
    }

    /** The throttles that match one version of a pod and not the other, if the update is handled at all. */
    ghost function OnlyMatching(pod: Pod, other: Pod): set<Name>
      reads this`throttles
    {
      if UpdateIsHandled(pod, other) then Matching(pod) - Matching(other) else {}
    }

    /** The throttles an update is about; none when it is ignored. */
    method AssignmentChange(oldPod: Pod, newPod: Pod) returns (all: set<Name>, left: set<Name>, joined: set<Name>)
      ensures left == OnlyMatching(oldPod, newPod) && joined == OnlyMatching(newPod, oldPod)
      ensures all == if UpdateIsHandled(oldPod, newPod) then Matching(oldPod) + Matching(newPod) else {}
    {
      hide Matching, LookupFails;
      if !Counts(oldPod) && !Counts(newPod) {
        return {}, {}, {};
      }
      var forOld := AffectedThrottles(oldPod);
      if forOld.Err? {
        return {}, {}, {};
      }
      var forNew := AffectedThrottles(newPod);
      if forNew.Err? {
        return {}, {}, {};
      }
      all, left, joined := SymmetricDifference(forOld.value, forNew.value);
    }

    method MoveReservations(pod: Pod, left: set<Name>, joined: set<Name>)
      requires cache.Valid()
      modifies cache.Footprint()
      ensures cache.Valid() && cache.KeepsInnerMaps() && fresh(cache.Footprint() - old(cache.Footprint()))
      ensures forall t :: cache.On(t) == MovedEntry(old(cache.On(t)), pod, t in left, t in joined)
    {
      if left != {} || joined != {} {
        cache.MoveThrottleAssignmentForPods(pod, left, joined);
      }
    }

    /**
     After the update of a pod that counts or counted, it is reserved no more on exactly the throttles it
     left, reserved with its new amount on exactly those it joined, as before on all others, and exactly the
     throttles it matched before or matches now are enqueued. No other pod's reservation changes.
     */
    method OnPodUpdate(oldPod: Pod, newPod: Pod)
      requires Valid()
      modifies this`queue, cache.Footprint()
      ensures Valid() && cache.KeepsInnerMaps() && fresh(cache.Footprint() - old(cache.Footprint()))
      ensures forall t ::
        cache.On(t) == MovedEntry(old(cache.On(t)), newPod,
                                  t in OnlyMatching(oldPod, newPod), t in OnlyMatching(newPod, oldPod))
      ensures queue == old(queue) + if UpdateIsHandled(oldPod, newPod) then Matching(oldPod) + Matching(newPod) else {}
    {
      hide Matching, LookupFails, UpdateIsHandled, OnlyMatching, MovedEntry;
      var all, left, joined := AssignmentChange(oldPod, newPod);
      assert forall t :: cache.On(t) == old(cache.On(t));
      label compared:
      MoveReservations(newPod, left, joined);
      Enqueue(all);
    }

    /** A deleted pod loses its reservations on every throttle it matched, and they are enqueued. */
    method OnPodDelete(pod: Pod)
      requires Valid()
      modifies this`queue, cache.Footprint()
      ensures Valid() && cache.KeepsInnerMaps() && fresh(cache.Footprint() - old(cache.Footprint()))
      ensures forall t :: cache.On(t) == MovedEntry(old(cache.On(t)), pod,
        Counts(pod) && !LookupFails(pod) && t in Matching(pod), false)
      ensures queue == old(queue) + if Counts(pod) && !LookupFails(pod) then Matching(pod) else {}
    {
      hide Matching, LookupFails;
      if Counts(pod) {
        var _ := UnReserve(pod);
      }
      OnPodAdd(pod);
    }

    // ---------------------------------------------------------------- reconcile

    ghost function RunningPods(thr: Throttle): set<Pod>
      reads this`pods
    {
      set p | p in CountedPods(thr) && IsNotFinished(p)
    }

    ghost function StatusAfter(thr: Throttle, now: Time): Status
      reads this`pods
    {
      NextStatus(thr.spec, thr.status, UsageOf(RunningPods(thr)), now)
    }

    /** What a reconcile works out before it writes anything. */
    method Observe(thr: Throttle, now: Time) returns (r: Result<(Status, seq<Pod>), string>)
      requires ListersValid()
      ensures r.Err? <==> CountingFails(thr)
      ensures r.Ok? ==> r.value.0 == StatusAfter(thr, now) && MayBeDropped(CountedPods(thr), NamesOf(r.value.1))
    {
      hide NextStatus, UsageOf, CountingFails, Counted, Scanned;
      var lookup, affected, caps := AffectedPods(thr);
      if lookup.Err? {
        return Err(lookup.error);
      }
      var (running, terminated) := lookup.value;
      RunningIsUnfinished(affected, caps);
      UnfinishedHasNoDuplicates(affected);
      UnfinishedIsPart(affected);
      var used := SumUsage(running);
      assert Elements(running) == RunningPods(thr);
      var status := ReconcileStatus(thr.spec, thr.status, used, now);
      assert NamesOf(running + terminated) == DroppedBy(affected, caps);
      return Ok((status, running + terminated));
    }

    /** The lister's own object is changed before the write is sent, and stays changed if that fails. */
    method WriteStatus(key: Name, status: Status, updateOk: bool) returns (failed: bool)
      requires ListersValid() && key in throttles
      modifies this`throttles
      ensures ListersValid()
      ensures throttles == old(throttles)[key := old(throttles[key]).(status := status)]
      ensures failed == (status != old(throttles[key]).status && !updateOk)
    {
      var thr := throttles[key];
      failed := false;
      if status != thr.status {
        throttles := throttles[key := thr.(status := status)];
        failed := !updateOk;
      } else {
        assert throttles == throttles[key := thr.(status := status)];
      }
    }

    /** Only when the status write succeeds are reservations dropped. */
    method Commit(key: Name, status: Status, affected: seq<Pod>, updateOk: bool) returns (failed: bool)
      requires Valid() && key in throttles
      modifies this`throttles, cache.Footprint()
      ensures Valid() && cache.KeepsInnerMaps() && fresh(cache.Footprint() - old(cache.Footprint()))
      ensures throttles == old(throttles)[key := old(throttles[key]).(status := status)]
      ensures failed == (status != old(throttles[key]).status && !updateOk)
      ensures forall t ::
        cache.On(t) == if t == key && !failed then old(cache.On(t)) - NamesOf(affected) else old(cache.On(t))
    {
      hide NamesOf;
      failed := WriteStatus(key, status, updateOk);
      if !failed {
        cache.RemoveEach(key, affected);
      }
    }

    ghost predicate AsksForWakeUp(key: Name, spec: SpecBase, now: Time, before: set<(Name, int)>)
      reads this`wakeUps
    {
      exists d ::
        IsNextWake(Ahead(spec.overrides, now), now, d) && wakeUps == before + if d.Some? then {(key, d.value)} else {}
    }

    method SetTimer(key: Name, spec: SpecBase, now: Time)
      modifies this`wakeUps
      ensures AsksForWakeUp(key, spec, now, old(wakeUps))
    {
      hide IsNextWake, Ahead;
      var d := NextOverrideHappensIn(spec, now);
      if d.Some? {
        wakeUps := wakeUps + {(key, d.value)};
      }
    }

    method Conclude(key: Name, status: Status, affected: seq<Pod>, now: Time, updateOk: bool) returns (failed: bool)
      requires Valid() && key in throttles
      modifies this`throttles, this`wakeUps, cache.Footprint()
      ensures Valid() && cache.KeepsInnerMaps() && fresh(cache.Footprint() - old(cache.Footprint()))
      ensures throttles == old(throttles)[key := old(throttles[key]).(status := status)]
      ensures failed == (status != old(throttles[key]).status && !updateOk)
      ensures forall t ::
        cache.On(t) == if t == key && !failed then old(cache.On(t)) - NamesOf(affected) else old(cache.On(t))
      ensures
        if failed then wakeUps == old(wakeUps) else AsksForWakeUp(key, old(throttles[key]).spec, now, old(wakeUps))
    {
      hide NamesOf, AsksForWakeUp, PodAmounts.Valid;
      failed := Commit(key, status, affected, updateOk);
      if !failed {
        SetTimer(key, throttles[key].spec, now);
      }
    }

    /** Recalculating at the later time gives the same threshold and messages, so the same status. */
    lemma StatusIsKept(thr: Throttle, now: Time, later: Time)
      requires Calculated(thr.spec, later) == Calculated(thr.spec, now).(calculatedAt := later)
      ensures var status := StatusAfter(thr, now); StatusAfter(thr.(status := status), later) == status
      ensures forall status ::
        && CountingFails(thr.(status := status)) == CountingFails(thr)
        && CountedPods(thr.(status := status)) == CountedPods(thr)
    {
      hide UsageOf, NextStatus;
      forall status, p ensures Counted(thr.(status := status), p) == Counted(thr, p) {
      }
      forall status ensures CountedPods(thr.(status := status)) == CountedPods(thr) {
      }
      var thr' := thr.(status := StatusAfter(thr, now));
      assert RunningPods(thr') == RunningPods(thr);
      ReconcileReachesFixpoint(thr.spec, thr.status, UsageOf(RunningPods(thr)), now, later);
    }

    /** What one reconcile of a key does to the listers' throttle, the reservations and the timed wake-ups. */
    twostate predicate Reconciles(key: Name, now: Time, updateOk: bool, failed: bool, dropped: set<Name>)
      requires old(Valid()) && Valid()
      reads this`pods, this`throttles, this`wakeUps, cache, cache.cache.Values, cache.Lists()
    {
      if key !in old(throttles) || old(CountingFails(throttles[key])) then
        && failed == (key in old(throttles))
        && throttles == old(throttles) && wakeUps == old(wakeUps) && forall t :: cache.On(t) == old(cache.On(t))
      else
        var thr := old(throttles[key]);
        var status := old(StatusAfter(throttles[key], now));
        && throttles == old(throttles)[key := thr.(status := status)]
        && failed == (status != thr.status && !updateOk)
        && MayBeDropped(old(CountedPods(throttles[key])), dropped)
        && (forall t :: cache.On(t) == if t == key && !failed then old(cache.On(t)) - dropped else old(cache.On(t)))
        && (if failed then wakeUps == old(wakeUps) else AsksForWakeUp(key, thr.spec, now, old(wakeUps)))
    }

    /**
     One reconcile without interference. A missing throttle is no error. On success the reservations of all
     running pods that count are dropped, and of some finished ones; a failed status write leaves every
     reservation in place.
     */
    method Reconcile(key: Name, now: Time, updateOk: bool) returns (failed: bool, ghost dropped: set<Name>)
      requires Valid()
      modifies this`throttles, this`wakeUps, cache.Footprint()
      ensures Valid() && cache.KeepsInnerMaps() && fresh(cache.Footprint() - old(cache.Footprint()))
      ensures Reconciles(key, now, updateOk, failed, dropped)
    {
      hide StatusAfter, CountedPods, MayBeDropped, CountingFails, AsksForWakeUp;
      dropped := {};
      if key !in throttles {
        failed := false;
        return;
      }
      var thr := throttles[key];
      var observed := Observe(thr, now);
      if observed.Err? {
        failed := true;
        return;
      }
      dropped := NamesOf(observed.value.1);
      failed := Conclude(key, observed.value.0, observed.value.1, now, updateOk);
    }

    /** Whatever happens to a throttle this throttler is responsible for, its key is enqueued. */
    method OnThrottleEvent(thr: Throttle)
      requires Valid()
      modifies this`queue
      ensures Valid() && queue == old(queue) + if thr.spec.throttlerName == throttlerName then {thr.name} else {}
      ensures forall t :: cache.On(t) == old(cache.On(t))
    {
      if thr.spec.throttlerName == throttlerName {
        Enqueue({thr.name});
      }
    }

    /** The work queue hands out a due key, any one. */
    method Get() returns (key: Name)
      requires Valid() && queue != {}
      modifies this`queue
      ensures Valid() && key in old(queue) && queue == old(queue) - {key}
      ensures forall t :: cache.On(t) == old(cache.On(t))
    {
      key :| key in queue;
      queue := queue - {key};
    }

    method AddRateLimited(key: Name)
      requires Valid()
      modifies this`delayed
      ensures Valid() && delayed == old(delayed) + {key}
      ensures forall t :: cache.On(t) == old(cache.On(t))
    {
      delayed := delayed + {key};
    }

    /** A worker takes one due key and reconciles it; a failed key is put back, to be retried after a delay. */
    method ProcessNextWorkItem(now: Time, updateOk: bool) returns (key: Name, failed: bool, ghost dropped: set<Name>)
      requires Valid() && queue != {}
      modifies this`queue, this`delayed, this`throttles, this`wakeUps, cache.Footprint()
      ensures Valid() && key in old(queue) && queue == old(queue) - {key}
      ensures delayed == old(delayed) + if failed then {key} else {}
      ensures Reconciles(key, now, updateOk, failed, dropped)
    {
      hide StatusAfter, CountedPods, MayBeDropped, CountingFails, AsksForWakeUp, ReservedResourceAmounts.On,
        PodAmounts.Valid;
      key := Get();
      label taken:
      assert key in throttles ==> CountingFails(throttles[key]) == old(CountingFails(throttles[key]));
      assert key in throttles ==> StatusAfter(throttles[key], now) == old(StatusAfter(throttles[key], now));
      failed, dropped := Reconcile(key, now, updateOk);
      assert key in old(throttles) ==> old@taken(CountedPods(throttles[key])) == old(CountedPods(throttles[key]));
      if failed {
        AddRateLimited(key);
      }
    }
  }
}
