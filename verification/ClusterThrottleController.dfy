/** The cluster-wide controller (pkg/controllers/clusterthrottle_controller.go:87-425). */
module ClusterThrottleControllers {
  import opened Wrappers
  import opened Names
  import opened ResourceAmounts
  import opened Overrides
  import opened Throttles
  import opened PodModel
  import opened Selectors
  import opened ReservedAmounts
  import opened Usage

  class ClusterThrottleController {
    const throttlerName: string
    const targetSchedulerName: string
    const cache: ReservedResourceAmounts

    /** The listers, and the timed wake-ups asked for so far. */
    var namespaces: map<string, Namespace>
    var pods: map<Name, Pod>
    var throttles: map<Name, ClusterThrottle>
    var wakeUps: set<(Name, int)>

    constructor (throttlerName: string, targetSchedulerName: string, cache: ReservedResourceAmounts)
      ensures this.throttlerName == throttlerName && this.targetSchedulerName == targetSchedulerName
      ensures this.cache == cache
      ensures namespaces == map[] && pods == map[] && throttles == map[] && wakeUps == {}
    {
      this.throttlerName, this.targetSchedulerName, this.cache := throttlerName, targetSchedulerName, cache;
      namespaces, pods, throttles, wakeUps := map[], map[], map[], {};
    }

    /** Lister entries sit under their own keys. */
    ghost predicate ListersValid()
      reads this`namespaces, this`pods, this`throttles
    {
      && (forall n | n in namespaces :: namespaces[n].name == n)
      && (forall k | k in pods :: pods[k].name == k)
      && (forall k | k in throttles :: throttles[k].name == k)
    }

    ghost predicate Valid()
      reads this`namespaces, this`pods, this`throttles, cache, cache.cache.Values
    {
      ListersValid() && cache.Valid()
    }

    ghost predicate Listed(p: Pod)
      reads this`pods
    {
      p.name in pods && pods[p.name] == p
    }

    ghost function Counted(thr: ClusterThrottle, p: Pod): Match
      reads this`namespaces
    {
      CountedFrom(targetSchedulerName, namespaces, thr, p)
    }

    method PodsIn(ns: string) returns (s: seq<Pod>)
      requires ListersValid()
      ensures forall p :: p in s <==> Listed(p) && p.name.namespace == ns
      ensures NoDuplicates(s)
    {
      s := [];
      var todo := pods.Keys;
      while todo != {}
        invariant todo <= pods.Keys
        invariant forall p :: p in s <==> Listed(p) && p.name !in todo && p.name.namespace == ns
        invariant NoDuplicates(s)
        decreases todo
      {
        var k :| k in todo;
        if k.namespace == ns {
          assert pods[k] !in s;
          s := s + [pods[k]];
        }
        todo := todo - {k};
      }
    }

    /** The first loop: namespaces that pass the prefilter, and all their pods. */
    method Candidates(thr: ClusterThrottle) returns (candidates: seq<Pod>, nsMap: map<string, Namespace>)
      requires ListersValid()
      ensures forall n :: n in nsMap <==>
        n in namespaces && MatchesNamespace(thr.selector, namespaces[n].labels) == Ok(true)
      ensures forall n | n in nsMap :: nsMap[n] == namespaces[n]
      ensures forall p :: p in candidates <==> Listed(p) && p.name.namespace in nsMap
      ensures NoDuplicates(candidates)
    {
      candidates, nsMap := [], map[];
      var todo := namespaces.Keys;
      while todo != {}
        invariant todo <= namespaces.Keys
        invariant forall n :: n in nsMap <==>
          n in namespaces && n !in todo && MatchesNamespace(thr.selector, namespaces[n].labels) == Ok(true)
        invariant forall n | n in nsMap :: nsMap[n] == namespaces[n]
        invariant forall p :: p in candidates <==> Listed(p) && p.name.namespace in nsMap
        invariant NoDuplicates(candidates)
        decreases todo
      {
        var n :| n in todo;
        todo := todo - {n};
        if MatchesNamespace(thr.selector, namespaces[n].labels) == Ok(true) {
          nsMap := nsMap[n := namespaces[n]];
          var more := PodsIn(n);
          candidates := candidates + more;
        }
      }
    }

    /**
     Every listed pod to be counted, each exactly once, split by whether it has finished; or an error,
     exactly when the selector fails on one of them.
     */
    method AffectedPods(thr: ClusterThrottle) returns (r: Result<(seq<Pod>, seq<Pod>), string>)
      requires ListersValid()
      ensures r.Ok? ==>
        && NoDuplicates(r.value.0) && NoDuplicates(r.value.1)
        && (forall p :: p in r.value.0 <==> Listed(p) && Counted(thr, p) == Ok(true) && IsNotFinished(p))
        && (forall p :: p in r.value.1 <==> Listed(p) && Counted(thr, p) == Ok(true) && !IsNotFinished(p))
      ensures r.Err? <==> exists p :: Listed(p) && Counted(thr, p).Err?
    {
      var candidates, nsMap := Candidates(thr);
      var running: seq<Pod>, finished: seq<Pod> := [], [];
      for i := 0 to |candidates|
        invariant NoDuplicates(running) && NoDuplicates(finished)
        invariant forall p :: p in running <==> p in candidates[..i] && Counted(thr, p) == Ok(true) && IsNotFinished(p)
        invariant forall p :: p in finished <==>
          p in candidates[..i] && Counted(thr, p) == Ok(true) && !IsNotFinished(p)
        invariant forall p | p in candidates[..i] :: Counted(thr, p).Ok?
      {
        var pod := candidates[i];
        assert candidates[..i+1] == candidates[..i] + [pod];
        assert pod in candidates && pod !in candidates[..i];
        if !ShouldCountIn(targetSchedulerName, pod) {
          continue;
        }
        var match_ := MatchesPod(thr.selector, pod.labels, nsMap[pod.name.namespace].labels);
        assert match_ == Counted(thr, pod);
        if match_.Err? {
          return Err(match_.error);
        }
        if !match_.value {
          continue;
        }
        if IsNotFinished(pod) {
          running := running + [pod];
        } else {
          finished := finished + [pod];
        }
      }
      assert candidates[..|candidates|] == candidates;
      forall p | Listed(p) && p !in candidates ensures Counted(thr, p) == Ok(false) {
        if p.name.namespace in namespaces {
          NamespacePrefilterLosesNothing(thr.selector, p.labels, namespaces[p.name.namespace].labels);
        }
      }
      return Ok((running, finished));
    }

    ghost function Affects(thr: ClusterThrottle, pod: Pod): Match
      requires pod.name.namespace in namespaces
      reads this`namespaces
    {
      AffectsFrom(throttlerName, namespaces[pod.name.namespace], thr, pod)
    }

    /** The throttles that match a pod. */
    ghost function Matching(pod: Pod): set<Name>
      reads this`namespaces, this`throttles
    {
      set t | t in throttles && pod.name.namespace in namespaces && Affects(throttles[t], pod) == Ok(true)
    }

    ghost predicate LookupFails(pod: Pod)
      reads this`namespaces, this`throttles
    {
      pod.name.namespace !in namespaces || exists t :: t in throttles && Affects(throttles[t], pod).Err?
    }

    /** The throttles that match a pod; or an error, when its namespace is unknown or a selector fails on it. */
    method AffectedClusterThrottles(pod: Pod) returns (r: Result<set<Name>, string>)
      requires ListersValid()
      ensures r.Ok? ==> r.value == Matching(pod) && r.value <= throttles.Keys
      ensures r.Ok? ==> forall t | t in r.value :: throttles[t].spec.throttlerName == throttlerName
      ensures r.Err? <==> LookupFails(pod)
    {
      if pod.name.namespace !in namespaces {
        return Err("namespace not found");
      }
      var ns := namespaces[pod.name.namespace];
      var affected: set<Name> := {};
      var todo := throttles.Keys;
      while todo != {}
        invariant todo <= throttles.Keys
        invariant forall t :: t in affected <==> t in throttles && t !in todo && Affects(throttles[t], pod) == Ok(true)
        invariant forall t | t in throttles && t !in todo :: Affects(throttles[t], pod).Ok?
        decreases todo
      {
        var t :| t in todo;
        todo := todo - {t};
        if throttles[t].spec.throttlerName != throttlerName {
          continue;
        }
        var match_ := MatchesPod(throttles[t].selector, pod.labels, ns.labels);
        assert match_ == Affects(throttles[t], pod);
        if match_.Err? {
          return Err(match_.error);
        }
        if match_.value {
          affected := affected + {t};
        }
      }
      return Ok(affected);
    }

    /** The verdict of one throttle, on its status and the total reserved on it. */
    ghost function VerdictOf(t: Name, pod: Pod, onEqual: bool): Verdict
      requires Valid() && t in throttles
      reads this`namespaces, this`pods, this`throttles, cache, cache.cache.Values, cache.Lists()
    {
      CheckClusterThrottle(throttles[t].spec, throttles[t].status, pod.request, Total(cache.On(t)), onEqual)
    }

    ghost function Verdicts(pod: Pod, onEqual: bool): map<Name, Verdict>
      requires Valid()
      reads this`namespaces, this`pods, this`throttles, cache, cache.cache.Values, cache.Lists()
    {
      map t | t in Matching(pod) :: VerdictOf(t, pod, onEqual)
    }

    method CheckOne(t: Name, pod: Pod, onEqual: bool) returns (v: Verdict)
      requires Valid() && t in throttles
      ensures v == VerdictOf(t, pod, onEqual)
    {
      var reserved, _ := cache.ReservedResourceAmount(t);
      v := CheckClusterThrottle(throttles[t].spec, throttles[t].status, pod.request, reserved, onEqual);
    }

    /** Every affected throttle lands in the list of its verdict, and in no other. */
    method CheckThrottled(pod: Pod, onEqual: bool) returns (r: Result<Checked, string>)
      requires Valid()
      ensures r.Err? <==> LookupFails(pod)
      ensures r.Ok? ==> r.value.Sorts(old(Verdicts(pod, onEqual)))
    {
      hide CheckClusterThrottle, Total, LookupFails, Matching, Checked.Sorts, Checked.Record, AffectsFrom;
      var affected :- AffectedClusterThrottles(pod);
      ghost var verdicts := old(Verdicts(pod, onEqual));
      assert verdicts.Keys == affected;
      var c := Checked({}, {}, {}, {});
      assert c.Sorts(verdicts - affected) by { NothingSorted(verdicts); }
      var todo := affected;
      while todo != {}
        invariant todo <= affected && c.Sorts(verdicts - todo)
        decreases todo
      {
        var t :| t in todo;
        var v := CheckOne(t, pod, onEqual);
        assert cache.On(t) == old(cache.On(t));
        assert v == VerdictOf(t, pod, onEqual) == verdicts[t];
        RecordSortsOneMore(c, verdicts, todo, t);
        c := c.Record(t, v);
        todo := todo - {t};
      }
      assert verdicts - {} == verdicts;
      return Ok(c);
    }

    method Reserve(pod: Pod) returns (r: Result<(), string>)
      requires Valid()
      modifies cache.Footprint()
      ensures Valid() && cache.KeepsInnerMaps() && fresh(cache.Footprint() - old(cache.Footprint()))
      ensures r.Err? <==> LookupFails(pod)
      ensures forall t :: cache.On(t) == MovedEntry(old(cache.On(t)), pod, false,
        r.Ok? && t in Matching(pod))
    {
      hide Matching, LookupFails;
      var affected :- AffectedClusterThrottles(pod);
      cache.AddToAll(pod, affected);
      return Ok(());
    }

    method UnReserve(pod: Pod) returns (r: Result<(), string>)
      requires Valid()
      modifies cache.Footprint()
      ensures Valid() && cache.KeepsInnerMaps() && fresh(cache.Footprint() - old(cache.Footprint()))
      ensures r.Err? <==> LookupFails(pod)
      ensures forall t :: cache.On(t) == MovedEntry(old(cache.On(t)), pod,
        r.Ok? && t in Matching(pod), false)
    {
      hide Matching, LookupFails;
      var affected :- AffectedClusterThrottles(pod);
      cache.RemoveFromAll(pod.name, affected);
      return Ok(());
    }

    /** The lister's pods that count for a throttle, and those of them that have not finished. */
    ghost function CountedPods(thr: ClusterThrottle): set<Pod>
      reads this`namespaces, this`pods
    {
      set p | p in pods.Values && Counted(thr, p) == Ok(true)
    }

    ghost function RunningPods(thr: ClusterThrottle): set<Pod>
      reads this`namespaces, this`pods
    {
      set p | p in CountedPods(thr) && IsNotFinished(p)
    }

    ghost predicate CountingFails(thr: ClusterThrottle)
      reads this`namespaces, this`pods
    {
      exists p :: Listed(p) && Counted(thr, p).Err?
    }

    ghost function StatusAfter(thr: ClusterThrottle, now: Time): Status
      reads this`namespaces, this`pods
    {
      NextStatus(thr.spec, thr.status, UsageOf(RunningPods(thr)), now)
    }

    ghost function CountedNames(thr: ClusterThrottle): set<Name>
      reads this`namespaces, this`pods
    {
      set p | p in CountedPods(thr) :: p.name
    }

    /** What a reconcile works out before it writes anything. */
    method Observe(thr: ClusterThrottle, now: Time) returns (r: Result<(Status, seq<Pod>), string>)
      requires ListersValid()
      ensures r.Err? <==> CountingFails(thr)
      ensures r.Ok? ==> r.value.0 == StatusAfter(thr, now) && NamesOf(r.value.1) == CountedNames(thr)
    {
      hide NextStatus, UsageOf, CountedFrom;
      var lookup := AffectedPods(thr);
      if lookup.Err? {
        return Err(lookup.error);
      }
      var (running, finished) := lookup.value;
      var used := SumUsage(running);
      assert Elements(running) == RunningPods(thr);
      var status := ReconcileStatus(thr.spec, thr.status, used, now);
      assert forall p :: p in running + finished <==> p in CountedPods(thr);
      return Ok((status, running + finished));
    }

    ghost predicate AsksForWakeUp(key: Name, spec: SpecBase, now: Time, before: set<(Name, int)>)
      reads this`wakeUps
    {
      exists d ::
        IsNextWake(Ahead(spec.overrides, now), now, d) && wakeUps == before + if d.Some? then {(key, d.value)} else {}
    }

    /** The lister's own object is changed before the write is sent, and stays changed if that fails. */
    method WriteStatus(key: Name, status: Status, updateOk: bool) returns (failed: bool)
      requires ListersValid() && key in throttles
      modifies this`throttles
      ensures ListersValid()
      ensures throttles == old(throttles)[key := old(throttles[key]).(status := status)]
      ensures failed == (status != old(throttles[key]).status && !updateOk)
    {
      var thr := throttles[key];
      failed := false;
      if status != thr.status {
        throttles := throttles[key := thr.(status := status)];
        failed := !updateOk;
      } else {
        assert throttles == throttles[key := thr.(status := status)];
      }
    }

    method SetTimer(key: Name, spec: SpecBase, now: Time)
      modifies this`wakeUps
      ensures AsksForWakeUp(key, spec, now, old(wakeUps))
    {
      hide IsNextWake, Ahead;
      var d := NextOverrideHappensIn(spec, now);
      if d.Some? {
        wakeUps := wakeUps + {(key, d.value)};
      }
    }

    /** Only when the status write succeeds are reservations dropped. */
    method Commit(key: Name, status: Status, affected: seq<Pod>, updateOk: bool) returns (failed: bool)
      requires Valid() && key in throttles
      modifies this`throttles, cache.Footprint()
      ensures Valid() && cache.KeepsInnerMaps() && fresh(cache.Footprint() - old(cache.Footprint()))
      ensures throttles == old(throttles)[key := old(throttles[key]).(status := status)]
      ensures failed == (status != old(throttles[key]).status && !updateOk)
      ensures forall t ::
        cache.On(t) == if t == key && !failed then old(cache.On(t)) - NamesOf(affected) else old(cache.On(t))
    {
      hide NamesOf;
      failed := WriteStatus(key, status, updateOk);
      if !failed {
        cache.RemoveEach(key, affected);
      }
    }

    method Conclude(key: Name, status: Status, affected: seq<Pod>, now: Time, updateOk: bool) returns (failed: bool)
      requires Valid() && key in throttles
      modifies this`throttles, this`wakeUps, cache.Footprint()
      ensures Valid() && cache.KeepsInnerMaps() && fresh(cache.Footprint() - old(cache.Footprint()))
      ensures throttles == old(throttles)[key := old(throttles[key]).(status := status)]
      ensures failed == (status != old(throttles[key]).status && !updateOk)
      ensures forall t ::
        cache.On(t) == if t == key && !failed then old(cache.On(t)) - NamesOf(affected) else old(cache.On(t))
      ensures
        if failed then wakeUps == old(wakeUps) else AsksForWakeUp(key, old(throttles[key]).spec, now, old(wakeUps))
    {
      hide NamesOf, AsksForWakeUp, PodAmounts.Valid;
      failed := Commit(key, status, affected, updateOk);
      if !failed {
        SetTimer(key, throttles[key].spec, now);
      }
    }

    /** Recalculating at the later time gives the same threshold and messages, so the same status. */
    lemma StatusIsKept(thr: ClusterThrottle, now: Time, later: Time)
      requires Calculated(thr.spec, later) == Calculated(thr.spec, now).(calculatedAt := later)
      ensures var status := StatusAfter(thr, now);
        StatusAfter(thr.(status := status), later) == status
      ensures forall status ::
        && CountingFails(thr.(status := status)) == CountingFails(thr)
        && CountedNames(thr.(status := status)) == CountedNames(thr)
    {
      hide UsageOf, NextStatus;
      forall status, p ensures Counted(thr.(status := status), p) == Counted(thr, p) {
      }
      forall status ensures CountedPods(thr.(status := status)) == CountedPods(thr) {
      }
      var thr' := thr.(status := StatusAfter(thr, now));
      assert RunningPods(thr') == RunningPods(thr);
      ReconcileReachesFixpoint(thr.spec, thr.status, UsageOf(RunningPods(thr)), now, later);
    }

    /** Used and reserved together are the total over the reserved pods and the pods in use, each once. */
    ghost predicate CountsEachPodOnce(key: Name)
      requires Valid() && key in throttles
      reads this`namespaces, this`pods, this`throttles, cache, cache.cache.Values, cache.Lists()
    {
      var running := RunningPods(throttles[key]);
      NamesAreKeys(running)
      && Sum(throttles[key].status.used, Total(cache.On(key))) == Total(cache.On(key) + ByName(running))
    }

    lemma NobodyIsCountedTwice(key: Name)
      requires Valid() && key in throttles
      requires throttles[key].status.used == UsageOf(RunningPods(throttles[key]))
      requires cache.On(key).Keys !! CountedNames(throttles[key])
      ensures CountsEachPodOnce(key)
    {
      hide UsageOf, Sum, Total, CountedFrom;
      UsedAndReservedCountEachPodOnce(RunningPods(throttles[key]), cache.On(key));
    }

    /** What one reconcile of a key does to the lister's throttle, the reservations and the timed wake-ups. */
    twostate predicate Reconciles(key: Name, now: Time, updateOk: bool, failed: bool)
      requires old(Valid()) && Valid()
      reads this`namespaces, this`pods, this`throttles, this`wakeUps, cache, cache.cache.Values, cache.Lists()
    {
      if key !in old(throttles) || old(CountingFails(throttles[key])) then
        && failed == (key in old(throttles))
        && throttles == old(throttles) && wakeUps == old(wakeUps) && forall t :: cache.On(t) == old(cache.On(t))
      else
        var thr := old(throttles[key]);
        var status := old(StatusAfter(throttles[key], now));
        && throttles == old(throttles)[key := thr.(status := status)]
        && failed == (status != thr.status && !updateOk)
        && (forall t :: cache.On(t) ==
              if t == key && !failed then old(cache.On(t)) - old(CountedNames(throttles[key])) else old(cache.On(t)))
        && (if failed then wakeUps == old(wakeUps) else AsksForWakeUp(key, thr.spec, now, old(wakeUps)))
    }

    /**
     One reconcile without interference. A missing throttle is no error. On success no pod that counts for
     the throttle, running or finished, is still reserved, so its used and reserved amounts count no pod
     twice; a failed status write leaves every reservation in place.
     */
    method Reconcile(name: string, now: Time, updateOk: bool) returns (failed: bool)
      requires Valid()
      modifies this`throttles, this`wakeUps, cache.Footprint()
      ensures Valid() && cache.KeepsInnerMaps() && fresh(cache.Footprint() - old(cache.Footprint()))
      ensures Reconciles(Name("", name), now, updateOk, failed)
    {
      hide StatusAfter, CountedNames, CountingFails, AsksForWakeUp, PodAmounts.Valid;
      var key := Name("", name);
      if key !in throttles {
        return false;
      }
      var thr := throttles[key];
      var observed := Observe(thr, now);
      if observed.Err? {
        return true;
      }
      failed := Conclude(key, observed.value.0, observed.value.1, now, updateOk);
    }

    /** After a successful reconcile the status's usage and the reserved total count each pod once. */
    twostate lemma ReconcileCountsEachPodOnce(key: Name, now: Time, updateOk: bool)
      requires old(Valid()) && Valid() && key in old(throttles) && pods == old(pods) && namespaces == old(namespaces)
      requires Reconciles(key, now, updateOk, false)
      ensures key in throttles && CountsEachPodOnce(key)
    {
      hide StatusAfter, CountedNames, CountingFails, AsksForWakeUp, CountsEachPodOnce;
      StatusCounts(old(throttles[key]), now);
      NobodyIsCountedTwice(key);
    }

    /** The status a reconcile writes says what the pods in use amount to, whatever status it replaces. */
    lemma StatusCounts(thr: ClusterThrottle, now: Time)
      ensures var thr' := thr.(status := StatusAfter(thr, now));
        thr'.status.used == UsageOf(RunningPods(thr')) && CountedNames(thr') == CountedNames(thr)
    {
      hide UsageOf;
      var thr' := thr.(status := StatusAfter(thr, now));
      forall p ensures Counted(thr', p) == Counted(thr, p) {
      }
      assert RunningPods(thr') == RunningPods(thr) && CountedPods(thr') == CountedPods(thr);
    }
  }
}
