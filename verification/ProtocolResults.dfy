/** The two main results over whole runs of the protocol: the quota holds, and no status is left stale. */
module ProtocolResults {
  import opened Wrappers
  import opened Names
  import opened ResourceLists
  import opened ResourceAmounts
  import opened Overrides
  import opened Throttles
  import opened Protocol

  // ---------------------------------------------------------------- quota safety

  /** The threshold every throttle is to keep. */
  type Quota = Name -> Amount

  ghost predicate WithinQuota(threshold: Amount, load: Amount) {
    && (threshold.counts.Some? ==> Pods(load) <= threshold.counts.value)
    && forall n | n in threshold.requests :: At(load.requests, n) <= threshold.requests[n]
  }

  /** No spec is edited, no live pod is relabelled, and recalculating a threshold always gives the quota. */
  ghost predicate KeepsThresholdsAndLabels(s: State, step: Step, quota: Quota) {
    && !step.EditSpec? && (step.Relabel? ==> !Live(PhaseOf(s, step.p)))
    && (step.Write? && step.t in s.thrs ==> Calculated(s.thrs[step.t].spec, step.now).threshold == quota(step.t))
  }

  /** A quota that asks for nothing may be missed by the check, without harm. */
  ghost predicate ThrQuota(w: World, s: State, quota: Quota, t: Name, th: Thr) {
    && (EffectiveThreshold(th.spec, th.status) == quota(t) || quota(t) == NOTHING)
    && WithinQuota(quota(t), UsedBy(w, Demand(s, t)))
  }

  /** Every throttle starts with its quota for threshold, and with its live pods within it, if there are any. */
  ghost predicate StartsWithin(w: World, s: State, quota: Quota) {
    forall t | t in s.thrs :: ThrQuota(w, s, quota, t, s.thrs[t])
  }

  ghost predicate IsQuotaRun(w: World, states: seq<State>, steps: seq<Step>, quota: Quota) {
    && IsRun(w, states, steps) && RequestsAreNonNegative(w) && StartsWithin(w, states[0], quota)
    && forall i | 0 <= i < |steps| :: KeepsThresholdsAndLabels(states[i], steps[i], quota)
  }

  ghost predicate Room(w: World, s: State, quota: Quota, t: Name, p: Name) {
    t in s.thrs ==> Fits(quota(t), UsedBy(w, Demand(s, t)), RequestOf(w, p), false)
  }

  /** What the cycle has established so far about the pod it is about to let in. */
  ghost predicate CycleQuota(w: World, s: State, quota: Quota) {
    && (s.cycle.Checking? ==> forall t | t in s.cycle.passed :: Room(w, s, quota, t, s.cycle.pod))
    && (s.cycle.Checking? && s.cycle.read.Some? ==> Demand(s, s.cycle.read.value.thr) <= s.cycle.read.value.demand)
    && (s.cycle.Reserving? ==> forall t | t in AffectsOf(s, s.cycle.pod) :: Room(w, s, quota, t, s.cycle.pod))
  }

  ghost predicate QuotaInv(w: World, s: State, quota: Quota) {
    (forall t | t in s.thrs :: ThrQuota(w, s, quota, t, s.thrs[t])) && CycleQuota(w, s, quota)
  }

  lemma LessLoadStillFits(w: World, threshold: Amount, ps: set<Name>, qs: set<Name>, request: Quantities)
    requires RequestsAreNonNegative(w) && ps <= qs
    ensures WithinQuota(threshold, UsedBy(w, qs)) ==> WithinQuota(threshold, UsedBy(w, ps))
    ensures Fits(threshold, UsedBy(w, qs), request, false) ==> Fits(threshold, UsedBy(w, ps), request, false)
  {
    CoveringPodsCoverLoads(w, ps, qs, {});
    assert UsedBy(w, {}) == NOTHING by { assert AmountsOf(w, {}) == map[]; }
  }

  /** Letting in a pod that fits keeps the quota, even on resources the pod does not ask for. */
  lemma FittingPodKeepsQuota(w: World, threshold: Amount, ps: set<Name>, p: Name)
    requires p !in ps && WithinQuota(threshold, UsedBy(w, ps))
    requires Fits(threshold, UsedBy(w, ps), RequestOf(w, p), false)
    ensures WithinQuota(threshold, UsedBy(w, ps + {p}))
  {
    assert AmountsOf(w, ps + {p}) == AmountsOf(w, ps)[p := OfPod(RequestOf(w, p))];
    assert AmountsOf(w, ps) - {p} == AmountsOf(w, ps);
    TotalPutsIn(AmountsOf(w, ps), p, OfPod(RequestOf(w, p)));
    forall n | n in threshold.requests ensures At(UsedBy(w, ps + {p}).requests, n) <= threshold.requests[n] {
      AtOfSum(UsedBy(w, ps), OfPod(RequestOf(w, p)), n);
    }
    AtOfSum(UsedBy(w, ps), OfPod(RequestOf(w, p)), "");
  }

  /** A verdict of not-throttled on what the check saw leaves room over the real demand. */
  lemma PassingLeavesRoom(w: World, s: State, quota: Quota, r: Read, p: Name)
    requires RequestsAreNonNegative(w) && r.thr in s.thrs && ThrInv(w, s, r.thr, s.thrs[r.thr])
    requires ThrQuota(w, s, quota, r.thr, s.thrs[r.thr])
    requires r.amount == UsedBy(w, r.held) && ReadCovers(s, r) && Demand(s, r.thr) <= r.demand
    requires CheckThrottle(s.thrs[r.thr].spec, s.thrs[r.thr].status, RequestOf(w, p), r.amount, false) == NotThrottled
    ensures Room(w, s, quota, r.thr, p)
  {
    var th := s.thrs[r.thr];
    var threshold, request := quota(r.thr), RequestOf(w, p);
    if threshold == NOTHING {
      return;
    }
    LastCheckIsFits(threshold, th.status.used, r.amount, request, false);
    assert Fits(threshold, Sum(th.status.used, r.amount), request, false);
    assert Demand(s, r.thr) <= r.held + th.counted;
    CoveringPodsCoverLoads(w, Demand(s, r.thr), r.held, th.counted);
    var load := UsedBy(w, Demand(s, r.thr));
    forall n | n in threshold.requests && At(request, n) != 0
      ensures At(load.requests, n) + request[n] <= threshold.requests[n]
    {
      AtOfSum(th.status.used, r.amount, n);
    }
    AtOfSum(th.status.used, r.amount, "");
  }

  /** Only the end of a scheduling cycle adds a pod to the demand. */
  lemma DemandOnlyShrinks(w: World, s: State, quota: Quota, step: Step, t: Name)
    requires Enabled(w, s, step) && KeepsThresholdsAndLabels(s, step, quota) && !step.Assume?
    ensures Demand(Apply(w, s, step), t) <= Demand(s, t)
  {
    if TurnsPhase(step) || step.Relabel? {
      hide UsedBy, NextStatusOf, IsNextWake, Listed, ListedFinished, CheckThrottle, Moved;
    } else {
      hide *;
      OtherStepsLeavePodsAlone(w, s, step);
      SameDemand(s, Apply(w, s, step), t);
    }
  }

  lemma AssumeAddsThePod(w: World, s: State, t: Name)
    requires Enabled(w, s, Assume) && CycleInv(s)
    ensures Demand(Apply(w, s, Assume), t)
         == Demand(s, t) + if t in AffectsOf(s, s.cycle.pod) then {s.cycle.pod} else {}
    ensures s.cycle.pod !in Demand(s, t)
  {
  }

  /** With a fixed threshold, recalculating keeps the threshold the check uses. */
  lemma WritingKeepsTheThreshold(w: World, s: State, quota: Quota, t: Name, now: Time)
    requires Enabled(w, s, Write(t, now, true)) && ThrInv(w, s, t, s.thrs[t])
    requires Calculated(s.thrs[t].spec, now).threshold == quota(t)
    ensures EffectiveThreshold(s.thrs[t].spec, NextStatusOf(w, s.thrs[t], now)) == quota(t) || quota(t) == NOTHING
  {
  }

  lemma SpecsStay(w: World, s: State, step: Step, t: Name)
    requires Enabled(w, s, step) && !step.EditSpec? && t in s.thrs
    ensures t in Apply(w, s, step).thrs && Apply(w, s, step).thrs[t].spec == s.thrs[t].spec
    ensures !(step.Write? && step.t == t) ==> Apply(w, s, step).thrs[t].status == s.thrs[t].status
    ensures step.Write? && step.t == t ==> Apply(w, s, step).thrs[t].status == NextStatusOf(w, s.thrs[t], step.now)
  {
    if TouchesRecord(step) {
      hide UsedBy, NextStatusOf, IsNextWake, Listed, ListedFinished, Demand, CheckThrottle;
    } else {
      hide *;
      OthersKeepRecords(w, s, step, t);
    }
  }

  lemma StepKeepsThrQuota(w: World, s: State, quota: Quota, step: Step, t: Name)
    requires Enabled(w, s, step) && KeepsThresholdsAndLabels(s, step, quota) && RequestsAreNonNegative(w)
    requires Inv(w, s) && QuotaInv(w, s, quota) && t in s.thrs
    ensures t in Apply(w, s, step).thrs && ThrQuota(w, Apply(w, s, step), quota, t, Apply(w, s, step).thrs[t])
  {
    hide Apply, UsedBy, NextStatusOf, Demand, ThrInv, WithinQuota, Fits, ReadInv;
    var s' := Apply(w, s, step);
    var threshold := quota(t);
    SpecsStay(w, s, step, t);
    if step.Write? && step.t == t {
      WritingKeepsTheThreshold(w, s, quota, t, step.now);
    }
    if step.Assume? {
      AssumeAddsThePod(w, s, t);
      if t in AffectsOf(s, s.cycle.pod) {
        assert Room(w, s, quota, t, s.cycle.pod);
        FittingPodKeepsQuota(w, threshold, Demand(s, t), s.cycle.pod);
      } else {
        assert Demand(s', t) == Demand(s, t);
      }
    } else {
      DemandOnlyShrinks(w, s, quota, step, t);
      LessLoadStillFits(w, threshold, Demand(s', t), Demand(s, t), map[]);
    }
  }

  lemma RoomStays(w: World, s: State, quota: Quota, step: Step, t: Name, p: Name)
    requires Enabled(w, s, step) && KeepsThresholdsAndLabels(s, step, quota) && !step.Assume?
    requires RequestsAreNonNegative(w)
    requires Room(w, s, quota, t, p)
    ensures Room(w, Apply(w, s, step), quota, t, p)
  {
    hide Apply, UsedBy, NextStatusOf, Demand, Fits;
    ThrottlesStay(w, s, step);
    if t in s.thrs {
      SpecsStay(w, s, step, t);
      DemandOnlyShrinks(w, s, quota, step, t);
      LessLoadStillFits(w, quota(t), Demand(Apply(w, s, step), t), Demand(s, t), RequestOf(w, p));
    }
  }

  /** How a cycle can have come to stand where it does. */
  lemma CycleComesFrom(w: World, s: State, step: Step)
    requires Enabled(w, s, step) && !Apply(w, s, step).cycle.NoCycle?
    ensures var c, c' := s.cycle, Apply(w, s, step).cycle;
      || (c'.Checking? && c'.passed == {} && c'.read.None?)
      || (c'.Checking? && step.ReadReserved? && c.Checking? && c' == c.(read := c'.read) && c'.read.Some?
          && c'.read.value.thr == step.t && c'.read.value.demand == Demand(s, step.t))
      || (c'.Checking? && step.Judge? && c.Checking? && c.read.Some?
          && c' == Checking(c.pod, c.passed + {c.read.value.thr}, None) && c.read.value.thr in s.thrs
          && CheckThrottle(s.thrs[c.read.value.thr].spec, s.thrs[c.read.value.thr].status, RequestOf(w, c.pod),
                           c.read.value.amount, false) == NotThrottled)
      || (c'.Reserving? && step.BeginReserve? && c.Checking? && c'.pod == c.pod && AffectsOf(s, c.pod) <= c.passed)
      || (c'.Reserving? && c.Reserving? && c'.pod == c.pod)
      || (c'.Checking? && c' == c)
    ensures !step.Assume?
  {
    hide UsedBy, NextStatusOf, IsNextWake, Listed, ListedFinished, Demand, CheckThrottle, Moved, MayBecomeSeen, PhaseOf;
  }

  lemma CyclePodKeepsItsLabels(w: World, s: State, step: Step)
    requires Enabled(w, s, step) && !s.cycle.NoCycle?
    ensures AffectsOf(Apply(w, s, step), s.cycle.pod) == AffectsOf(s, s.cycle.pod)
  {
    if step.Relabel? {
      hide Moved;
    } else {
      hide Apply, Enabled;
      OthersKeepAffects(w, s, step);
    }
  }

  lemma OthersKeepAffects(w: World, s: State, step: Step)
    requires Enabled(w, s, step) && !step.Relabel?
    ensures Apply(w, s, step).affects == s.affects
  {
    hide Enabled, UsedBy, NextStatusOf, Demand, CheckThrottle, PhaseOf, AffectsOf;
  }

  lemma StepKeepsCycleQuota(w: World, s: State, quota: Quota, step: Step)
    requires Enabled(w, s, step) && KeepsThresholdsAndLabels(s, step, quota) && RequestsAreNonNegative(w)
    requires Inv(w, s) && QuotaInv(w, s, quota)
    ensures CycleQuota(w, Pruned(Apply(w, s, step)), quota)
  {
    hide Apply, UsedBy, NextStatusOf, Demand, ThrInv, ThrQuota, Room, CheckThrottle, Enabled,
      KeepsThresholdsAndLabels, ReadCovers;
    var s' := Apply(w, s, step);
    if !s'.cycle.NoCycle? {
      CycleComesFrom(w, s, step);
      if !s.cycle.NoCycle? {
        CyclePodKeepsItsLabels(w, s, step);
      }
      var p := s'.cycle.pod;
      forall t | Room(w, s, quota, t, p) ensures Room(w, Pruned(s'), quota, t, p) {
        RoomStays(w, s, quota, step, t, p);
        RoomDependsOnRecordsOnly(w, quota, s', Pruned(s'), t, p);
      }
      if step.Judge? && s'.cycle.Checking? && s.cycle.Checking? && s.cycle.read.Some?
        && s.cycle.read.value.thr in s.thrs
        && s'.cycle == Checking(p, s.cycle.passed + {s.cycle.read.value.thr}, None) {
        var r := s.cycle.read.value;
        assert ThrInv(w, s, r.thr, s.thrs[r.thr]) && ThrQuota(w, s, quota, r.thr, s.thrs[r.thr]);
        PassingLeavesRoom(w, s, quota, r, p);
      }
      if s'.cycle.Checking? && s'.cycle.read.Some? {
        var t := s'.cycle.read.value.thr;
        DemandOnlyShrinks(w, s, quota, step, t);
        PruningKeepsDemand(s', t);
      }
      PruningKeepsAffects(s');
    }
  }

  lemma RoomDependsOnRecordsOnly(w: World, quota: Quota, s: State, s': State, t: Name, p: Name)
    requires s'.phase == s.phase && s'.affects == s.affects && s'.thrs == s.thrs && Room(w, s, quota, t, p)
    ensures Room(w, s', quota, t, p)
  {
    assert Demand(s', t) == Demand(s, t);
  }

  lemma PruningKeepsDemand(s: State, t: Name)
    ensures Demand(Pruned(s), t) == Demand(s, t)
  {
  }

  lemma PruningKeepsAffects(s: State)
    ensures forall p :: AffectsOf(Pruned(s), p) == AffectsOf(s, p)
  {
  }

  lemma QuotaRunsStartWell(w: World, s: State, quota: Quota)
    requires Init(w, s) && StartsWithin(w, s, quota)
    ensures QuotaInv(w, s, quota)
  {
  }

  lemma QuotaStepKeepsInv(w: World, s: State, quota: Quota, step: Step, s': State)
    requires Next(w, s, step, s') && KeepsThresholdsAndLabels(s, step, quota) && RequestsAreNonNegative(w)
    requires Inv(w, s) && QuotaInv(w, s, quota)
    ensures QuotaInv(w, s', quota)
  {
    hide Apply, Enabled, ThrInv, CycleInv, ReadInv, Demand, CycleQuota, KeepsThresholdsAndLabels,
      EffectiveThreshold, WithinQuota;
    StepKeepsCycleQuota(w, s, quota, step);
    forall t | t in s'.thrs ensures ThrQuota(w, s', quota, t, s'.thrs[t]) {
      ThrottlesStay(w, s, step);
      StepKeepsThrQuota(w, s, quota, step, t);
      PruningKeepsDemand(Apply(w, s, step), t);
    }
  }

  lemma {:induction false} QuotaRunsKeepInv(w: World, states: seq<State>, steps: seq<Step>, quota: Quota, i: nat)
    requires IsQuotaRun(w, states, steps, quota) && i < |states|
    ensures QuotaInv(w, states[i], quota)
  {
    hide Init, Next, Inv, QuotaInv, KeepsThresholdsAndLabels, StartsWithin;
    if i == 0 {
      QuotaRunsStartWell(w, states[0], quota);
    } else {
      QuotaRunsKeepInv(w, states, steps, quota, i - 1);
      RunsKeepInv(w, states, steps, i - 1);
      QuotaStepKeepsInv(w, states[i - 1], quota, steps[i - 1], states[i]);
    }
  }

  /**
   On every run that starts within the quota and on which thresholds and live pods' labels stay as they are,
   whatever the interleaving of checks, reservations, binds, pod events and reconcile steps, the pods that hold a
   reservation or run stay within the threshold of every throttle, on the count and on every thresholded resource.
   */
  lemma QuotaIsNeverExceeded(w: World, states: seq<State>, steps: seq<Step>, quota: Quota, i: nat, t: Name)
    requires IsQuotaRun(w, states, steps, quota) && i < |states| && t in states[i].thrs
    ensures WithinQuota(quota(t), UsedBy(w, Demand(states[i], t)))
  {
    QuotaRunsKeepInv(w, states, steps, quota, i);
    assert ThrQuota(w, states[i], quota, t, states[i].thrs[t]);
  }

  /** A pod becomes live only when it fits on top of the demand of every throttle that affects it. */
  lemma AdmittedOnlyWhereItFits(w: World, states: seq<State>, steps: seq<Step>, quota: Quota, i: nat, t: Name)
    requires IsQuotaRun(w, states, steps, quota) && i < |steps| && steps[i].Assume?
    requires t in states[i].thrs && states[i].cycle.Reserving? && t in AffectsOf(states[i], states[i].cycle.pod)
    ensures Fits(quota(t), UsedBy(w, Demand(states[i], t)),
                 RequestOf(w, states[i].cycle.pod), false)
  {
    QuotaRunsKeepInv(w, states, steps, quota, i);
    assert Room(w, states[i], quota, t, states[i].cycle.pod);
  }

  // ---------------------------------------------------------------- no stale status

  /** A reconcile of the throttle is due: queued, waiting to be retried, or about to be asked for by a handler. */
  ghost predicate Due(s: State, t: Name) {
    t in s.dirty || t in s.delayed || exists n | n in s.inbox :: t in n.thrs
  }

  /** The status says what the pod lister shows, and what the spec asked for when it was last calculated. */
  ghost predicate Consistent(w: World, s: State, t: Name, th: Thr) {
    && th.counted == Listed(s, t) && th.status.used == UsedBy(w, Listed(s, t))
    && th.status.throttled == FlagsOf(th.status.calculated.threshold, th.status.used, true)
    && th.status.calculated.threshold == Calculated(th.spec, th.at).threshold
    && th.status.calculated.messages == Calculated(th.spec, th.at).messages
  }

  ghost predicate UpToDate(w: World, s: State, t: Name, th: Thr) {
    match th.stage
    case Started => true
    case Snapshotted(listed, _) => listed == Listed(s, t)
    case _ => Consistent(w, s, t, th)
  }

  ghost predicate FreshInv(w: World, s: State) {
    forall t | t in s.thrs :: Due(s, t) || UpToDate(w, s, t, s.thrs[t])
  }

  /** A throttle stays due until its reconcile starts. */
  lemma DueUntilTaken(w: World, s: State, step: Step, t: Name)
    requires Enabled(w, s, step) && Due(s, t) && step != Get(t)
    ensures Due(Apply(w, s, step), t)
  {
    hide Apply, Enabled;
    QueuesKeep(w, s, step);
    if t !in s.dirty && t !in s.delayed {
      var n :| n in s.inbox && t in n.thrs;
      assert n in Apply(w, s, step).inbox || t in Apply(w, s, step).dirty;
    }
  }

  /** Keys leave the queue only when taken, the retries only for the queue, and events only when their handler runs. */
  lemma QueuesKeep(w: World, s: State, step: Step)
    requires Enabled(w, s, step)
    ensures var s' := Apply(w, s, step);
      && s.dirty - (if step.Get? then {step.t} else {}) <= s'.dirty
      && s.delayed <= s'.delayed + s'.dirty
      && forall n | n in s.inbox :: n in s'.inbox || n.thrs <= s'.dirty
  {
    hide Enabled, UsedBy, NextStatusOf, IsNextWake, Listed, Demand, CheckThrottle, Moved, PhaseOf, AffectsOf;
  }

  /** Whatever changes the pods a throttle lists makes it due: every pod event names old and new matches. */
  lemma ListChangesMakeDue(w: World, s: State, step: Step, t: Name)
    requires Enabled(w, s, step) && CycleInv(s)
    ensures Listed(Apply(w, s, step), t) == Listed(s, t) || Due(Apply(w, s, step), t)
  {
    hide UsedBy, NextStatusOf, IsNextWake, ListedFinished, Demand, CheckThrottle, Moved;
    var s' := Apply(w, s, step);
    if step.See? && t in AffectsOf(s, step.p) {
      assert Notice(step.p, AffectsOf(s, step.p), step.ph.Gone?) in s'.inbox;
    } else if step.Relabel? {
      RelabelTouchesOnlyItsThrottles(w, s, step.p, step.ts, t);
    } else if step.See? {
      assert forall q | q != step.p :: PhaseOf(s', q) == PhaseOf(s, q);
      assert step.p !in Listed(s, t) && step.p !in Listed(s', t);
      assert Listed(s', t) == Listed(s, t);
    } else {
      OtherStepsKeepTheList(w, s, step, t);
    }
  }

  lemma OffListPhasesKeepTheList(s: State, s': State, p: Name, t: Name)
    requires p in s'.phase && s'.phase == s.phase[p := s'.phase[p]] && s'.affects == s.affects
    requires !PhaseOf(s, p).Running? && !PhaseOf(s', p).Running?
    ensures Listed(s', t) == Listed(s, t)
  {
  }

  lemma TurningStaysOffTheList(w: World, s: State, step: Step) returns (p: Name)
    requires Enabled(w, s, step) && CycleInv(s) && !step.See? && (TurnsPhase(step) || step.Assume?)
    ensures var s' := Apply(w, s, step);
      && p in s'.phase && s'.phase == s.phase[p := s'.phase[p]] && s'.affects == s.affects
      && !PhaseOf(s, p).Running? && !PhaseOf(s', p).Running?
  {
    hide UsedBy, NextStatusOf, IsNextWake, Listed, ListedFinished, Demand, CheckThrottle, Moved, MayBecomeSeen;
    p := if step.Assume? || step.GiveUp? then s.cycle.pod else step.p;
  }

  lemma OtherStepsLeavePodsAlone(w: World, s: State, step: Step)
    requires Enabled(w, s, step) && !TurnsPhase(step) && !step.Assume? && !step.Relabel?
    ensures Apply(w, s, step).phase == s.phase && Apply(w, s, step).affects == s.affects
  {
    hide Enabled, UsedBy, NextStatusOf, IsNextWake, Listed, ListedFinished, Demand, CheckThrottle, Moved,
      MayBecomeSeen, PhaseOf;
  }

  lemma OtherStepsKeepTheList(w: World, s: State, step: Step, t: Name)
    requires Enabled(w, s, step) && CycleInv(s) && !step.See? && !step.Relabel?
    ensures Listed(Apply(w, s, step), t) == Listed(s, t)
  {
    hide Apply, Enabled, Listed, PhaseOf;
    if TurnsPhase(step) || step.Assume? {
      var p := TurningStaysOffTheList(w, s, step);
      OffListPhasesKeepTheList(s, Apply(w, s, step), p, t);
    } else {
      OtherStepsLeavePodsAlone(w, s, step);
      SameViewSameList(s, Apply(w, s, step), t);
    }
  }

  lemma RelabelTouchesOnlyItsThrottles(w: World, s: State, p: Name, ts: set<Name>, t: Name)
    requires Enabled(w, s, Relabel(p, ts))
    ensures var s' := Apply(w, s, Relabel(p, ts)); Listed(s', t) == Listed(s, t) || t in s'.dirty
  {
  }

  /** What happens to the part of a record that freshness is about. */
  ghost predicate Moves(w: World, s: State, step: Step, s': State, t: Name)
    requires t in s.thrs && t in s'.thrs
  {
    var th, th' := s.thrs[t], s'.thrs[t];
    || Due(s', t)
    || th'.stage.Started?
    || (th'.spec == th.spec && th'.status == th.status && th'.counted == th.counted && th'.at == th.at
        && (th'.stage == th.stage || (th.stage.Written? && (th'.stage.Idle? || th'.stage.Written?))))
    || (th'.stage.Snapshotted? && th'.stage.listed == Listed(s, t) && s'.phase == s.phase && s'.affects == s.affects)
    || (th.stage.Snapshotted? && step.Write? && th'.stage.Written? && th'.spec == th.spec && th'.at == step.now
        && th'.counted == th.stage.listed && th'.status == NextStatusOf(w, th, step.now))
  }

  lemma RecordMoves(w: World, s: State, step: Step, t: Name)
    requires Enabled(w, s, step) && t in s.thrs
    ensures Moves(w, s, step, Apply(w, s, step), t)
  {
    if TouchesRecord(step) {
      RecordStepMoves(w, s, step, t);
    } else {
      hide Apply, Enabled, Due;
      OthersKeepRecords(w, s, step, t);
    }
  }

  lemma OtherRecordsStay(w: World, s: State, step: Step, t: Name)
    requires Enabled(w, s, step) && t in s.thrs && TouchesRecord(step) && step.t != t
    ensures Apply(w, s, step).thrs[t] == s.thrs[t]
  {
    hide Enabled, UsedBy, NextStatusOf, Listed, Demand, CheckThrottle, PhaseOf;
  }

  /** A failure leaves its key to be retried, and an edit is an event. */
  lemma FailuresAndEditsMakeDue(w: World, s: State, step: Step)
    requires Enabled(w, s, step) && (step.FailEarly? || step.EditSpec? || (step.Write? && !step.ok))
    ensures Due(Apply(w, s, step), step.t)
  {
    hide UsedBy, NextStatusOf;
    if step.EditSpec? {
      assert Notice(step.t, {step.t}, false) in Apply(w, s, step).inbox;
    }
  }

  lemma WritingMoves(w: World, s: State, t: Name, now: Time)
    requires Enabled(w, s, Write(t, now, true))
    ensures Moves(w, s, Write(t, now, true), Apply(w, s, Write(t, now, true)), t)
  {
    hide Due, UsedBy, NextStatusOf, Listed;
  }

  lemma SnapshotMoves(w: World, s: State, t: Name, drop: set<Name>)
    requires Enabled(w, s, Snapshot(t, drop))
    ensures Moves(w, s, Snapshot(t, drop), Apply(w, s, Snapshot(t, drop)), t)
  {
    hide Due, UsedBy, NextStatusOf, Listed, ListedFinished;
  }

  lemma StageMoves(w: World, s: State, step: Step, t: Name)
    requires Enabled(w, s, step) && t in s.thrs && (step.Get? || step.DropOne? || step.Finish?) && step.t == t
    ensures Moves(w, s, step, Apply(w, s, step), t)
  {
    hide Due, UsedBy, NextStatusOf, IsNextWake, Listed, ListedFinished;
  }

  lemma RecordStepMoves(w: World, s: State, step: Step, t: Name)
    requires Enabled(w, s, step) && t in s.thrs && TouchesRecord(step)
    ensures Moves(w, s, step, Apply(w, s, step), t)
  {
    hide Apply, Enabled;
    if step.t != t {
      OtherRecordsStay(w, s, step, t);
    } else if step.FailEarly? || step.EditSpec? || (step.Write? && !step.ok) {
      FailuresAndEditsMakeDue(w, s, step);
    } else if step.Write? {
      WritingMoves(w, s, t, step.now);
    } else if step.Snapshot? {
      SnapshotMoves(w, s, t, step.drop);
    } else {
      StageMoves(w, s, step, t);
    }
  }

  lemma StepKeepsFresh(w: World, s: State, step: Step, t: Name)
    requires Enabled(w, s, step) && CycleInv(s) && t in s.thrs && (Due(s, t) || UpToDate(w, s, t, s.thrs[t]))
    ensures t in Apply(w, s, step).thrs
    ensures Due(Apply(w, s, step), t) || UpToDate(w, Apply(w, s, step), t, Apply(w, s, step).thrs[t])
  {
    hide Apply, UsedBy, Listed, Due, Enabled, CycleInv;
    var s' := Apply(w, s, step);
    ThrottlesStay(w, s, step);
    if step == Get(t) {
      GettingStarts(w, s, t);
    } else if Due(s, t) {
      DueUntilTaken(w, s, step, t);
    } else {
      ListChangesMakeDue(w, s, step, t);
      RecordMoves(w, s, step, t);
      if s'.phase == s.phase && s'.affects == s.affects {
        SameViewSameList(s, s', t);
      }
    }
  }

  lemma GettingStarts(w: World, s: State, t: Name)
    requires Enabled(w, s, Get(t))
    ensures Apply(w, s, Get(t)).thrs[t].stage.Started?
  {
  }

  lemma SameViewSameList(s: State, s': State, t: Name)
    requires s'.phase == s.phase && s'.affects == s.affects
    ensures Listed(s', t) == Listed(s, t)
  {
  }

  lemma PruningKeepsFresh(w: World, s: State, t: Name)
    requires t in s.thrs && (Due(s, t) || UpToDate(w, s, t, s.thrs[t]))
    ensures t in Pruned(s).thrs && (Due(Pruned(s), t) || UpToDate(w, Pruned(s), t, Pruned(s).thrs[t]))
  {
    SameViewSameList(s, Pruned(s), t);
  }

  lemma StartsAreDue(w: World, s: State)
    requires Init(w, s)
    ensures forall t | t in s.thrs :: Due(s, t)
  {
  }

  lemma {:induction false} RunsStayFresh(w: World, states: seq<State>, steps: seq<Step>, i: nat)
    requires IsRun(w, states, steps) && i < |states|
    ensures FreshInv(w, states[i])
  {
    hide Apply, Due, UpToDate, Enabled, ThrInv, CycleInv, ReadInv;
    if i == 0 {
      StartsAreDue(w, states[0]);
    } else {
      var s, step := states[i - 1], steps[i - 1];
      RunsStayFresh(w, states, steps, i - 1);
      RunsKeepInv(w, states, steps, i - 1);
      assert Next(w, s, step, states[i]);
      forall t | t in states[i].thrs ensures Due(states[i], t) || UpToDate(w, states[i], t, states[i].thrs[t]) {
        ThrottlesStay(w, s, step);
        StepKeepsFresh(w, s, step, t);
        PruningKeepsFresh(w, Apply(w, s, step), t);
      }
    }
  }

  /**
   In every reachable state a throttle is due for a reconcile or is being reconciled, or its status equals
   what the lister shows now: the usage of the listed, unfinished, matching pods, and the flags it implies.
   */
  lemma DueOrConsistent(w: World, states: seq<State>, steps: seq<Step>, i: nat, t: Name)
    requires IsRun(w, states, steps) && i < |states| && t in states[i].thrs
    ensures Due(states[i], t) || !states[i].thrs[t].stage.Idle? || Consistent(w, states[i], t, states[i].thrs[t])
  {
    RunsStayFresh(w, states, steps, i);
  }

  // ---------------------------------------------------------------- no threshold is left stale

  /** The wake-up that the last reconcile asked for is still to ring. */
  ghost predicate WakeUpIsSet(s: State, t: Name, th: Thr) {
    exists d ::
      IsNextWake(Ahead(th.spec.overrides, th.at), th.at, d) && Asked(t, th.finished, d) <= s.timers
  }

  ghost predicate TimerInv(s: State, t: Name, th: Thr) {
    && th.at <= s.clock
    && (th.stage.Idle? ==> Due(s, t) || WakeUpIsSet(s, t, th))
  }

  /** Time does not go back, and a wake-up is gone only when it has rung and enqueued its throttle. */
  lemma TimersKeep(w: World, s: State, step: Step)
    requires Enabled(w, s, step)
    ensures var s' := Apply(w, s, step);
      && s.clock <= s'.clock
      && forall t, at | (t, at) in s.timers :: (t, at) in s'.timers || t in s'.dirty
  {
    if step.Tick? {
    } else {
      OthersKeepTime(w, s, step);
    }
  }

  lemma OthersKeepTime(w: World, s: State, step: Step)
    requires Enabled(w, s, step) && !step.Tick?
    ensures var s' := Apply(w, s, step);
      && s'.clock == s.clock && forall t, at | (t, at) in s.timers :: (t, at) in s'.timers || t in s'.dirty
  {
    hide Enabled, UsedBy, NextStatusOf, IsNextWake, Listed, Demand, CheckThrottle, Moved, PhaseOf, AffectsOf;
  }

  /** A reconcile comes to rest by failing, which makes its throttle due, or at its end, where it asks for a wake-up. */
  lemma ResultsAreTimed(w: World, s: State, step: Step, t: Name)
    requires Enabled(w, s, step) && t in s.thrs && TouchesRecord(step) && step.t == t
    ensures var th, th' := s.thrs[t], Apply(w, s, step).thrs[t];
      && (th'.at == th.at || th'.at <= s.clock)
      && (th'.stage.Idle? ==> Due(Apply(w, s, step), t) || WakeUpIsSet(Apply(w, s, step), t, th'))
  {
    if step.FailEarly? || step.EditSpec? || (step.Write? && !step.ok) {
      hide Due, WakeUpIsSet, NextStatusOf;
      FailuresAndEditsMakeDue(w, s, step);
    } else {
      hide Due, NextStatusOf, UsedBy;
      if step.Finish? {
        FinishSetsTheWakeUp(w, s, t, step.d);
      }
    }
  }

  lemma FinishSetsTheWakeUp(w: World, s: State, t: Name, d: Option<int>)
    requires Enabled(w, s, Finish(t, d))
    ensures WakeUpIsSet(Apply(w, s, Finish(t, d)), t, Apply(w, s, Finish(t, d)).thrs[t])
  {
    assert Asked(t, s.clock, d) <= Apply(w, s, Finish(t, d)).timers;
  }

  lemma StepKeepsTimed(w: World, s: State, step: Step, t: Name)
    requires Enabled(w, s, step) && t in s.thrs && TimerInv(s, t, s.thrs[t])
    ensures TimerInv(Apply(w, s, step), t, Apply(w, s, step).thrs[t])
  {
    hide Apply, Enabled, Due;
    TimersKeep(w, s, step);
    if TouchesRecord(step) && step.t == t {
      ResultsAreTimed(w, s, step, t);
    } else {
      if TouchesRecord(step) {
        OtherRecordsStay(w, s, step, t);
      } else {
        OthersKeepRecords(w, s, step, t);
      }
      var s' := Apply(w, s, step);
      if Due(s, t) {
        DueUntilTaken(w, s, step, t);
      } else if s'.thrs[t].stage.Idle? && t !in s'.dirty {
        assert WakeUpIsSet(s', t, s'.thrs[t]);
      } else if s'.thrs[t].stage.Idle? {
        QueuedIsDue(s', t);
      }
    }
  }

  lemma QueuedIsDue(s: State, t: Name)
    requires t in s.dirty
    ensures Due(s, t)
  {
  }

  lemma {:induction false} RunsStayTimed(w: World, states: seq<State>, steps: seq<Step>, i: nat, t: Name)
    requires IsRun(w, states, steps) && i < |states| && t in states[i].thrs
    ensures TimerInv(states[i], t, states[i].thrs[t])
  {
    hide Apply, Enabled;
    if i > 0 {
      var s, step := states[i - 1], steps[i - 1];
      assert Next(w, s, step, states[i]);
      ThrottlesStay(w, s, step);
      RunsStayTimed(w, states, steps, i - 1, t);
      StepKeepsTimed(w, s, step, t);
    }
  }

  /**
   In every reachable state a throttle is due or being reconciled, or its threshold and messages are those of this
   very moment, or the moment they changed has passed and the wake-up for it is set. That wake-up counts from the end
   of the reconcile that asked for it, so it is late by the time this reconcile took. The exception is a reconcile
   at the very instant at which an override ends.
   */
  lemma ThresholdIsCurrentOrAWakeUpIsSet(w: World, states: seq<State>, steps: seq<Step>, i: nat, t: Name)
    requires IsRun(w, states, steps) && i < |states| && t in states[i].thrs
    ensures var s, th := states[i], states[i].thrs[t];
      || Due(s, t) || !th.stage.Idle? || EndsNow(th.spec.overrides, th.at)
      || (th.status.calculated.threshold == Calculated(th.spec, s.clock).threshold
          && th.status.calculated.messages == Calculated(th.spec, s.clock).messages)
      || exists d ::
        && IsNextWake(Ahead(th.spec.overrides, th.at), th.at, Some(d))
        && th.at + d <= s.clock && (t, th.finished + d) in s.timers
  {
    hide Due;
    var s, th := states[i], states[i].thrs[t];
    RunsStayTimed(w, states, steps, i, t);
    DueOrConsistent(w, states, steps, i, t);
    if !Due(s, t) && th.stage.Idle? && !EndsNow(th.spec.overrides, th.at) {
      var d :| IsNextWake(Ahead(th.spec.overrides, th.at), th.at, d) && Asked(t, th.finished, d) <= s.timers;
      if InWindow(th.at, d, s.clock) {
        ThresholdIsConstantUntilTheTimer(th.spec, th.at, d, s.clock);
      } else {
        assert d == Some(d.value) && (t, th.finished + d.value) in Asked(t, th.finished, d);
      }
    }
  }
}
