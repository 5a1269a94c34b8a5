/** Runs of the step machine from beginning to end: what its results are about does happen. */
module SampleRuns {
  import opened Wrappers
  import opened Names
  import opened ResourceLists
  import opened ResourceAmounts
  import opened Overrides
  import opened Throttles
  import opened Protocol
  import opened ProtocolResults
  import opened SequentialRuns

  /** The states that steps lead through. */
  lemma {:induction false} LeadingIsARun(w: World, s: State, steps: seq<Step>, s': State) returns (states: seq<State>)
    requires Leads(w, s, steps, s')
    ensures |states| == |steps| + 1 && states[0] == s && states[|steps|] == s'
    ensures forall i | 0 <= i < |steps| :: Next(w, states[i], steps[i], states[i + 1])
    decreases |steps|
  {
    hide Enabled, Apply, Pruned;
    if steps == [] {
      states := [s];
    } else {
      var rest := LeadingIsARun(w, Pruned(Apply(w, s, steps[0])), steps[1..], s');
      states := [s] + rest;
      forall i | 0 <= i < |steps| ensures Next(w, states[i], steps[i], states[i + 1]) {
        if i > 0 {
          assert Next(w, rest[i - 1], steps[1..][i - 1], rest[i]);
        }
      }
    }
  }

  const THR := Name("ns", "t")
  const POD := Name("ns", "p")
  const ONE_POD := Amount(Some(1), map[])
  const START := State(
    map[POD := Pending], map[POD := {THR}],
    map[THR := Thr(SpecBase("", ONE_POD, []), NEW_STATUS, map[], Idle, {}, 0, 0)],
    {THR}, {}, {}, NoCycle, 1, {})

  lemma StartIsInitial(w: World, quota: Quota)
    requires quota(THR) == ONE_POD
    ensures Init(w, START) && StartsWithin(w, START, quota)
  {
    assert Listed(START, THR) == {} && Demand(START, THR) == {};
    assert AmountsOf(w, {}) == map[];
  }

  lemma StartHasRoom(w: World)
    requires w == map[POD := map[]]
    ensures AllPass(w, START, POD)
  {
    var th := START.thrs[THR];
    assert Reconciled(th.status);
    ThresholdInForce(th.spec, th.status, map[], NOTHING, false);
    assert Total(th.reserved) == NOTHING;
  }

  /** A quota of one pod is used up: on a run within the quota a pod is admitted, and is the whole demand. */
  lemma AQuotaIsUsedUp() returns (w: World, states: seq<State>, steps: seq<Step>, quota: Quota)
    ensures IsQuotaRun(w, states, steps, quota)
    ensures Demand(states[|steps|], THR) == {POD} && quota(THR).counts == Some(1)
  {
    hide Leads, AllPass, Init, StartsWithin, Next;
    w := map[POD := map[]];
    quota := _ => ONE_POD;
    StartIsInitial(w, quota);
    StartHasRoom(w);
    steps := PodWithRoomGetsIn(w, START, POD);
    states := LeadingIsARun(w, START, steps, Admitted(w, START, POD));
    CyclesKeepThresholds(states, steps, quota);
    AdmittedIsTheDemand(w);
    assert RequestsAreNonNegative(w);
  }

  lemma AdmittedIsTheDemand(w: World)
    ensures Demand(Admitted(w, START, POD), THR) == {POD}
  {
  }

  lemma CyclesKeepThresholds(states: seq<State>, steps: seq<Step>, quota: Quota)
    requires OfCycle(steps) && |states| == |steps| + 1
    ensures forall i | 0 <= i < |steps| :: KeepsThresholdsAndLabels(states[i], steps[i], quota)
  {
    assert forall i | 0 <= i < |steps| :: steps[i] in steps;
  }

  // ---------------------------------------------------------------- what may become of a pod in flight

  /** From the end of its scheduling cycle until the lister shows that it has finished, a pod is demand. */
  lemma DemandLastsUntilFinished(s: State, p: Name, t: Name)
    requires t in AffectsOf(s, p)
    ensures p in Demand(WithPhase(s, p, InFlight), t) && p in Demand(WithPhase(s, p, BoundUnseen), t)
    ensures p in Demand(WithPhase(s, p, Running), t)
    ensures p !in Demand(WithPhase(s, p, Pending), t) && p !in Demand(WithPhase(s, p, Unreserving), t)
    ensures p !in Demand(WithPhase(s, p, Phase.Finished), t) && p !in Demand(WithPhase(s, p, Gone), t)
  {
  }

  function Notices(s: State, p: Name, deleted: bool): State {
    s.(inbox := s.inbox + {Notice(p, AffectsOf(s, p), deleted)})
  }

  lemma MayBeBound(w: World, s: State, p: Name)
    requires PhaseOf(s, p).InFlight? && s.cycle.NoCycle?
    ensures Leads(w, s, [BindOk(p)] + [See(p, Running)], Notices(WithPhase(s, p, Running), p, false))
  {
    hide Leads;
    var bound := WithPhase(s, p, BoundUnseen);
    OneStepLeads(w, s, BindOk(p));
    OneStepLeads(w, bound, See(p, Running));
    assert bound.phase[p := Running] == s.phase[p := Running];
    LeadsOn(w, s, [BindOk(p)], bound, [See(p, Running)], Notices(WithPhase(s, p, Running), p, false));
  }

  lemma MayFinish(w: World, s: State, p: Name)
    requires PhaseOf(s, p).Running? && s.cycle.NoCycle?
    ensures Leads(w, s, [See(p, Phase.Finished)], Notices(WithPhase(s, p, Phase.Finished), p, false))
  {
    hide Leads;
    OneStepLeads(w, s, See(p, Phase.Finished));
  }

  lemma MayGo(w: World, s: State, p: Name)
    requires PhaseOf(s, p).Finished? && s.cycle.NoCycle?
    ensures Leads(w, s, [See(p, Gone)], Notices(WithPhase(s, p, Gone), p, true))
  {
    hide Leads;
    OneStepLeads(w, s, See(p, Gone));
  }

  lemma DeletionMayBeDelivered(w: World, s: State, p: Name) returns (s': State)
    requires Notice(p, AffectsOf(s, p), true) in s.inbox && s.cycle.NoCycle?
    ensures Leads(w, s, [Deliver(Notice(p, AffectsOf(s, p), true))], s')
    ensures s'.phase == s.phase && s'.affects == s.affects && AffectsOf(s, p) <= s'.dirty
    ensures forall t | t in s'.thrs && t in AffectsOf(s, p) :: p !in s'.thrs[t].reserved
  {
    hide Leads;
    s' := Apply(w, s, Deliver(Notice(p, AffectsOf(s, p), true)));
    OneStepLeads(w, s, Deliver(Notice(p, AffectsOf(s, p), true)));
  }

  /** It is bound, listed as running, finishes, is deleted, and by then has left every reservation. */
  lemma APodInFlightMayLiveAndLeave(w: World, s: State, p: Name) returns (s': State)
    requires PhaseOf(s, p).InFlight? && s.cycle.NoCycle?
    ensures Leads(w, s, [BindOk(p)] + [See(p, Running)] + [See(p, Phase.Finished)] + [See(p, Gone)]
                        + [Deliver(Notice(p, AffectsOf(s, p), true))], s')
    ensures PhaseOf(s', p).Gone? && AffectsOf(s, p) <= s'.dirty
    ensures forall t | t in s'.thrs && t in AffectsOf(s, p) :: p !in s'.thrs[t].reserved
  {
    hide Leads;
    var running := Notices(WithPhase(s, p, Running), p, false);
    var finished := Notices(WithPhase(running, p, Phase.Finished), p, false);
    var gone := Notices(WithPhase(finished, p, Gone), p, true);
    MayBeBound(w, s, p);
    MayFinish(w, running, p);
    MayGo(w, finished, p);
    s' := DeletionMayBeDelivered(w, gone, p);
    var steps := [BindOk(p)] + [See(p, Running)];
    LeadsOn(w, s, steps, running, [See(p, Phase.Finished)], finished);
    LeadsOn(w, s, steps + [See(p, Phase.Finished)], finished, [See(p, Gone)], gone);
    LeadsOn(w, s, steps + [See(p, Phase.Finished)] + [See(p, Gone)], gone,
            [Deliver(Notice(p, AffectsOf(s, p), true))], s');
  }

  /** Its bind fails, it is un-reserved everywhere, and it is pending again. */
  lemma APodInFlightMayStartOver(w: World, s: State, p: Name) returns (steps: seq<Step>, s': State)
    requires PhaseOf(s, p).InFlight? && s.cycle.NoCycle? && AffectsOf(s, p) <= s.thrs.Keys
    ensures Leads(w, s, [BindFail(p)] + (steps + [UnreserveDone(p)]), s')
    ensures PhaseOf(s', p).Pending? && forall t | t in AffectsOf(s, p) && t in s'.thrs :: p !in s'.thrs[t].reserved
  {
    hide Leads, Demand;
    var failed := Apply(w, s, BindFail(p));
    OneStepLeads(w, s, BindFail(p));
    steps := UnreservesLead(w, failed, p, AffectsOf(s, p));
    var gone := Unreserved(failed, p, AffectsOf(s, p));
    s' := Apply(w, gone, UnreserveDone(p));
    OneStepLeads(w, gone, UnreserveDone(p));
    hide *;
    LeadsOn(w, failed, steps, gone, [UnreserveDone(p)], s');
    LeadsOn(w, s, [BindFail(p)], failed, steps + [UnreserveDone(p)], s');
  }

  // ---------------------------------------------------------------- what else may happen

  /** Time comes to a pending wake-up, and it rings. */
  lemma AWakeUpMayRing(w: World, s: State, t: Name, at: Time)
    requires (t, at) in s.timers && t in s.thrs && s.clock <= at && Pruned(s) == s
    ensures Leads(w, s, [Tick(at)] + [Ring(t, at)],
                  s.(clock := at, timers := s.timers - {(t, at)}, dirty := s.dirty + {t}))
  {
    hide Leads, Pruned;
    var s1 := s.(clock := at);
    var s2 := s1.(timers := s.timers - {(t, at)}, dirty := s.dirty + {t});
    NothingToPrune(s, s1);
    NothingToPrune(s1, s2);
    OneStepLeads(w, s, Tick(at));
    OneStepLeads(w, s1, Ring(t, at));
    LeadsOn(w, s, [Tick(at)], s1, [Ring(t, at)], s2);
  }

  /** A spec is edited between reconciles, and the handler of that event enqueues the throttle. */
  lemma ASpecMayBeEdited(w: World, s: State, t: Name, spec: SpecBase) returns (s': State)
    requires t in s.thrs && s.thrs[t].stage.Idle? && Pruned(s) == s
    ensures Leads(w, s, [EditSpec(t, spec)] + [Deliver(Notice(t, {t}, false))], s')
    ensures s'.thrs == s.thrs[t := s.thrs[t].(spec := spec)] && t in s'.dirty
  {
    hide Leads, Pruned;
    var edited := Apply(w, s, EditSpec(t, spec));
    NothingToPrune(s, edited);
    OneStepLeads(w, s, EditSpec(t, spec));
    s' := Apply(w, edited, Deliver(Notice(t, {t}, false)));
    NothingToPrune(edited, s');
    OneStepLeads(w, edited, Deliver(Notice(t, {t}, false)));
    assert s'.thrs == edited.thrs;
    LeadsOn(w, s, [EditSpec(t, spec)], edited, [Deliver(Notice(t, {t}, false))], s');
  }

  /** A failed key is queued again. */
  lemma AFailedKeyMayBeRetried(w: World, s: State, t: Name)
    requires t in s.delayed && Pruned(s) == s
    ensures Leads(w, s, [Fire(t)], s.(delayed := s.delayed - {t}, dirty := s.dirty + {t}))
  {
    hide Leads, Pruned;
    NothingToPrune(s, Apply(w, s, Fire(t)));
    OneStepLeads(w, s, Fire(t));
  }

  /** A cycle ends early, before any reservation or after some; in the second case they are to be taken back. */
  lemma ACycleMayEndEarly(w: World, s: State)
    ensures s.cycle.Checking? ==> Leads(w, s, [Abort], s.(cycle := NoCycle))
    ensures s.cycle.Reserving? ==> Leads(w, s, [GiveUp], WithPhase(s, s.cycle.pod, Unreserving).(cycle := NoCycle))
  {
    if s.cycle.Checking? {
      OneStepLeads(w, s, Abort);
    } else if s.cycle.Reserving? {
      OneStepLeads(w, s, GiveUp);
    }
  }

  /** A pending pod is deleted, or relabelled, while no cycle is about it. */
  lemma APendingPodMayChange(w: World, s: State, p: Name, ts: set<Name>)
    requires PhaseOf(s, p).Pending? && s.cycle.NoCycle? && ts <= s.thrs.Keys
    ensures Leads(w, s, [DeletePending(p)], WithPhase(s, p, Gone))
    ensures Leads(w, s, [Relabel(p, ts)], s.(affects := s.affects[p := ts]))
  {
    OneStepLeads(w, s, DeletePending(p));
    OneStepLeads(w, s, Relabel(p, ts));
  }
}
