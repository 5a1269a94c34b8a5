/**
 Throttle status and the admission decision
 (pkg/apis/schedule/v1alpha1/throttle_types.go:113-153, clusterthrottle_types.go:30-55, and the status
 that a reconcile computes, pkg/controllers/throttle_controller.go:116-133).
 */
module Throttles {
  import opened Wrappers
  import opened Names
  import opened ResourceLists
  import opened ResourceAmounts
  import opened Overrides

  datatype Status = Status(calculated: CalculatedThreshold, throttled: Flags, used: Amount)

  datatype Verdict = NotThrottled | Insufficient | Active | PodRequestsExceedsThreshold

  /** The status of an object no reconcile has touched. */
  const NEW_STATUS := Status(CalculatedThreshold(NOTHING, ZERO_TIME, []), Flags(false, map[]), NOTHING)

  /** The spec threshold stands in until a threshold has been calculated. */
  function EffectiveThreshold(spec: SpecBase, status: Status): Amount {
    if status.calculated.calculatedAt == ZERO_TIME then spec.threshold else status.calculated.threshold
  }

  /** Throttle.CheckThrottledFor: the already-used check always counts equality as throttled. */
  function CheckThrottle(
    spec: SpecBase, status: Status, request: Quantities, reserved: Amount, onEqual: bool): Verdict
  {
    var threshold := EffectiveThreshold(spec, status);
    if Blocks(FlagsOf(threshold, OfPod(request), false), request) then
      PodRequestsExceedsThreshold
    else if Blocks(status.throttled, request) then
      Active
    else if Blocks(FlagsOf(threshold, Sum(Sum(NOTHING, status.used), reserved), true), request) then
      Active
    else if
      Blocks(FlagsOf(threshold, Sum(Sum(Sum(NOTHING, status.used), OfPod(request)), reserved), onEqual), request)
    then
      Insufficient
    else
      NotThrottled
  }

  /** ClusterThrottle.CheckThrottledFor: the already-used check follows the caller's flag. */
  function CheckClusterThrottle(
    spec: SpecBase, status: Status, request: Quantities, reserved: Amount, onEqual: bool): Verdict
  {
    var threshold := EffectiveThreshold(spec, status);
    if Blocks(FlagsOf(threshold, OfPod(request), false), request) then
      PodRequestsExceedsThreshold
    else if Blocks(status.throttled, request) then
      Active
    else if Blocks(FlagsOf(threshold, Sum(Sum(NOTHING, status.used), reserved), onEqual), request) then
      Active
    else if
      Blocks(FlagsOf(threshold, Sum(Sum(Sum(NOTHING, status.used), OfPod(request)), reserved), onEqual), request)
    then
      Insufficient
    else
      NotThrottled
  }

  // ---------------------------------------------------------------- the decision as one inequality

  predicate Within(x: int, threshold: int, onEqual: bool) {
    if onEqual then x < threshold else x <= threshold
  }

  /** With this load already there, one more pod stays within the threshold wherever it asks for something. */
  ghost predicate Fits(threshold: Amount, load: Amount, request: Quantities, onEqual: bool) {
    && (threshold.counts.Some? ==> Within(Pods(load) + 1, threshold.counts.value, onEqual))
    && forall n | n in threshold.requests && At(request, n) != 0 ::
        Within(At(load.requests, n) + request[n], threshold.requests[n], onEqual)
  }

  /** The load does not already stand at or above the threshold on anything the pod asks for. */
  ghost predicate BelowThreshold(threshold: Amount, load: Amount, request: Quantities, onEqual: bool) {
    && (threshold.counts.Some? && load.counts.Some? ==> !Reaches(load.counts.value, threshold.counts.value, onEqual))
    && forall n | n in threshold.requests && At(request, n) != 0 && n in load.requests ::
        !Reaches(load.requests[n], threshold.requests[n], onEqual)
  }

  lemma BlocksMeansNotBelow(threshold: Amount, load: Amount, request: Quantities, onEqual: bool)
    ensures Blocks(FlagsOf(threshold, load, onEqual), request) <==> !BelowThreshold(threshold, load, request, onEqual)
  {
  }

  /** The last check is the inequality Fits. */
  lemma LastCheckIsFits(threshold: Amount, used: Amount, reserved: Amount, request: Quantities, onEqual: bool)
    ensures !Blocks(FlagsOf(threshold, Sum(Sum(Sum(NOTHING, used), OfPod(request)), reserved), onEqual), request)
       <==> Fits(threshold, Sum(used, reserved), request, onEqual)
  {
    var load := Sum(Sum(Sum(NOTHING, used), OfPod(request)), reserved);
    BlocksMeansNotBelow(threshold, load, request, onEqual);
    assert load.counts == Some(Pods(Sum(used, reserved)) + 1);
    forall n | n in request
      ensures n in load.requests && load.requests[n] == At(Sum(used, reserved).requests, n) + request[n]
    {
    }
  }

  ghost predicate Grows(a: Amount, b: Amount) {
    Geq(b.requests, a.requests) && (a.counts.Some? ==> b.counts.Some? && b.counts.value >= a.counts.value)
  }

  lemma BlockedStaysBlocked(threshold: Amount, a: Amount, b: Amount, request: Quantities, onEqual: bool)
    requires Grows(a, b)
    ensures Blocks(FlagsOf(threshold, a, onEqual), request) ==> Blocks(FlagsOf(threshold, b, onEqual), request)
  {
  }

  /** A status as reconcile leaves it: flags follow from usage, and only an empty threshold is undated. */
  predicate Reconciled(status: Status) {
    && status.throttled == FlagsOf(status.calculated.threshold, status.used, true)
    && (status.calculated.calculatedAt == ZERO_TIME ==> status.calculated.threshold == NOTHING)
  }

  lemma PodAloneFits(threshold: Amount, load: Amount, request: Quantities, onEqual: bool)
    requires NonNegative(request) && NonNegativeAmount(load)
    requires Fits(threshold, load, request, onEqual)
    ensures !Blocks(FlagsOf(threshold, OfPod(request), false), request)
  {
  }

  lemma LoadAloneIsBelow(
    threshold: Amount, part: Amount, load: Amount, request: Quantities, onEqual: bool, onEqual': bool)
    requires NonNegative(request) && NonNegativeAmount(load)
    requires Geq(load.requests, part.requests) && (part.counts.Some? ==> part.counts.value <= Pods(load))
    requires Fits(threshold, load, request, onEqual)
    ensures !Blocks(FlagsOf(threshold, part, onEqual'), request)
  {
  }

  lemma UsedIsPartOfLoad(used: Amount, reserved: Amount)
    requires NonNegativeAmount(used) && NonNegativeAmount(reserved)
    ensures Geq(Sum(used, reserved).requests, used.requests) && Pods(used) <= Pods(Sum(used, reserved))
    ensures NonNegativeAmount(Sum(used, reserved))
  {
  }

  lemma WhatFitsPassesTheOtherChecks(
    threshold: Amount, used: Amount, reserved: Amount, request: Quantities, onEqual: bool, onEqual': bool)
    requires NonNegative(request) && NonNegativeAmount(used) && NonNegativeAmount(reserved)
    requires Fits(threshold, Sum(used, reserved), request, onEqual)
    ensures !Blocks(FlagsOf(threshold, OfPod(request), false), request)
    ensures !Blocks(FlagsOf(threshold, used, onEqual'), request)
    ensures !Blocks(FlagsOf(threshold, Sum(Sum(NOTHING, used), reserved), onEqual'), request)
  {
    var load := Sum(used, reserved);
    SumIsCommutativeMonoid(used, reserved, NOTHING);
    UsedIsPartOfLoad(used, reserved);
    PodAloneFits(threshold, load, request, onEqual);
    LoadAloneIsBelow(threshold, load, load, request, onEqual, onEqual');
    LoadAloneIsBelow(threshold, used, load, request, onEqual, onEqual');
  }

  lemma ReconciledFlagsFollowTheThreshold(spec: SpecBase, status: Status, request: Quantities)
    requires Reconciled(status)
    ensures Blocks(status.throttled, request) ==>
      Blocks(FlagsOf(EffectiveThreshold(spec, status), status.used, true), request)
  {
  }

  /**
   Four ordered checks, one inequality: on a reconciled status a pod is admitted exactly when it fits on top
   of what is used and reserved. Hence both kinds of throttle admit the same pods, for either flag.
   */
  lemma AdmitsExactlyWhatFits(spec: SpecBase, status: Status, request: Quantities, reserved: Amount, onEqual: bool)
    requires Reconciled(status)
    requires NonNegative(request) && NonNegativeAmount(status.used) && NonNegativeAmount(reserved)
    ensures CheckThrottle(spec, status, request, reserved, onEqual) == NotThrottled
       <==> Fits(EffectiveThreshold(spec, status), Sum(status.used, reserved), request, onEqual)
    ensures CheckClusterThrottle(spec, status, request, reserved, onEqual) == NotThrottled
       <==> CheckThrottle(spec, status, request, reserved, onEqual) == NotThrottled
  {
    var threshold, load := EffectiveThreshold(spec, status), Sum(status.used, reserved);
    LastCheckIsFits(threshold, status.used, reserved, request, onEqual);
    ReconciledFlagsFollowTheThreshold(spec, status, request);
    if Fits(threshold, load, request, onEqual) {
      WhatFitsPassesTheOtherChecks(threshold, status.used, reserved, request, onEqual, true);
      WhatFitsPassesTheOtherChecks(threshold, status.used, reserved, request, onEqual, onEqual);
    }
  }

  /** Both checks go by the spec's threshold while no threshold is dated, and by the calculated one from then on. */
  lemma ThresholdInForce(spec: SpecBase, status: Status, request: Quantities, reserved: Amount, onEqual: bool)
    requires Reconciled(status)
    requires NonNegative(request) && NonNegativeAmount(status.used) && NonNegativeAmount(reserved)
    ensures var c := status.calculated;
      var threshold := if c.calculatedAt == ZERO_TIME then spec.threshold else c.threshold;
      var load := Sum(status.used, reserved);
      var v := CheckThrottle(spec, status, request, reserved, onEqual);
      var w := CheckClusterThrottle(spec, status, request, reserved, onEqual);
      && (v == NotThrottled <==> Fits(threshold, load, request, onEqual))
      && (w == NotThrottled <==> Fits(threshold, load, request, onEqual))
      && (v == PodRequestsExceedsThreshold <==> !Fits(threshold, NOTHING, request, false))
      && (w == PodRequestsExceedsThreshold <==> !Fits(threshold, NOTHING, request, false))
  {
    AdmitsExactlyWhatFits(spec, status, request, reserved, onEqual);
    OversizedPodDoesNotFit(EffectiveThreshold(spec, status), request);
  }

  /** A flag of the status is set for the count, or for something the pod asks for. */
  ghost predicate Flagged(status: Status, request: Quantities) {
    || status.throttled.counts
    || exists n :: n in request && request[n] != 0 && n in status.throttled.requests && status.throttled.requests[n]
  }

  /**
   The checks in their order, on any status: the pod by itself, the status's flags, what is used and reserved already,
   and all of it together with the pod. They differ between the two kinds in the third, where Throttle always takes
   equality as reached.
   */
  lemma ChecksInOrder(spec: SpecBase, status: Status, request: Quantities, reserved: Amount, onEqual: bool)
    ensures var c := status.calculated;
      var threshold := if c.calculatedAt == ZERO_TIME then spec.threshold else c.threshold;
      var load := Sum(status.used, reserved);
      && CheckThrottle(spec, status, request, reserved, onEqual)
         == (if !Fits(threshold, NOTHING, request, false) then PodRequestsExceedsThreshold
             else if Flagged(status, request) || !BelowThreshold(threshold, load, request, true) then Active
             else if !Fits(threshold, load, request, onEqual) then Insufficient
             else NotThrottled)
      && CheckClusterThrottle(spec, status, request, reserved, onEqual)
         == (if !Fits(threshold, NOTHING, request, false) then PodRequestsExceedsThreshold
             else if Flagged(status, request) || !BelowThreshold(threshold, load, request, onEqual) then Active
             else if !Fits(threshold, load, request, onEqual) then Insufficient
             else NotThrottled)
  {
    var threshold, load := EffectiveThreshold(spec, status), Sum(status.used, reserved);
    SumIsCommutativeMonoid(status.used, reserved, NOTHING);
    OversizedPodDoesNotFit(threshold, request);
    BlocksMeansNotBelow(threshold, load, request, true);
    BlocksMeansNotBelow(threshold, load, request, onEqual);
    LastCheckIsFits(threshold, status.used, reserved, request, onEqual);
  }

  /** The refusals, told apart. */
  lemma RefusalsAreClassified(spec: SpecBase, status: Status, request: Quantities, reserved: Amount, onEqual: bool)
    requires Reconciled(status)
    requires NonNegative(request) && NonNegativeAmount(status.used) && NonNegativeAmount(reserved)
    ensures var v := CheckThrottle(spec, status, request, reserved, onEqual);
      var threshold, load := EffectiveThreshold(spec, status), Sum(status.used, reserved);
      && (v == PodRequestsExceedsThreshold <==> !Fits(threshold, NOTHING, request, false))
      && (v == Active <==> Fits(threshold, NOTHING, request, false) && !BelowThreshold(threshold, load, request, true))
      && (v == Insufficient <==>
            && Fits(threshold, NOTHING, request, false) && BelowThreshold(threshold, load, request, true)
            && !Fits(threshold, load, request, onEqual))
  {
    var threshold, load := EffectiveThreshold(spec, status), Sum(status.used, reserved);
    LastCheckIsFits(threshold, status.used, reserved, request, onEqual);
    OversizedPodDoesNotFit(threshold, request);
    FlaggedIsReached(spec, status, request, reserved);
  }

  lemma OversizedPodDoesNotFit(threshold: Amount, request: Quantities)
    ensures Blocks(FlagsOf(threshold, OfPod(request), false), request) <==> !Fits(threshold, NOTHING, request, false)
  {
  }

  /** A set flag means the load has reached the threshold too, so the flags only anticipate the next check. */
  lemma FlaggedIsReached(spec: SpecBase, status: Status, request: Quantities, reserved: Amount)
    requires Reconciled(status) && NonNegativeAmount(status.used) && NonNegativeAmount(reserved)
    ensures var threshold, load := EffectiveThreshold(spec, status), Sum(status.used, reserved);
      && (Blocks(status.throttled, request) ==> !BelowThreshold(threshold, load, request, true))
      && (!Blocks(FlagsOf(threshold, Sum(Sum(NOTHING, status.used), reserved), true), request) <==>
            BelowThreshold(threshold, load, request, true))
  {
    var threshold, load := EffectiveThreshold(spec, status), Sum(status.used, reserved);
    SumIsCommutativeMonoid(status.used, reserved, NOTHING);
    UsedIsPartOfLoad(status.used, reserved);
    BlocksMeansNotBelow(threshold, load, request, true);
    ReconciledFlagsFollowTheThreshold(spec, status, request);
    BlockedStaysBlocked(threshold, status.used, load, request, true);
  }

  /**
   The two kinds of throttle can name a refusal differently, and only in one way: the caller asked for the
   strict flag, and the load stands at the threshold without exceeding it and is partly reserved, so that
   Throttle says active where ClusterThrottle says insufficient.
   */
  lemma VerdictsDifferExactlyAtTheThreshold(
    spec: SpecBase, status: Status, request: Quantities, reserved: Amount, onEqual: bool)
    requires Reconciled(status)
    requires NonNegative(request) && NonNegativeAmount(status.used) && NonNegativeAmount(reserved)
    ensures var v := CheckThrottle(spec, status, request, reserved, onEqual);
      var w := CheckClusterThrottle(spec, status, request, reserved, onEqual);
      var threshold, load := EffectiveThreshold(spec, status), Sum(status.used, reserved);
      && (v != w ==> v == Active && w == Insufficient)
      && (v != w <==>
            && !onEqual && Fits(threshold, NOTHING, request, false) && !Blocks(status.throttled, request)
            && !BelowThreshold(threshold, load, request, true) && BelowThreshold(threshold, load, request, false))
  {
    var threshold, load := EffectiveThreshold(spec, status), Sum(status.used, reserved);
    SumIsCommutativeMonoid(status.used, reserved, NOTHING);
    AdmitsExactlyWhatFits(spec, status, request, reserved, onEqual);
    BlocksMeansNotBelow(threshold, OfPod(request), request, false);
    BlocksMeansNotBelow(threshold, load, request, true);
    BlocksMeansNotBelow(threshold, load, request, false);
  }

  /** A threshold of one pod, and one pod reserved: the next one is refused under two names. */
  lemma VerdictsDiffer()
    ensures exists spec: SpecBase, status, request, reserved ::
      && Reconciled(status) && NonNegative(request) && NonNegativeAmount(status.used) && NonNegativeAmount(reserved)
      && CheckThrottle(spec, status, request, reserved, false) == Active
      && CheckClusterThrottle(spec, status, request, reserved, false) == Insufficient
  {
    var spec := SpecBase("", Amount(Some(1), map[]), []);
    var request: Quantities, reserved := map[], Amount(Some(1), map[]);
    assert Reconciled(NEW_STATUS) && EffectiveThreshold(spec, NEW_STATUS) == spec.threshold;
    assert Sum(Sum(NOTHING, NOTHING), reserved).counts == Some(1);
    assert Sum(Sum(Sum(NOTHING, NOTHING), OfPod(request)), reserved).counts == Some(2);
    assert CheckThrottle(spec, NEW_STATUS, request, reserved, false) == Active;
    assert CheckClusterThrottle(spec, NEW_STATUS, request, reserved, false) == Insufficient;
  }

  // ---------------------------------------------------------------- growing demand

  /** A verdict may stay, or move from not-throttled over insufficient to active; exceeds stands by itself. */
  predicate MovesUp(v: Verdict, v': Verdict) {
    && (v.PodRequestsExceedsThreshold? <==> v'.PodRequestsExceedsThreshold?)
    && (v.Active? ==> v'.Active?)
    && (v.Insufficient? ==> v'.Insufficient? || v'.Active?)
  }

  lemma SumGrows(a: Amount, a': Amount, b: Amount, b': Amount)
    requires Grows(a, a') && Grows(b, b') && NonNegativeAmount(a') && NonNegativeAmount(b')
    ensures Grows(Sum(a, b), Sum(a', b')) && NonNegativeAmount(Sum(a', b'))
  {
  }

  lemma ChecksAreMonotone(threshold: Amount, used: Amount, used': Amount, request: Quantities,
                          reserved: Amount, reserved': Amount, onEqual: bool)
    requires Grows(used, used') && Grows(reserved, reserved')
    requires NonNegative(request) && NonNegativeAmount(used') && NonNegativeAmount(reserved')
    ensures Blocks(FlagsOf(threshold, Sum(Sum(NOTHING, used), reserved), onEqual), request)
        ==> Blocks(FlagsOf(threshold, Sum(Sum(NOTHING, used'), reserved'), onEqual), request)
    ensures Blocks(FlagsOf(threshold, Sum(Sum(Sum(NOTHING, used), OfPod(request)), reserved), onEqual), request)
        ==> Blocks(FlagsOf(threshold, Sum(Sum(Sum(NOTHING, used'), OfPod(request)), reserved'), onEqual), request)
  {
    SumGrows(NOTHING, NOTHING, used, used');
    var base, base' := Sum(NOTHING, used), Sum(NOTHING, used');
    SumGrows(base, base', reserved, reserved');
    SumGrows(base, base', OfPod(request), OfPod(request));
    SumGrows(Sum(base, OfPod(request)), Sum(base', OfPod(request)), reserved, reserved');
    BlockedStaysBlocked(threshold, Sum(base, reserved), Sum(base', reserved'), request, onEqual);
    BlockedStaysBlocked(threshold, Sum(Sum(base, OfPod(request)), reserved),
                        Sum(Sum(base', OfPod(request)), reserved'), request, onEqual);
  }

  /** With flags and threshold fixed, more usage or more reservations only move the verdict one way. */
  lemma VerdictIsMonotone(spec: SpecBase, status: Status, status': Status, request: Quantities,
                          reserved: Amount, reserved': Amount, onEqual: bool)
    requires status' == status.(used := status'.used)
    requires Grows(status.used, status'.used) && Grows(reserved, reserved')
    requires NonNegative(request) && NonNegativeAmount(status'.used) && NonNegativeAmount(reserved')
    ensures
      var v := CheckThrottle(spec, status, request, reserved, onEqual);
      var v' := CheckThrottle(spec, status', request, reserved', onEqual);
      MovesUp(v, v')
  {
    hide Sum, Blocks, FlagsOf, NonNegative, NonNegativeAmount, Grows;
    var threshold := EffectiveThreshold(spec, status);
    ChecksAreMonotone(threshold, status.used, status'.used, request, reserved, reserved', true);
    ChecksAreMonotone(threshold, status.used, status'.used, request, reserved, reserved', onEqual);
    assert EffectiveThreshold(spec, status') == threshold && status'.throttled == status.throttled;
  }

  lemma ClusterVerdictIsMonotone(spec: SpecBase, status: Status, status': Status, request: Quantities,
                                 reserved: Amount, reserved': Amount, onEqual: bool)
    requires status' == status.(used := status'.used)
    requires Grows(status.used, status'.used) && Grows(reserved, reserved')
    requires NonNegative(request) && NonNegativeAmount(status'.used) && NonNegativeAmount(reserved')
    ensures
      var v := CheckClusterThrottle(spec, status, request, reserved, onEqual);
      var v' := CheckClusterThrottle(spec, status', request, reserved', onEqual);
      MovesUp(v, v')
  {
    hide Sum, Blocks, FlagsOf, NonNegative, NonNegativeAmount, Grows;
    var threshold := EffectiveThreshold(spec, status);
    ChecksAreMonotone(threshold, status.used, status'.used, request, reserved, reserved', onEqual);
    assert EffectiveThreshold(spec, status') == threshold && status'.throttled == status.throttled;
  }

  // ---------------------------------------------------------------- the status a reconcile computes

  /** The calculated threshold is kept, with its old date, when neither threshold nor messages changed. */
  ghost function NextCalculated(spec: SpecBase, status: Status, now: Time): CalculatedThreshold {
    var c := Calculated(spec, now);
    if status.calculated.threshold != c.threshold || status.calculated.messages != c.messages then c
    else status.calculated
  }

  ghost function NextStatus(spec: SpecBase, status: Status, used: Amount, now: Time): Status {
    var calculated := NextCalculated(spec, status, now);
    Status(calculated, FlagsOf(calculated.threshold, used, true), used)
  }

  method ReconcileStatus(spec: SpecBase, status: Status, used: Amount, now: Time) returns (s: Status)
    ensures s == NextStatus(spec, status, used, now)
  {
    var c := CalculateThreshold(spec, now);
    var calculated := status.calculated;
    if status.calculated.threshold != c.threshold || status.calculated.messages != c.messages {
      calculated := c;
    }
    var throttled := IsThrottled(calculated.threshold, used, true);
    s := Status(calculated, throttled, used);
  }

  /** Reconciling keeps a status reconciled, and the status of a new object is. */
  lemma ReconcileLeavesReconciled(spec: SpecBase, status: Status, used: Amount, now: Time)
    requires Reconciled(status)
    requires now != ZERO_TIME
    ensures Reconciled(NextStatus(spec, status, used, now)) && Reconciled(NEW_STATUS)
  {
  }

  /**
   The written status has today's threshold and messages. If they are not those it had, it is dated at the reconcile's
   own time, and otherwise it keeps its date.
   */
  lemma ChangedStatusIsDatedNow(spec: SpecBase, status: Status, used: Amount, now: Time)
    ensures var c := NextStatus(spec, status, used, now).calculated;
      var before, today := status.calculated, Calculated(spec, now);
      && c.threshold == today.threshold && c.messages == today.messages
      && (c.threshold != before.threshold || c.messages != before.messages ==> c.calculatedAt == now)
      && (c.threshold == before.threshold && c.messages == before.messages ==> c.calculatedAt == before.calculatedAt)
  {
  }

  /** A second reconcile that calculates the same threshold and messages changes nothing. */
  lemma ReconcileReachesFixpoint(spec: SpecBase, status: Status, used: Amount, now: Time, later: Time)
    requires Calculated(spec, later) == Calculated(spec, now).(calculatedAt := later)
    ensures NextStatus(spec, NextStatus(spec, status, used, now), used, later) == NextStatus(spec, status, used, now)
  {
  }

  /**
   After a reconcile the check uses the calculated threshold, except for a status that was never dated and
   whose calculated threshold is empty: then it falls back to a spec threshold that says something else.
   */
  lemma CheckUsesTheCalculatedThreshold(spec: SpecBase, status: Status, used: Amount, now: Time)
    requires Reconciled(status)
    requires now != ZERO_TIME
    ensures EffectiveThreshold(spec, NextStatus(spec, status, used, now)) == Calculated(spec, now).threshold
       <==> !(&& status.calculated.calculatedAt == ZERO_TIME
              && status.calculated.messages == Calculated(spec, now).messages
              && Calculated(spec, now).threshold == NOTHING && spec.threshold != NOTHING)
  {
  }

  /** Such a spec exists: an active override that lists nothing. */
  lemma AnEmptyOverrideIsIgnoredAtFirst()
    ensures exists spec: SpecBase, now: Time ::
      && now != ZERO_TIME
      && EffectiveThreshold(spec, NextStatus(spec, NEW_STATUS, NOTHING, now)) != Calculated(spec, now).threshold
  {
    var o := Override(Blank, Blank, NOTHING);
    var spec := SpecBase("", Amount(Some(1), map[]), [o]);
    assert spec.overrides[0] == o && ActiveAt(spec.overrides[0], 1);
    assert SomeActive(spec.overrides, 1);
    assert spec.overrides[..0] == [] && spec.overrides[1..] == [];
    assert Merged([], 1) == NOTHING;
    assert Merged(spec.overrides, 1) == NOTHING;
    assert Messages(spec.overrides) == [];
    CheckUsesTheCalculatedThreshold(spec, NEW_STATUS, NOTHING, 1);
  }

  // ---------------------------------------------------------------- the verdicts of one check

  /** The lists a check returns: every throttle that affects the pod, and the refusals by kind. */
  datatype Checked = Checked(active: set<Name>, insufficient: set<Name>, exceeds: set<Name>, affected: set<Name>) {
    function Record(t: Name, v: Verdict): Checked {
      var c := this.(affected := affected + {t});
      match v
      case Active => c.(active := active + {t})
      case Insufficient => c.(insufficient := insufficient + {t})
      case PodRequestsExceedsThreshold => c.(exceeds := exceeds + {t})
      case NotThrottled => c
    }

    /** Every throttle is affected, and listed under its verdict and no other. */
    ghost predicate Sorts(verdicts: map<Name, Verdict>) {
      && affected == verdicts.Keys
      && (forall t :: t in active <==> t in verdicts && verdicts[t] == Active)
      && (forall t :: t in insufficient <==> t in verdicts && verdicts[t] == Insufficient)
      && (forall t :: t in exceeds <==> t in verdicts && verdicts[t] == PodRequestsExceedsThreshold)
    }

    predicate Admits() {
      active == {} && insufficient == {} && exceeds == {}
    }
  }

  lemma NothingSorted(verdicts: map<Name, Verdict>)
    ensures Checked({}, {}, {}, {}).Sorts(verdicts - verdicts.Keys)
  {
  }

  lemma RecordSortsOneMore(c: Checked, verdicts: map<Name, Verdict>, todo: set<Name>, t: Name)
    requires c.Sorts(verdicts - todo) && t in todo && t in verdicts
    ensures c.Record(t, verdicts[t]).Sorts(verdicts - (todo - {t}))
  {
  }

  lemma AdmitsMeansNoRefusal(c: Checked, verdicts: map<Name, Verdict>)
    requires c.Sorts(verdicts)
    ensures c.Admits() <==> forall t | t in verdicts :: verdicts[t] == NotThrottled
  {
  }
}
