/**
 The scheduler plugin: one verdict from both controllers, and reservations in both
 (pkg/scheduler_plugin/plugin.go:148-257).
 */
module Plugin {
  import opened Wrappers
  import opened Names
  import opened ResourceLists
  import opened ResourceAmounts
  import opened Overrides
  import opened Throttles
  import opened PodModel
  import opened ReservedAmounts
  import opened ThrottleControllers
  import opened ClusterThrottleControllers

  datatype Kind = OfThrottle | OfClusterThrottle

  datatype Reason = Reason(kind: Kind, verdict: Verdict, names: set<Name>)

  datatype PreFilterStatus = Success | Error(error: string) | Unschedulable(reasons: seq<Reason>)

  function ReasonFor(kind: Kind, verdict: Verdict, names: set<Name>): seq<Reason> {
    if names == {} then [] else [Reason(kind, verdict, names)]
  }

  /** Reasons in the order of severity, cluster throttles first. */
  function Reasons(c: Checked, cluster: Checked): seq<Reason> {
    ReasonFor(OfClusterThrottle, PodRequestsExceedsThreshold, cluster.exceeds)
    + ReasonFor(OfThrottle, PodRequestsExceedsThreshold, c.exceeds)
    + ReasonFor(OfClusterThrottle, Active, cluster.active)
    + ReasonFor(OfThrottle, Active, c.active)
    + ReasonFor(OfClusterThrottle, Insufficient, cluster.insufficient)
    + ReasonFor(OfThrottle, Insufficient, c.insufficient)
  }

  function VerdictsFor(kind: Kind, verdicts: map<Name, Verdict>, cluster: map<Name, Verdict>): map<Name, Verdict> {
    if kind.OfThrottle? then verdicts else cluster
  }

  ghost function Refusing(verdicts: map<Name, Verdict>): set<Name> {
    set t | t in verdicts && verdicts[t] != NotThrottled
  }

  /** A reason is a refusal, and names the throttles that give it, of which there are some. */
  ghost predicate NamesExactly(r: Reason, verdicts: map<Name, Verdict>) {
    && r.names != {} && r.verdict != NotThrottled
    && forall t :: t in r.names <==> t in verdicts && verdicts[t] == r.verdict
  }

  /** Every refusal is named under its kind and verdict, nothing else is, and no reason is empty. */
  ghost predicate Explains(reasons: seq<Reason>, verdicts: map<Name, Verdict>, cluster: map<Name, Verdict>) {
    && (forall r | r in reasons :: NamesExactly(r, VerdictsFor(r.kind, verdicts, cluster)))
    && (forall kind, t | t in Refusing(VerdictsFor(kind, verdicts, cluster)) ::
          exists r :: r in reasons && r.kind == kind && t in r.names)
  }

  function NamesFor(c: Checked, cluster: Checked, kind: Kind, verdict: Verdict): set<Name> {
    var lists := if kind.OfThrottle? then c else cluster;
    match verdict
    case PodRequestsExceedsThreshold => lists.exceeds
    case Active => lists.active
    case Insufficient => lists.insufficient
    case NotThrottled => {}
  }

  lemma ReasonsHave(c: Checked, cluster: Checked, r: Reason)
    ensures r in Reasons(c, cluster) <==> r.names != {} && r.names == NamesFor(c, cluster, r.kind, r.verdict)
  {
  }

  lemma ReasonsExplain(c: Checked, cluster: Checked, verdicts: map<Name, Verdict>, clusterVerdicts: map<Name, Verdict>)
    requires c.Sorts(verdicts) && cluster.Sorts(clusterVerdicts)
    ensures Explains(Reasons(c, cluster), verdicts, clusterVerdicts)
  {
    var reasons := Reasons(c, cluster);
    forall r | r in reasons ensures NamesExactly(r, VerdictsFor(r.kind, verdicts, clusterVerdicts)) {
      ReasonsHave(c, cluster, r);
    }
    forall kind, t | t in Refusing(VerdictsFor(kind, verdicts, clusterVerdicts))
      ensures exists r :: r in reasons && r.kind == kind && t in r.names
    {
      var v := VerdictsFor(kind, verdicts, clusterVerdicts)[t];
      var k := if kind.OfThrottle? then c else cluster;
      var r := Reason(kind, v, if v.Active? then k.active else if v.Insufficient? then k.insufficient else k.exceeds);
      ReasonsHave(c, cluster, r);
      assert r in reasons;
    }
  }

  lemma RollBackRestores(m: map<Name, Amount>, pod: Pod, matches: bool)
    ensures MovedEntry(MovedEntry(m, pod, false, matches), pod, matches, false) == m <==> (matches ==> pod.name !in m)
  {
  }

  /** Where a reason stands: refusals that no waiting will end come first, then active throttles, then full ones. */
  function Place(kind: Kind, verdict: Verdict): nat {
    match (verdict, kind)
    case (PodRequestsExceedsThreshold, OfClusterThrottle) => 0
    case (PodRequestsExceedsThreshold, OfThrottle) => 1
    case (Active, OfClusterThrottle) => 2
    case (Active, OfThrottle) => 3
    case (Insufficient, OfClusterThrottle) => 4
    case (Insufficient, OfThrottle) => 5
    case (NotThrottled, _) => 6
  }

  ghost predicate UpTo(reasons: seq<Reason>, place: nat) {
    forall i | 0 <= i < |reasons| :: Place(reasons[i].kind, reasons[i].verdict) < place
  }

  /** The reasons come in their places, one for each verdict and kind at most. */
  ghost predicate InOrder(reasons: seq<Reason>) {
    forall i, j | 0 <= i < j < |reasons| ::
      Place(reasons[i].kind, reasons[i].verdict) < Place(reasons[j].kind, reasons[j].verdict)
  }

  lemma OneMoreInOrder(reasons: seq<Reason>, kind: Kind, verdict: Verdict, names: set<Name>)
    requires InOrder(reasons) && UpTo(reasons, Place(kind, verdict))
    ensures InOrder(reasons + ReasonFor(kind, verdict, names))
    ensures UpTo(reasons + ReasonFor(kind, verdict, names), Place(kind, verdict) + 1)
  {
  }

  lemma ReasonsAreInOrder(c: Checked, cluster: Checked)
    ensures InOrder(Reasons(c, cluster))
  {
    assert InOrder([]) && UpTo([], 0);
    hide InOrder, UpTo, ReasonFor;
    OneMoreInOrder([], OfClusterThrottle, PodRequestsExceedsThreshold, cluster.exceeds);
    var r1 := [] + ReasonFor(OfClusterThrottle, PodRequestsExceedsThreshold, cluster.exceeds);
    OneMoreInOrder(r1, OfThrottle, PodRequestsExceedsThreshold, c.exceeds);
    var r2 := r1 + ReasonFor(OfThrottle, PodRequestsExceedsThreshold, c.exceeds);
    OneMoreInOrder(r2, OfClusterThrottle, Active, cluster.active);
    var r3 := r2 + ReasonFor(OfClusterThrottle, Active, cluster.active);
    OneMoreInOrder(r3, OfThrottle, Active, c.active);
    var r4 := r3 + ReasonFor(OfThrottle, Active, c.active);
    OneMoreInOrder(r4, OfClusterThrottle, Insufficient, cluster.insufficient);
    var r5 := r4 + ReasonFor(OfClusterThrottle, Insufficient, cluster.insufficient);
    OneMoreInOrder(r5, OfThrottle, Insufficient, c.insufficient);
    assert r5 + ReasonFor(OfThrottle, Insufficient, c.insufficient) == Reasons(c, cluster);
  }

  /** The count, and every resource the pod asks for, stay within the threshold in force. */
  ghost predicate StaysWithin(spec: SpecBase, status: Status, reserved: Amount, request: Quantities) {
    var c := status.calculated;
    var threshold := if c.calculatedAt == ZERO_TIME then spec.threshold else c.threshold;
    && (threshold.counts.Some? ==> Pods(status.used) + Pods(reserved) + 1 <= threshold.counts.value)
    && forall n | n in threshold.requests && n in request && request[n] != 0 ::
         At(status.used.requests, n) + At(reserved.requests, n) + request[n] <= threshold.requests[n]
  }

  lemma PassesIfWithin(spec: SpecBase, status: Status, reserved: Amount, request: Quantities)
    requires Reconciled(status)
    requires NonNegative(request) && NonNegativeAmount(status.used) && NonNegativeAmount(reserved)
    ensures CheckThrottle(spec, status, request, reserved, false) == NotThrottled
      <==> StaysWithin(spec, status, reserved, request)
    ensures CheckClusterThrottle(spec, status, request, reserved, false) == NotThrottled
      <==> StaysWithin(spec, status, reserved, request)
  {
    hide CheckThrottle, CheckClusterThrottle;
    ThresholdInForce(spec, status, request, reserved, false);
    AtOfSum(status.used, reserved, "");
    forall n {
      AtOfSum(status.used, reserved, n);
    }
  }

  class KubeThrottler {
    const throttleCtr: ThrottleController
    const clusterThrottleCtr: ClusterThrottleController

    constructor (throttleCtr: ThrottleController, clusterThrottleCtr: ClusterThrottleController)
      ensures this.throttleCtr == throttleCtr && this.clusterThrottleCtr == clusterThrottleCtr
    {
      this.throttleCtr, this.clusterThrottleCtr := throttleCtr, clusterThrottleCtr;
    }

    /** The two controllers have caches of their own. */
    ghost predicate Valid()
      reads throttleCtr, throttleCtr.cache, throttleCtr.cache.cache.Values
      reads clusterThrottleCtr, clusterThrottleCtr.cache, clusterThrottleCtr.cache.cache.Values
    {
      && throttleCtr.Valid() && clusterThrottleCtr.Valid()
      && throttleCtr.cache.Footprint() !! clusterThrottleCtr.cache.Footprint()
    }

    /** The verdict every matching throttle gives, of one kind. */
    ghost function VerdictsOf(kind: Kind, pod: Pod): map<Name, Verdict>
      requires Valid()
      reads throttleCtr, throttleCtr.cache, throttleCtr.cache.cache.Values, throttleCtr.cache.Lists()
      reads clusterThrottleCtr, clusterThrottleCtr.cache, clusterThrottleCtr.cache.cache.Values,
            clusterThrottleCtr.cache.Lists()
    {
      if kind.OfThrottle? then throttleCtr.Verdicts(pod, false) else clusterThrottleCtr.Verdicts(pod, false)
    }

    /** Statuses as reconciles leave them, and no negative amounts, on the throttles that match. */
    ghost predicate Sound(pod: Pod)
      requires Valid()
      reads throttleCtr, throttleCtr.cache, throttleCtr.cache.cache.Values, throttleCtr.cache.Lists()
      reads clusterThrottleCtr, clusterThrottleCtr.cache, clusterThrottleCtr.cache.cache.Values,
            clusterThrottleCtr.cache.Lists()
    {
      && NonNegative(pod.request)
      && (forall t | t in throttleCtr.Matching(pod) ::
            && Reconciled(throttleCtr.throttles[t].status) && NonNegativeAmount(throttleCtr.throttles[t].status.used)
            && NonNegativeAmount(Total(throttleCtr.cache.On(t))))
      && (forall t | t in clusterThrottleCtr.Matching(pod) ::
            && Reconciled(clusterThrottleCtr.throttles[t].status)
            && NonNegativeAmount(clusterThrottleCtr.throttles[t].status.used)
            && NonNegativeAmount(Total(clusterThrottleCtr.cache.On(t))))
    }

    /**
     With the pod on top of what is used and reserved, no matching throttle's threshold is exceeded on the count or on
     anything the pod asks for; to reach it exactly is allowed.
     */
    ghost predicate HasRoom(pod: Pod)
      requires Valid()
      reads throttleCtr, throttleCtr.cache, throttleCtr.cache.cache.Values, throttleCtr.cache.Lists()
      reads clusterThrottleCtr, clusterThrottleCtr.cache, clusterThrottleCtr.cache.cache.Values,
            clusterThrottleCtr.cache.Lists()
    {
      && (forall t | t in throttleCtr.Matching(pod) ::
            StaysWithin(throttleCtr.throttles[t].spec, throttleCtr.throttles[t].status,
                        Total(throttleCtr.cache.On(t)), pod.request))
      && (forall t | t in clusterThrottleCtr.Matching(pod) ::
            StaysWithin(clusterThrottleCtr.throttles[t].spec, clusterThrottleCtr.throttles[t].status,
                        Total(clusterThrottleCtr.cache.On(t)), pod.request))
    }

    lemma PassingIsRoom(pod: Pod)
      requires Valid() && Sound(pod)
      ensures HasRoom(pod) <==> forall kind, t | t in VerdictsOf(kind, pod) :: VerdictsOf(kind, pod)[t] == NotThrottled
    {
      hide CheckThrottle, CheckClusterThrottle, Total, StaysWithin, Reconciled, NonNegativeAmount, NonNegative;
      forall t | t in throttleCtr.Matching(pod)
        ensures t in VerdictsOf(OfThrottle, pod)
        ensures VerdictsOf(OfThrottle, pod)[t] == NotThrottled <==>
          StaysWithin(throttleCtr.throttles[t].spec, throttleCtr.throttles[t].status,
                      Total(throttleCtr.cache.On(t)), pod.request)
      {
        var thr := throttleCtr.throttles[t];
        PassesIfWithin(thr.spec, thr.status, Total(throttleCtr.cache.On(t)), pod.request);
      }
      forall t | t in clusterThrottleCtr.Matching(pod)
        ensures t in VerdictsOf(OfClusterThrottle, pod)
        ensures VerdictsOf(OfClusterThrottle, pod)[t] == NotThrottled <==>
          StaysWithin(clusterThrottleCtr.throttles[t].spec, clusterThrottleCtr.throttles[t].status,
                      Total(clusterThrottleCtr.cache.On(t)), pod.request)
      {
        var thr := clusterThrottleCtr.throttles[t];
        PassesIfWithin(thr.spec, thr.status, Total(clusterThrottleCtr.cache.On(t)), pod.request);
      }
    }

    method CheckClusterThrottles(pod: Pod) returns (r: Result<Checked, string>)
      requires Valid()
      ensures r.Err? <==> clusterThrottleCtr.LookupFails(pod)
      ensures r.Ok? ==> r.value.Sorts(old(VerdictsOf(OfClusterThrottle, pod)))
    {
      r := clusterThrottleCtr.CheckThrottled(pod, false);
    }

    /**
     A pod passes exactly when every throttle and cluster throttle that matches it finds room for it;
     otherwise the reasons name exactly the throttles that refuse it.
     */
    method PreFilter(pod: Pod) returns (s: PreFilterStatus)
      requires Valid()
      ensures s.Error? <==> throttleCtr.LookupFails(pod) || clusterThrottleCtr.LookupFails(pod)
      ensures s.Success? <==>
        && !s.Error?
        && forall kind, t | t in old(VerdictsOf(kind, pod)) :: old(VerdictsOf(kind, pod))[t] == NotThrottled
      ensures old(Sound(pod)) ==> (s.Success? <==> !s.Error? && old(HasRoom(pod)))
      ensures s.Unschedulable? ==>
        && s.reasons != [] && InOrder(s.reasons)
        && Explains(s.reasons, old(VerdictsOf(OfThrottle, pod)), old(VerdictsOf(OfClusterThrottle, pod)))
    {
      hide CheckThrottle, CheckClusterThrottle, Total, Checked.Sorts, Explains, InOrder, Reasons, Sound, HasRoom,
        ThrottleController.Matching, ClusterThrottleController.Matching, ThrottleController.LookupFails,
        ClusterThrottleController.LookupFails, PodAmounts.Valid;
      if Sound(pod) {
        PassingIsRoom(pod);
      }
      ghost var verdicts, clusterVerdicts := old(VerdictsOf(OfThrottle, pod)), old(VerdictsOf(OfClusterThrottle, pod));
      var c := throttleCtr.CheckThrottled(pod, false);
      if c.Err? {
        return Error(c.error);
      }
      assert forall t :: clusterThrottleCtr.cache.On(t) == old(clusterThrottleCtr.cache.On(t));
      assert clusterVerdicts == VerdictsOf(OfClusterThrottle, pod);
      var cluster := CheckClusterThrottles(pod);
      if cluster.Err? {
        return Error(cluster.error);
      }
      s := Verdict(c.value, cluster.value, verdicts, clusterVerdicts);
    }

    /** The six lists put together. */
    method Verdict(
      c: Checked, cluster: Checked, ghost verdicts: map<Name, Verdict>, ghost clusterVerdicts: map<Name, Verdict>)
      returns (s: PreFilterStatus)
      requires c.Sorts(verdicts) && cluster.Sorts(clusterVerdicts)
      ensures !s.Error?
      ensures s.Success? <==>
        && (forall t | t in verdicts :: verdicts[t] == NotThrottled)
        && (forall t | t in clusterVerdicts :: clusterVerdicts[t] == NotThrottled)
      ensures s.Unschedulable? ==>
        s.reasons != [] && InOrder(s.reasons) && Explains(s.reasons, verdicts, clusterVerdicts)
    {
      AdmitsMeansNoRefusal(c, verdicts);
      AdmitsMeansNoRefusal(cluster, clusterVerdicts);
      if c.Admits() && cluster.Admits() {
        return Success;
      }
      ReasonsExplain(c, cluster, verdicts, clusterVerdicts);
      ReasonsAreInOrder(c, cluster);
      return Unschedulable(Reasons(c, cluster));
    }

    /** The throttles of one kind that match a pod; none when the lookup fails. */
    ghost function Hit(kind: Kind, pod: Pod): set<Name>
      reads throttleCtr, clusterThrottleCtr
    {
      if kind.OfThrottle? then if throttleCtr.LookupFails(pod) then {} else throttleCtr.Matching(pod)
      else if clusterThrottleCtr.LookupFails(pod) then {} else clusterThrottleCtr.Matching(pod)
    }

    /** Every reservation of one kind after a pod left or joined the throttles it hits. */
    twostate predicate Moved(kind: Kind, pod: Pod, leaves: bool, joins: bool)
      requires old(Valid()) && Valid()
      reads throttleCtr, throttleCtr.cache, throttleCtr.cache.cache.Values, throttleCtr.cache.Lists()
      reads clusterThrottleCtr, clusterThrottleCtr.cache, clusterThrottleCtr.cache.cache.Values,
            clusterThrottleCtr.cache.Lists()
    {
      if kind.OfThrottle? then
        forall t :: throttleCtr.cache.On(t)
          == MovedEntry(old(throttleCtr.cache.On(t)), pod, leaves && t in Hit(kind, pod), joins && t in Hit(kind, pod))
      else
        forall t :: clusterThrottleCtr.cache.On(t)
          == MovedEntry(old(clusterThrottleCtr.cache.On(t)), pod,
                        leaves && t in Hit(kind, pod), joins && t in Hit(kind, pod))
    }

    /** What neither cache nor listers of a controller saw written leaves its reservations as they are. */
    twostate lemma NamespacedSideStays(pod: Pod)
      requires old(throttleCtr.Valid())
      requires unchanged(throttleCtr, throttleCtr.cache)
      requires unchanged(throttleCtr.cache.cache.Values) && unchanged(throttleCtr.cache.Lists())
      ensures throttleCtr.Valid()
      ensures forall t :: throttleCtr.cache.On(t) == MovedEntry(old(throttleCtr.cache.On(t)), pod, false, false)
    {
      assert forall t :: throttleCtr.cache.On(t) == old(throttleCtr.cache.On(t));
    }

    twostate lemma ClusterSideStays(pod: Pod)
      requires old(clusterThrottleCtr.Valid())
      requires unchanged(clusterThrottleCtr, clusterThrottleCtr.cache)
      requires unchanged(clusterThrottleCtr.cache.cache.Values) && unchanged(clusterThrottleCtr.cache.Lists())
      ensures clusterThrottleCtr.Valid()
      ensures forall t ::
        clusterThrottleCtr.cache.On(t) == MovedEntry(old(clusterThrottleCtr.cache.On(t)), pod, false, false)
    {
      assert forall t :: clusterThrottleCtr.cache.On(t) == old(clusterThrottleCtr.cache.On(t));
    }

    /** One controller's part; the other controller's reservations stay as they are. */
    method InThrottles(pod: Pod, reserve: bool) returns (ok: bool)
      requires Valid()
      modifies throttleCtr.cache.Footprint()
      ensures Valid() && Moved(OfThrottle, pod, !reserve, reserve) && Moved(OfClusterThrottle, pod, false, false)
      ensures ok <==> !throttleCtr.LookupFails(pod)
      ensures fresh(throttleCtr.cache.Footprint() - old(throttleCtr.cache.Footprint()))
    {
      hide ThrottleController.LookupFails, ClusterThrottleController.LookupFails, ThrottleController.Matching,
        ClusterThrottleController.Matching, MovedEntry;
      var r;
      if reserve {
        r := throttleCtr.Reserve(pod);
      } else {
        r := throttleCtr.UnReserve(pod);
      }
      ok := r.Ok?;
      ClusterSideStays(pod);
    }

    method InClusterThrottles(pod: Pod, reserve: bool) returns (ok: bool)
      requires Valid()
      modifies clusterThrottleCtr.cache.Footprint()
      ensures Valid() && Moved(OfClusterThrottle, pod, !reserve, reserve) && Moved(OfThrottle, pod, false, false)
      ensures ok <==> !clusterThrottleCtr.LookupFails(pod)
      ensures fresh(clusterThrottleCtr.cache.Footprint() - old(clusterThrottleCtr.cache.Footprint()))
    {
      hide ThrottleController.LookupFails, ClusterThrottleController.LookupFails, ThrottleController.Matching,
        ClusterThrottleController.Matching, MovedEntry;
      var r;
      if reserve {
        r := clusterThrottleCtr.Reserve(pod);
      } else {
        r := clusterThrottleCtr.UnReserve(pod);
      }
      ok := r.Ok?;
      NamespacedSideStays(pod);
    }

    /** Both controllers are asked, whether or not the first one fails. */
    method Reserve(pod: Pod) returns (ok: bool)
      requires Valid()
      modifies throttleCtr.cache.Footprint(), clusterThrottleCtr.cache.Footprint()
      ensures Valid() && Moved(OfThrottle, pod, false, true) && Moved(OfClusterThrottle, pod, false, true)
      ensures fresh(throttleCtr.cache.Footprint() - old(throttleCtr.cache.Footprint()))
      ensures fresh(clusterThrottleCtr.cache.Footprint() - old(clusterThrottleCtr.cache.Footprint()))
      ensures ok <==> !throttleCtr.LookupFails(pod) && !clusterThrottleCtr.LookupFails(pod)
    {
      hide Hit, ThrottleController.LookupFails, ClusterThrottleController.LookupFails;
      ok := InThrottles(pod, true);
      var ok' := InClusterThrottles(pod, true);
      ok := ok && ok';
    }

    method Unreserve(pod: Pod)
      requires Valid()
      modifies throttleCtr.cache.Footprint(), clusterThrottleCtr.cache.Footprint()
      ensures Valid() && Moved(OfThrottle, pod, true, false) && Moved(OfClusterThrottle, pod, true, false)
    {
      hide Hit, ThrottleController.LookupFails, ClusterThrottleController.LookupFails;
      var _ := InThrottles(pod, false);
      var _ := InClusterThrottles(pod, false);
    }

    /** Un-reserving right after reserving gives back exactly what was there, unless the pod was reserved before. */
    method ReserveThenUnreserve(pod: Pod)
      requires Valid()
      modifies throttleCtr.cache.Footprint(), clusterThrottleCtr.cache.Footprint()
      ensures Valid()
      ensures forall t ::
        throttleCtr.cache.On(t) == old(throttleCtr.cache.On(t))
        <==> (t in Hit(OfThrottle, pod) ==> pod.name !in old(throttleCtr.cache.On(t)))
      ensures forall t ::
        clusterThrottleCtr.cache.On(t) == old(clusterThrottleCtr.cache.On(t))
        <==> (t in Hit(OfClusterThrottle, pod) ==> pod.name !in old(clusterThrottleCtr.cache.On(t)))
    {
      hide Hit, MovedEntry, ThrottleController.LookupFails, ClusterThrottleController.LookupFails, PodAmounts.Valid;
      ghost var hit, clusterHit := Hit(OfThrottle, pod), Hit(OfClusterThrottle, pod);
      var _ := Reserve(pod);
      assert forall t :: throttleCtr.cache.On(t) == MovedEntry(old(throttleCtr.cache.On(t)), pod, false, t in hit);
      assert forall t ::
        clusterThrottleCtr.cache.On(t) == MovedEntry(old(clusterThrottleCtr.cache.On(t)), pod, false, t in clusterHit);
      Unreserve(pod);
      forall m: map<Name, Amount>, matches {
        RollBackRestores(m, pod, matches);
      }
    }
  }
}
