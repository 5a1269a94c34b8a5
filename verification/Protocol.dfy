/**
 The reservation protocol as a step machine: a sequential scheduler cycle that checks and reserves,
 asynchronous binding, pod events with handlers that run later, and reconciles split into snapshot,
 status write and one un-reservation at a time
 (pkg/controllers/throttle_controller.go, pkg/controllers/controller.go, pkg/scheduler_plugin/plugin.go).
 */
module Protocol {
  import opened Wrappers
  import opened Names
  import opened ResourceLists
  import opened ResourceAmounts
  import opened Overrides
  import opened Throttles

  /**
   A pod as the scheduler and the pod lister see it. A bound pod is unseen until the lister shows it;
   from Running on the lister has shown it scheduled.
   */
  datatype Phase = Pending | InFlight | Unreserving | BoundUnseen | Running | Finished | Gone

  predicate Live(ph: Phase) {
    ph.InFlight? || ph.BoundUnseen? || ph.Running?
  }

  predicate Seen(ph: Phase) {
    ph.Running? || ph.Finished? || ph.Gone?
  }

  /** Where the (at most one) reconcile of a throttle stands. */
  datatype Stage =
    | Idle
    | Started
    | Snapshotted(listed: set<Name>, drop: set<Name>)
    | Written(drop: set<Name>)

  /**
   A throttle and its reservations. `counted` and `at` record the pods and the time behind its status, and `finished`
   when the last reconcile that succeeded came to its end.
   */
  datatype Thr = Thr(
    spec: SpecBase, status: Status, reserved: map<Name, Amount>, stage: Stage,
    counted: set<Name>, at: Time, finished: Time)

  /** A reservation total read by the check; `held` and `demand` record whose it was and who was live then. */
  datatype Read = Read(thr: Name, amount: Amount, held: set<Name>, demand: set<Name>)

  datatype Cycle =
    | NoCycle
    | Checking(pod: Name, passed: set<Name>, read: Option<Read>)
    | Reserving(pod: Name, done: set<Name>)

  /** An event whose handler has not run yet: the pod or throttle it is about, and the throttles it will enqueue. */
  datatype Notice = Notice(about: Name, thrs: set<Name>, deleted: bool)

  datatype State = State(
    phase: map<Name, Phase>,
    affects: map<Name, set<Name>>,
    thrs: map<Name, Thr>,
    dirty: set<Name>,
    delayed: set<Name>,
    inbox: set<Notice>,
    cycle: Cycle,
    clock: Time,
    timers: set<(Name, Time)>)

  /** The request of each pod, which never changes. */
  type World = map<Name, Quantities>

  datatype Step =
    | StartCycle(p: Name) | ReadReserved(t: Name) | Judge | Abort | BeginReserve | ReserveOn(t: Name) | Assume | GiveUp
    | BindOk(p: Name) | BindFail(p: Name) | UnreserveOn(p: Name, t: Name) | UnreserveDone(p: Name)
    | DeletePending(p: Name)
    | See(p: Name, ph: Phase) | Deliver(n: Notice) | Relabel(p: Name, ts: set<Name>)
    | EditSpec(t: Name, spec: SpecBase) | Enqueue(t: Name) | Fire(t: Name)
    | Get(t: Name) | FailEarly(t: Name) | Snapshot(t: Name, drop: set<Name>) | Write(t: Name, now: Time, ok: bool)
    | DropOne(t: Name, p: Name) | Finish(t: Name, d: Option<int>) | Tick(to: Time) | Ring(t: Name, at: Time)

  function RequestOf(w: World, p: Name): Quantities {
    if p in w then w[p] else map[]
  }

  function PhaseOf(s: State, p: Name): Phase {
    if p in s.phase then s.phase[p] else Pending
  }

  function AffectsOf(s: State, p: Name): set<Name> {
    if p in s.affects then s.affects[p] else {}
  }

  function AmountsOf(w: World, ps: set<Name>): map<Name, Amount> {
    map p | p in ps :: OfPod(RequestOf(w, p))
  }

  /** What a set of pods uses, as a reconcile sums it. */
  ghost function UsedBy(w: World, ps: set<Name>): Amount {
    Total(AmountsOf(w, ps))
  }

  /** The reserved-or-running pods a throttle is to hold within its threshold. */
  function Demand(s: State, t: Name): set<Name> {
    set p | p in s.phase && Live(s.phase[p]) && t in AffectsOf(s, p)
  }

  /** The pods a reconcile of the throttle would list as unfinished now. */
  function Listed(s: State, t: Name): set<Name> {
    set p | p in s.phase && s.phase[p].Running? && t in AffectsOf(s, p)
  }

  function ListedFinished(s: State, t: Name): set<Name> {
    set p | p in s.phase && s.phase[p].Finished? && t in AffectsOf(s, p)
  }

  // ---------------------------------------------------------------- steps

  ghost predicate MayBecomeSeen(before: Phase, after: Phase) {
    || (before.BoundUnseen? && Seen(after))
    || (before.Running? && (after.Finished? || after.Gone?))
    || (before.Finished? && after.Gone?)
  }

  ghost predicate Enabled(w: World, s: State, step: Step) {
    match step
    case StartCycle(p) => s.cycle.NoCycle? && PhaseOf(s, p).Pending?
    case ReadReserved(t) =>
      && s.cycle.Checking? && s.cycle.read.None? && t in s.thrs
      && t in AffectsOf(s, s.cycle.pod) && t !in s.cycle.passed
    case Judge => s.cycle.Checking? && s.cycle.read.Some? && s.cycle.read.value.thr in s.thrs
    case Abort => s.cycle.Checking?
    case BeginReserve => s.cycle.Checking? && s.cycle.read.None? && AffectsOf(s, s.cycle.pod) <= s.cycle.passed
    case ReserveOn(t) => s.cycle.Reserving? && t in s.thrs && t in AffectsOf(s, s.cycle.pod)
    case Assume => s.cycle.Reserving? && AffectsOf(s, s.cycle.pod) <= s.cycle.done
    case GiveUp => s.cycle.Reserving?
    case BindOk(p) => PhaseOf(s, p).InFlight?
    case BindFail(p) => PhaseOf(s, p).InFlight?
    case UnreserveOn(p, t) => PhaseOf(s, p).Unreserving? && t in s.thrs && t in AffectsOf(s, p)
    case UnreserveDone(p) =>
      PhaseOf(s, p).Unreserving? && forall t | t in AffectsOf(s, p) && t in s.thrs :: p !in s.thrs[t].reserved
    case DeletePending(p) => PhaseOf(s, p).Pending? && !InCycle(s, p)
    case See(p, ph) => MayBecomeSeen(PhaseOf(s, p), ph)
    case Deliver(n) => n in s.inbox
    case Relabel(p, ts) =>
      && ts <= s.thrs.Keys && !InCycle(s, p)
      && (PhaseOf(s, p).Pending? || PhaseOf(s, p).Running? || PhaseOf(s, p).Finished?)
    case EditSpec(t, spec) => t in s.thrs && s.thrs[t].stage.Idle?
    case Enqueue(t) => t in s.thrs
    case Fire(t) => t in s.delayed
    case Get(t) => t in s.dirty && t in s.thrs && s.thrs[t].stage.Idle?
    case FailEarly(t) => t in s.thrs && s.thrs[t].stage.Started?
    case Snapshot(t, drop) =>
      && t in s.thrs && s.thrs[t].stage.Started?
      && Listed(s, t) <= drop <= Listed(s, t) + ListedFinished(s, t)
    case Write(t, now, ok) =>
      && t in s.thrs && s.thrs[t].stage.Snapshotted? && now != ZERO_TIME && now <= s.clock
      && (!ok ==> s.thrs[t].status != NextStatusOf(w, s.thrs[t], now))
    case DropOne(t, p) => t in s.thrs && s.thrs[t].stage.Written? && p in s.thrs[t].stage.drop
    case Finish(t, d) =>
      && t in s.thrs && s.thrs[t].stage == Written({})
      && IsNextWake(Ahead(s.thrs[t].spec.overrides, s.thrs[t].at), s.thrs[t].at, d)
    case Tick(to) => to >= s.clock
    case Ring(t, at) => (t, at) in s.timers && at <= s.clock && t in s.thrs
  }

  predicate InCycle(s: State, p: Name) {
    !s.cycle.NoCycle? && s.cycle.pod == p
  }

  ghost function NextStatusOf(w: World, th: Thr, now: Time): Status
    requires th.stage.Snapshotted?
  {
    NextStatus(th.spec, th.status, UsedBy(w, th.stage.listed), now)
  }

  /** The wake-up asked for at the end of a reconcile: it rings the duration later. */
  function Asked(t: Name, clock: Time, d: Option<int>): set<(Name, Time)> {
    if d.Some? then {(t, clock + d.value)} else {}
  }

  function WithThr(s: State, t: Name, th: Thr): State {
    s.(thrs := s.thrs[t := th])
  }

  function WithPhase(s: State, p: Name, ph: Phase): State {
    s.(phase := s.phase[p := ph])
  }

  function WithoutReservation(th: Thr, p: Name): Thr {
    th.(reserved := th.reserved - {p})
  }

  function WithReservation(w: World, th: Thr, p: Name): Thr {
    th.(reserved := th.reserved[p := OfPod(RequestOf(w, p))])
  }

  /** The pod update handler's move: unreserved on old but not new throttles, reserved on new but not old. */
  function Moved(w: World, s: State, p: Name, ts: set<Name>): map<Name, Thr> {
    var from, to := AffectsOf(s, p) - ts, ts - AffectsOf(s, p);
    map t | t in s.thrs ::
      if t in from then WithoutReservation(s.thrs[t], p)
      else if t in to then WithReservation(w, s.thrs[t], p)
      else s.thrs[t]
  }

  ghost function Apply(w: World, s: State, step: Step): (s': State)
    requires Enabled(w, s, step)
    ensures s'.thrs.Keys == s.thrs.Keys
  {
    match step
    case StartCycle(p) => s.(cycle := Checking(p, {}, None))
    case ReadReserved(t) =>
      s.(cycle := s.cycle.(read := Some(Read(t, Total(s.thrs[t].reserved), s.thrs[t].reserved.Keys, Demand(s, t)))))
    case Judge =>
      var r := s.cycle.read.value;
      var v := CheckThrottle(s.thrs[r.thr].spec, s.thrs[r.thr].status, RequestOf(w, s.cycle.pod), r.amount, false);
      if v == NotThrottled then s.(cycle := Checking(s.cycle.pod, s.cycle.passed + {r.thr}, None))
      else s.(cycle := NoCycle)
    case Abort => s.(cycle := NoCycle)
    case BeginReserve => s.(cycle := Reserving(s.cycle.pod, {}))
    case ReserveOn(t) =>
      WithThr(s, t, WithReservation(w, s.thrs[t], s.cycle.pod)).(cycle := s.cycle.(done := s.cycle.done + {t}))
    case Assume => WithPhase(s, s.cycle.pod, InFlight).(cycle := NoCycle)
    case GiveUp => WithPhase(s, s.cycle.pod, Unreserving).(cycle := NoCycle)
    case BindOk(p) => WithPhase(s, p, BoundUnseen)
    case BindFail(p) => WithPhase(s, p, Unreserving)
    case UnreserveOn(p, t) => WithThr(s, t, WithoutReservation(s.thrs[t], p))
    case UnreserveDone(p) => WithPhase(s, p, Pending)
    case DeletePending(p) => WithPhase(s, p, Gone)
    case See(p, ph) =>
      WithPhase(s, p, ph).(inbox := s.inbox + {Notice(p, AffectsOf(s, p), ph.Gone?)})
    case Deliver(n) =>
      s.(inbox := s.inbox - {n}, dirty := s.dirty + n.thrs,
         thrs := map t | t in s.thrs ::
           if n.deleted && t in n.thrs then WithoutReservation(s.thrs[t], n.about) else s.thrs[t])
    case Relabel(p, ts) =>
      var s' := s.(affects := s.affects[p := ts]);
      if PhaseOf(s, p).Pending? then s'
      else s'.(thrs := Moved(w, s, p, ts), dirty := s.dirty + AffectsOf(s, p) + ts)
    case EditSpec(t, spec) => WithThr(s, t, s.thrs[t].(spec := spec)).(inbox := s.inbox + {Notice(t, {t}, false)})
    case Enqueue(t) => s.(dirty := s.dirty + {t})
    case Fire(t) => s.(delayed := s.delayed - {t}, dirty := s.dirty + {t})
    case Get(t) => WithThr(s, t, s.thrs[t].(stage := Started)).(dirty := s.dirty - {t})
    case FailEarly(t) => WithThr(s, t, s.thrs[t].(stage := Idle)).(delayed := s.delayed + {t})
    case Snapshot(t, drop) => WithThr(s, t, s.thrs[t].(stage := Snapshotted(Listed(s, t), drop)))
    case Write(t, now, ok) =>
      var th := s.thrs[t];
      var th' := th.(status := NextStatusOf(w, th, now), counted := th.stage.listed, at := now,
                     stage := if ok then Written(th.stage.drop) else Idle);
      if ok then WithThr(s, t, th') else WithThr(s, t, th').(delayed := s.delayed + {t})
    case DropOne(t, p) =>
      var th := s.thrs[t];
      WithThr(s, t, WithoutReservation(th, p).(stage := Written(th.stage.drop - {p})))
    case Finish(t, d) =>
      WithThr(s, t, s.thrs[t].(stage := Idle, finished := s.clock)).(timers := s.timers + Asked(t, s.clock, d))
    case Tick(to) => s.(clock := to)
    case Ring(t, at) => s.(timers := s.timers - {(t, at)}, dirty := s.dirty + {t})
  }

  /** The record of who has been live and matching all along since the reservation was read. */
  function Pruned(s: State): State {
    if s.cycle.Checking? && s.cycle.read.Some? then
      var r := s.cycle.read.value;
      s.(cycle := s.cycle.(read := Some(r.(demand := r.demand * Demand(s, r.thr)))))
    else s
  }

  ghost predicate Next(w: World, s: State, step: Step, s': State) {
    Enabled(w, s, step) && s' == Pruned(Apply(w, s, step))
  }

  /** An empty or freshly reconciled start; every throttle's creation event has enqueued it. */
  ghost predicate Init(w: World, s: State) {
    && s.cycle.NoCycle? && s.inbox == {} && s.timers == {}
    && (forall p :: PhaseOf(s, p).Pending? || Seen(PhaseOf(s, p)))
    && (forall t | t in s.thrs ::
          && t in s.dirty && s.thrs[t].stage.Idle? && s.thrs[t].reserved == map[]
          && s.thrs[t].counted == Listed(s, t) && s.thrs[t].status.used == UsedBy(w, Listed(s, t))
          && Reconciled(s.thrs[t].status) && s.thrs[t].at <= s.clock)
  }

  ghost predicate IsRun(w: World, states: seq<State>, steps: seq<Step>) {
    && |states| == |steps| + 1
    && Init(w, states[0])
    && forall i | 0 <= i < |steps| :: Next(w, states[i], steps[i], states[i + 1])
  }

  // ---------------------------------------------------------------- no pod is uncounted

  /** A pod in a throttle's demand is behind its status or among its reservations. */
  ghost predicate Covered(s: State, t: Name, counted: set<Name>, th: Thr) {
    forall p | p in Demand(s, t) :: p in counted || p in th.reserved
  }

  ghost predicate AllSeen(s: State, ps: set<Name>) {
    forall p | p in ps :: Seen(PhaseOf(s, p))
  }

  /** What is about to be dropped has been seen, and is either counted or no longer live. */
  ghost predicate DropIsSafe(s: State, drop: set<Name>, counted: set<Name>) {
    AllSeen(s, drop) && forall p | p in drop && Live(PhaseOf(s, p)) :: p in counted
  }

  ghost predicate ThrInv(w: World, s: State, t: Name, th: Thr) {
    && th.status.used == UsedBy(w, th.counted) && Reconciled(th.status)
    && (forall p | p in th.reserved :: th.reserved[p] == OfPod(RequestOf(w, p)))
    && AllSeen(s, th.counted)
    && Covered(s, t, th.counted, th)
    && (th.stage.Snapshotted? ==>
          && AllSeen(s, th.stage.listed) && Covered(s, t, th.stage.listed, th)
          && DropIsSafe(s, th.stage.drop, th.stage.listed))
    && (th.stage.Written? ==> DropIsSafe(s, th.stage.drop, th.counted))
  }

  ghost predicate CycleInv(s: State) {
    && (!s.cycle.NoCycle? ==> PhaseOf(s, s.cycle.pod).Pending?)
    && (s.cycle.Reserving? ==>
          forall t | t in s.cycle.done && t in s.thrs :: s.cycle.pod in s.thrs[t].reserved)
    && (forall n | n in s.inbox && n.deleted :: PhaseOf(s, n.about).Gone?)
  }

  ghost predicate ReadCovers(s: State, r: Read) {
    r.thr in s.thrs ==>
      && r.demand <= Demand(s, r.thr)
      && (forall q | q in r.demand :: q in r.held || q in s.thrs[r.thr].counted)
      && (s.thrs[r.thr].stage.Snapshotted? ==>
            forall q | q in r.demand :: q in r.held || q in s.thrs[r.thr].stage.listed)
  }

  ghost predicate ReadInv(w: World, s: State) {
    s.cycle.Checking? && s.cycle.read.Some? ==>
      && s.cycle.read.value.amount == UsedBy(w, s.cycle.read.value.held)
      && ReadCovers(s, s.cycle.read.value)
  }

  ghost predicate Inv(w: World, s: State) {
    && (forall t | t in s.thrs :: ThrInv(w, s, t, s.thrs[t]))
    && CycleInv(s)
    && ReadInv(w, s)
  }

  lemma InitKeepsInv(w: World, s: State)
    requires Init(w, s)
    ensures Inv(w, s)
  {
    forall t | t in s.thrs ensures ThrInv(w, s, t, s.thrs[t]) {
      forall p | p in Demand(s, t) ensures p in Listed(s, t) {
        assert PhaseOf(s, p).Pending? || Seen(PhaseOf(s, p));
      }
    }
  }

  /** Pods only leave demand and only become seen. */
  ghost predicate Evolves(s: State, s': State) {
    forall p ::
      && (Live(PhaseOf(s', p)) ==> Live(PhaseOf(s, p)) && AffectsOf(s', p) == AffectsOf(s, p))
      && (Seen(PhaseOf(s, p)) ==> Seen(PhaseOf(s', p)))
  }

  lemma EvolvingKeepsThrInv(w: World, s: State, s': State, t: Name, th: Thr)
    requires Evolves(s, s') && ThrInv(w, s, t, th)
    ensures ThrInv(w, s', t, th)
    ensures Demand(s', t) <= Demand(s, t)
  {
    forall p | p in Demand(s', t) ensures p in Demand(s, t) {
      assert Live(PhaseOf(s', p));
    }
  }

  lemma ReservingKeepsThrInv(w: World, s: State, t: Name, th: Thr, p: Name)
    requires ThrInv(w, s, t, th)
    ensures ThrInv(w, s, t, WithReservation(w, th, p))
  {
  }

  lemma UnreservingKeepsThrInv(w: World, s: State, t: Name, th: Thr, p: Name)
    requires ThrInv(w, s, t, th)
    requires p in Demand(s, t) ==> p in th.counted && !th.stage.Snapshotted?
    ensures ThrInv(w, s, t, WithoutReservation(th, p))
  {
  }

  /** Nothing but the coverage of the pod itself depends on where its labels put it. */
  lemma AffectsChangeKeepsThrInv(w: World, s: State, s': State, p: Name, t: Name, th: Thr)
    requires s'.phase == s.phase && ThrInv(w, s, t, th)
    requires forall q | q != p :: AffectsOf(s', q) == AffectsOf(s, q)
    requires t in AffectsOf(s', p) ==> t in AffectsOf(s, p) || p in th.reserved || !Live(PhaseOf(s, p))
    ensures ThrInv(w, s', t, th)
  {
    forall q | q in Demand(s', t) ensures q in Demand(s, t) || q in th.reserved {
    }
    assert forall q :: PhaseOf(s', q) == PhaseOf(s, q);
  }

  /** The handler's atomic move keeps every throttle covered, at whatever stage its reconcile stands. */
  lemma RelabelKeepsThrInv(w: World, s: State, p: Name, ts: set<Name>, s': State, t: Name)
    requires Enabled(w, s, Relabel(p, ts)) && s' == Apply(w, s, Relabel(p, ts))
    requires t in s.thrs && ThrInv(w, s, t, s.thrs[t])
    ensures ThrInv(w, s', t, s'.thrs[t])
  {
    var th := s.thrs[t];
    if !PhaseOf(s, p).Pending? && t in ts - AffectsOf(s, p) {
      ReservingKeepsThrInv(w, s, t, th, p);
      AffectsChangeKeepsThrInv(w, s, s', p, t, WithReservation(w, th, p));
    } else {
      AffectsChangeKeepsThrInv(w, s, s', p, t, th);
      if !PhaseOf(s, p).Pending? && t in AffectsOf(s, p) - ts {
        assert AffectsOf(s', p) == ts;
        UnreservingKeepsThrInv(w, s', t, th, p);
      }
    }
  }

  /** A snapshot takes every live pod the lister shows; the others hold a reservation. */
  lemma SnapshotKeepsThrInv(w: World, s: State, t: Name, drop: set<Name>)
    requires Enabled(w, s, Snapshot(t, drop)) && ThrInv(w, s, t, s.thrs[t])
    ensures ThrInv(w, s, t, s.thrs[t].(stage := Snapshotted(Listed(s, t), drop)))
  {
    var th := s.thrs[t];
    forall p | p in Demand(s, t) ensures p in Listed(s, t) || p in th.reserved {
      if !s.phase[p].Running? {
        assert !Seen(PhaseOf(s, p));
      }
    }
  }

  lemma WriteKeepsThrInv(w: World, s: State, t: Name, th: Thr, now: Time, stage: Stage)
    requires ThrInv(w, s, t, th) && th.stage.Snapshotted? && now != ZERO_TIME
    requires stage == Idle || stage == Written(th.stage.drop)
    ensures
      ThrInv(w, s, t, th.(status := NextStatusOf(w, th, now), counted := th.stage.listed, at := now, stage := stage))
  {
  }

  lemma SameViewSameThrInv(w: World, s: State, s': State, t: Name, th: Thr)
    requires s'.phase == s.phase && s'.affects == s.affects
    ensures ThrInv(w, s', t, th) <==> ThrInv(w, s, t, th)
  {
    assert forall q :: PhaseOf(s', q) == PhaseOf(s, q);
    assert Demand(s', t) == Demand(s, t);
  }

  predicate TurnsPhase(step: Step) {
    step.GiveUp? || step.BindOk? || step.BindFail? || step.UnreserveDone? || step.DeletePending? || step.See?
  }

  predicate LeavesThrottlesAlone(step: Step) {
    || step.StartCycle? || step.ReadReserved? || step.Judge? || step.Abort? || step.BeginReserve?
    || step.Enqueue? || step.Fire? || step.Tick? || step.Ring?
  }

  lemma TurningEvolves(w: World, s: State, step: Step)
    requires Enabled(w, s, step) && CycleInv(s) && TurnsPhase(step)
    ensures Evolves(s, Apply(w, s, step))
  {
  }

  /** The reservations made in the cycle cover the pod as it becomes live. */
  lemma AssumeKeepsThrInv(w: World, s: State, t: Name)
    requires Enabled(w, s, Assume) && CycleInv(s) && t in s.thrs && ThrInv(w, s, t, s.thrs[t])
    ensures ThrInv(w, Apply(w, s, Assume), t, s.thrs[t])
    ensures Demand(Apply(w, s, Assume), t)
         == Demand(s, t) + if t in AffectsOf(s, s.cycle.pod) then {s.cycle.pod} else {}
  {
    var p, s' := s.cycle.pod, Apply(w, s, Assume);
    assert forall q | q != p :: PhaseOf(s', q) == PhaseOf(s, q);
    assert forall q :: AffectsOf(s', q) == AffectsOf(s, q);
    forall q | q in Demand(s', t) ensures q in Demand(s, t) || (q == p && p in s.thrs[t].reserved) {
    }
    assert !Seen(PhaseOf(s, p));
  }

  lemma DeliveringKeepsThrInv(w: World, s: State, n: Notice, t: Name)
    requires n in s.inbox && CycleInv(s) && t in s.thrs && ThrInv(w, s, t, s.thrs[t])
    ensures n.deleted ==> ThrInv(w, s, t, WithoutReservation(s.thrs[t], n.about))
  {
  }

  lemma DroppingKeepsThrInv(w: World, s: State, t: Name, th: Thr, p: Name)
    requires ThrInv(w, s, t, th) && th.stage.Written? && p in th.stage.drop
    ensures ThrInv(w, s, t, WithoutReservation(th, p).(stage := Written(th.stage.drop - {p})))
  {
  }

  /** The record of a throttle after a step that leaves pods and labels alone. */
  lemma TouchingKeepsThrInv(w: World, s: State, step: Step, t: Name)
    requires Enabled(w, s, step) && CycleInv(s) && t in s.thrs && ThrInv(w, s, t, s.thrs[t])
    requires !TurnsPhase(step) && !LeavesThrottlesAlone(step) && !step.Assume? && !step.Relabel?
    ensures t in Apply(w, s, step).thrs && ThrInv(w, s, t, Apply(w, s, step).thrs[t])
  {
    hide ThrInv, UsedBy, NextStatusOf, IsNextWake, Listed;
    var th := s.thrs[t];
    match step
    case ReserveOn(_) =>
      ReservingKeepsThrInv(w, s, t, th, s.cycle.pod);
    case UnreserveOn(p, _) =>
      assert p !in Demand(s, t);
      UnreservingKeepsThrInv(w, s, t, th, p);
    case Deliver(n) =>
      DeliveringKeepsThrInv(w, s, n, t);
    case EditSpec(_, spec) =>
      StageChangeKeepsThrInv(w, s, t, th, spec, th.stage);
    case Get(_) =>
      StageChangeKeepsThrInv(w, s, t, th, th.spec, Started);
    case FailEarly(_) =>
      StageChangeKeepsThrInv(w, s, t, th, th.spec, Idle);
    case Finish(_, _) =>
      FinishKeepsThrInv(w, s, t, th);
    case Snapshot(u, drop) =>
      if t == u { SnapshotKeepsThrInv(w, s, t, drop); }
    case Write(u, now, ok) =>
      if t == u { WriteKeepsThrInv(w, s, t, th, now, if ok then Written(th.stage.drop) else Idle); }
    case DropOne(u, p) =>
      if t == u { DroppingKeepsThrInv(w, s, t, th, p); }
  }

  lemma StageChangeKeepsThrInv(w: World, s: State, t: Name, th: Thr, spec: SpecBase, stage: Stage)
    requires ThrInv(w, s, t, th) && (stage.Idle? || stage.Started? || stage == th.stage)
    ensures ThrInv(w, s, t, th.(stage := stage)) && ThrInv(w, s, t, th.(spec := spec))
  {
  }

  lemma FinishKeepsThrInv(w: World, s: State, t: Name, th: Thr)
    requires ThrInv(w, s, t, th)
    ensures ThrInv(w, s, t, th.(stage := Idle, finished := s.clock))
  {
  }

  lemma StepKeepsThrInv(w: World, s: State, step: Step, t: Name)
    requires Enabled(w, s, step) && CycleInv(s)
    requires t in s.thrs && ThrInv(w, s, t, s.thrs[t])
    ensures t in Apply(w, s, step).thrs
    ensures ThrInv(w, Apply(w, s, step), t, Apply(w, s, step).thrs[t])
  {
    hide ThrInv, Evolves, Enabled, UsedBy, CycleInv;
    var s' := Apply(w, s, step);
    if TurnsPhase(step) {
      TurningEvolves(w, s, step);
      EvolvingKeepsThrInv(w, s, s', t, s.thrs[t]);
    } else if LeavesThrottlesAlone(step) {
      SameViewSameThrInv(w, s, s', t, s.thrs[t]);
    } else if step.Assume? {
      AssumeKeepsThrInv(w, s, t);
    } else if step.Relabel? {
      RelabelKeepsThrInv(w, s, step.p, step.ts, s', t);
    } else {
      TouchingKeepsThrInv(w, s, step, t);
      SameViewSameThrInv(w, s, s', t, s'.thrs[t]);
    }
  }

  /** The steps that take reservations away, and from whom. */
  predicate TakesAway(s: State, step: Step, t: Name, p: Name) {
    || (step.UnreserveOn? && step.t == t && step.p == p)
    || (step.Deliver? && step.n.deleted && step.n.about == p)
    || (step.Relabel? && step.p == p)
    || (step.DropOne? && step.t == t && step.p == p)
  }

  lemma OthersStayReserved(w: World, s: State, step: Step, t: Name, p: Name)
    requires Enabled(w, s, step) && t in s.thrs && p in s.thrs[t].reserved && !TakesAway(s, step, t, p)
    ensures t in Apply(w, s, step).thrs && p in Apply(w, s, step).thrs[t].reserved
  {
    hide UsedBy, NextStatusOf, IsNextWake, Listed, ListedFinished, Demand, CheckThrottle, MayBecomeSeen;
  }

  /** The cycle's pod is pending, so nobody drops a reservation the cycle has made for it. */
  lemma CyclePodStaysReserved(w: World, s: State, step: Step, t: Name)
    requires Enabled(w, s, step) && CycleInv(s) && !s.cycle.NoCycle?
    requires t in s.thrs && ThrInv(w, s, t, s.thrs[t]) && s.cycle.pod in s.thrs[t].reserved
    ensures t in Apply(w, s, step).thrs && s.cycle.pod in Apply(w, s, step).thrs[t].reserved
  {
    hide ThrInv, CycleInv, UsedBy, NextStatusOf, Listed, Demand, Apply;
    PodOfTheCycle(s);
    if step.DropOne? && step.t == t {
      DroppedIsSeen(w, s, t, step.p);
    }
    OthersStayReserved(w, s, step, t, s.cycle.pod);
  }

  lemma PodOfTheCycle(s: State)
    requires CycleInv(s) && !s.cycle.NoCycle?
    ensures PhaseOf(s, s.cycle.pod).Pending?
    ensures forall n | n in s.inbox && n.deleted :: PhaseOf(s, n.about).Gone?
  {
  }

  lemma DroppedIsSeen(w: World, s: State, t: Name, p: Name)
    requires t in s.thrs && ThrInv(w, s, t, s.thrs[t]) && s.thrs[t].stage.Written? && p in s.thrs[t].stage.drop
    ensures Seen(PhaseOf(s, p))
  {
  }

  lemma StepKeepsCycleInv(w: World, s: State, step: Step)
    requires Enabled(w, s, step) && Inv(w, s)
    ensures CycleInv(Apply(w, s, step))
  {
    hide ThrInv, UsedBy, NextStatusOf, Listed, Demand, ReadInv, Apply, Enabled;
    var s' := Apply(w, s, step);
    CyclePodStaysPending(w, s, step);
    NoticesStayTrue(w, s, step);
    if s'.cycle.Reserving? {
      CycleMoves(w, s, step);
      forall t | t in s'.cycle.done && t in s'.thrs ensures s'.cycle.pod in s'.thrs[t].reserved {
        if t in s.cycle.done {
          ThrottlesStay(w, s, step);
          CyclePodStaysReserved(w, s, step, t);
        }
      }
    }
  }

  lemma CyclePodStaysPending(w: World, s: State, step: Step)
    requires Enabled(w, s, step) && CycleInv(s)
    ensures var s' := Apply(w, s, step); !s'.cycle.NoCycle? ==> PhaseOf(s', s'.cycle.pod).Pending?
  {
    hide UsedBy, NextStatusOf, IsNextWake, Listed, ListedFinished, Demand, CheckThrottle, Moved;
    if !TurnsPhase(step) && !step.Assume? {
      OthersKeepPhases(w, s, step);
    }
  }

  lemma NoticesStayTrue(w: World, s: State, step: Step)
    requires Enabled(w, s, step) && CycleInv(s)
    ensures var s' := Apply(w, s, step); forall n | n in s'.inbox && n.deleted :: PhaseOf(s', n.about).Gone?
  {
    hide Apply, Enabled;
    var s' := Apply(w, s, step);
    forall n | n in s'.inbox && n.deleted ensures PhaseOf(s', n.about).Gone? {
      NoticesComeFromEvents(w, s, step, n);
      if n in s.inbox {
        GoneStaysGone(w, s, step, n.about);
      }
    }
  }

  lemma NoticesComeFromEvents(w: World, s: State, step: Step, n: Notice)
    requires Enabled(w, s, step) && n in Apply(w, s, step).inbox
    ensures n in s.inbox || (n.deleted ==> step.See? && PhaseOf(Apply(w, s, step), n.about).Gone?)
  {
    hide UsedBy, NextStatusOf, IsNextWake, Listed, ListedFinished, Demand, CheckThrottle, Moved, MayBecomeSeen;
  }

  lemma GoneStaysGone(w: World, s: State, step: Step, p: Name)
    requires Enabled(w, s, step) && CycleInv(s) && PhaseOf(s, p).Gone?
    ensures PhaseOf(Apply(w, s, step), p).Gone?
  {
    hide Apply, Enabled;
    if TurnsPhase(step) || step.Assume? {
      TurningKeepsGone(w, s, step, p);
    } else {
      OthersKeepPhases(w, s, step);
    }
  }

  lemma TurningKeepsGone(w: World, s: State, step: Step, p: Name)
    requires Enabled(w, s, step) && CycleInv(s) && PhaseOf(s, p).Gone? && (TurnsPhase(step) || step.Assume?)
    ensures PhaseOf(Apply(w, s, step), p).Gone?
  {
    hide UsedBy, NextStatusOf, IsNextWake, Listed, ListedFinished, Demand, CheckThrottle, Moved;
  }

  lemma OthersKeepPhases(w: World, s: State, step: Step)
    requires Enabled(w, s, step) && !TurnsPhase(step) && !step.Assume?
    ensures Apply(w, s, step).phase == s.phase
  {
    hide Enabled, UsedBy, NextStatusOf, Listed, Demand, CheckThrottle, Moved;
  }

  /** A cycle that is reserving has just begun, made one reservation more, or stands still. */
  lemma CycleMoves(w: World, s: State, step: Step)
    requires Enabled(w, s, step) && Apply(w, s, step).cycle.Reserving?
    ensures var s' := Apply(w, s, step);
      || s'.cycle.done == {}
      || (s.cycle.Reserving? && s'.cycle == s.cycle)
      || (s.cycle.Reserving? && step.ReserveOn? && s'.cycle == s.cycle.(done := s.cycle.done + {step.t})
          && step.t in s'.thrs && s'.cycle.pod in s'.thrs[step.t].reserved)
  {
    hide UsedBy, NextStatusOf, IsNextWake, Listed, ListedFinished, Demand, CheckThrottle, Moved;
  }

  /** A snapshot lists every counted pod still in demand, so what a read covers stays covered. */
  lemma SnapshotKeepsReadCovers(w: World, s: State, t: Name, drop: set<Name>, r: Read)
    requires Enabled(w, s, Snapshot(t, drop)) && ReadCovers(s, r)
    requires r.thr in s.thrs && ThrInv(w, s, r.thr, s.thrs[r.thr])
    ensures var s' := Apply(w, s, Snapshot(t, drop)); ReadCovers(s', r.(demand := r.demand * Demand(s', r.thr)))
  {
    hide UsedBy, Demand, Listed, ListedFinished, ThrInv;
    ListingFindsTheSeen(w, s, r.thr);
    SameDemand(s, Apply(w, s, Snapshot(t, drop)), r.thr);
  }

  lemma WriteKeepsReadCovers(w: World, s: State, t: Name, now: Time, ok: bool, r: Read)
    requires Enabled(w, s, Write(t, now, ok)) && ReadCovers(s, r) && r.thr in s.thrs
    ensures var s' := Apply(w, s, Write(t, now, ok)); ReadCovers(s', r.(demand := r.demand * Demand(s', r.thr)))
  {
    hide UsedBy, NextStatusOf, IsNextWake, Demand;
    SameDemand(s, Apply(w, s, Write(t, now, ok)), r.thr);
  }

  lemma SameDemand(s: State, s': State, t: Name)
    requires s'.phase == s.phase && s'.affects == s.affects
    ensures Demand(s', t) == Demand(s, t)
  {
  }

  /** The steps of reconciles and spec edits; all others touch at most the reservations of a throttle's record. */
  predicate TouchesRecord(step: Step) {
    || step.Get? || step.FailEarly? || step.Snapshot? || step.Write? || step.DropOne? || step.Finish? || step.EditSpec?
  }

  lemma OthersKeepRecords(w: World, s: State, step: Step, t: Name)
    requires Enabled(w, s, step) && !TouchesRecord(step) && t in s.thrs
    ensures var th' := Apply(w, s, step).thrs[t]; th' == s.thrs[t].(reserved := th'.reserved)
  {
    hide Enabled, UsedBy, NextStatusOf, Listed, Demand, CheckThrottle, PhaseOf;
  }

  /** The steps that neither list pods nor write a status keep what is counted, and what is listed if it stays. */
  lemma OtherStepsKeepCounts(w: World, s: State, step: Step, t: Name)
    requires Enabled(w, s, step) && !step.Snapshot? && !step.Write? && t in s.thrs
    ensures var th, th' := s.thrs[t], Apply(w, s, step).thrs[t];
      th'.counted == th.counted && (th'.stage.Snapshotted? ==> th'.stage == th.stage)
  {
    hide UsedBy, NextStatusOf, IsNextWake, Listed, ListedFinished, CheckThrottle, MayBecomeSeen, PhaseOf;
    if !TouchesRecord(step) {
      hide *;
      OthersKeepRecords(w, s, step, t);
    }
  }

  /** What a read covers stays covered: by the reservation as it was read, or by the status since. */
  lemma StepKeepsReadCovers(w: World, s: State, step: Step, r: Read)
    requires Enabled(w, s, step) && ReadCovers(s, r)
    requires r.thr in s.thrs && ThrInv(w, s, r.thr, s.thrs[r.thr])
    ensures ReadCovers(Apply(w, s, step), r.(demand := r.demand * Demand(Apply(w, s, step), r.thr)))
  {
    hide Enabled, Apply, UsedBy, Demand, ThrInv;
    match step
    case Snapshot(t, drop) => SnapshotKeepsReadCovers(w, s, t, drop, r);
    case Write(t, now, ok) => WriteKeepsReadCovers(w, s, t, now, ok, r);
    case _ => OtherStepsKeepCounts(w, s, step, r.thr);
  }

  /** A counted pod still in demand is one the lister shows running. */
  lemma ListingFindsTheSeen(w: World, s: State, t: Name)
    requires t in s.thrs && ThrInv(w, s, t, s.thrs[t])
    ensures forall q | q in Demand(s, t) && q in s.thrs[t].counted :: q in Listed(s, t)
  {
  }

  lemma ReadingCovers(w: World, s: State, t: Name)
    requires t in s.thrs && ThrInv(w, s, t, s.thrs[t])
    ensures var th := s.thrs[t];
      && Total(th.reserved) == UsedBy(w, th.reserved.Keys)
      && ReadCovers(s, Read(t, Total(th.reserved), th.reserved.Keys, Demand(s, t)))
  {
    assert s.thrs[t].reserved == AmountsOf(w, s.thrs[t].reserved.Keys);
  }

  lemma StepKeepsReadInv(w: World, s: State, step: Step)
    requires Enabled(w, s, step) && Inv(w, s)
    ensures ReadInv(w, Pruned(Apply(w, s, step)))
  {
    hide ThrInv, UsedBy, NextStatusOf, Listed, CycleInv, Apply, Enabled, ReadCovers, Demand;
    var s' := Apply(w, s, step);
    if s'.cycle.Checking? && s'.cycle.read.Some? {
      ReadsStand(w, s, step);
      var r := s'.cycle.read.value;
      ThrottlesStay(w, s, step);
      if step.ReadReserved? {
        ReadingCovers(w, s, step.t);
        ReadingChangesOnlyTheCycle(w, s, step.t);
      } else if r.thr in s.thrs {
        StepKeepsReadCovers(w, s, step, r);
        CoversDependsOnRecordsOnly(s', Pruned(s'), r.(demand := r.demand * Demand(s', r.thr)));
      } else {
        NoRecordNoClaim(Pruned(s'), r.(demand := r.demand * Demand(s', r.thr)));
      }
    }
  }

  lemma ReadsStand(w: World, s: State, step: Step)
    requires Enabled(w, s, step) && Apply(w, s, step).cycle.Checking? && Apply(w, s, step).cycle.read.Some?
    ensures if step.ReadReserved? then step.t in s.thrs else s.cycle.Checking? && Apply(w, s, step).cycle == s.cycle
  {
    hide UsedBy, NextStatusOf, IsNextWake, Listed, ListedFinished, Demand, CheckThrottle, Moved;
  }

  lemma NoRecordNoClaim(s: State, r: Read)
    requires r.thr !in s.thrs
    ensures ReadCovers(s, r)
  {
  }

  lemma CoversDependsOnRecordsOnly(s: State, s': State, r: Read)
    requires s'.phase == s.phase && s'.affects == s.affects && s'.thrs == s.thrs && ReadCovers(s, r)
    ensures ReadCovers(s', r)
  {
  }

  lemma ReadingChangesOnlyTheCycle(w: World, s: State, t: Name)
    requires Enabled(w, s, ReadReserved(t))
    requires ReadCovers(s, Read(t, Total(s.thrs[t].reserved), s.thrs[t].reserved.Keys, Demand(s, t)))
    ensures var s' := Pruned(Apply(w, s, ReadReserved(t)));
      && s'.cycle.read == Some(Read(t, Total(s.thrs[t].reserved), s.thrs[t].reserved.Keys, Demand(s, t)))
      && ReadCovers(s', s'.cycle.read.value)
  {
    var s' := Apply(w, s, ReadReserved(t));
    assert Demand(s', t) == Demand(s, t) == Demand(s, t) * Demand(s', t);
    var read := Read(t, Total(s.thrs[t].reserved), s.thrs[t].reserved.Keys, Demand(s, t));
    CoversDependsOnRecordsOnly(s, Pruned(s'), read);
  }

  lemma StepKeepsInv(w: World, s: State, step: Step, s': State)
    requires Next(w, s, step, s') && Inv(w, s)
    ensures Inv(w, s')
  {
    hide ThrInv, ReadInv, CycleInv, Enabled, Apply, Demand;
    var s1 := Apply(w, s, step);
    StepKeepsCycleInv(w, s, step);
    StepKeepsReadInv(w, s, step);
    PruningKeepsCycleInv(s1);
    forall t | t in s'.thrs ensures ThrInv(w, s', t, s'.thrs[t]) {
      ThrottlesStay(w, s, step);
      StepKeepsThrInv(w, s, step, t);
      SameViewSameThrInv(w, s1, s', t, s'.thrs[t]);
    }
  }

  lemma ThrottlesStay(w: World, s: State, step: Step)
    requires Enabled(w, s, step)
    ensures Apply(w, s, step).thrs.Keys == s.thrs.Keys
  {
    hide Apply, Enabled;
  }

  lemma PruningKeepsCycleInv(s: State)
    requires CycleInv(s)
    ensures CycleInv(Pruned(s))
  {
  }

  lemma {:induction false} RunsKeepInv(w: World, states: seq<State>, steps: seq<Step>, i: nat)
    requires IsRun(w, states, steps) && i < |states|
    ensures Inv(w, states[i])
  {
    if i == 0 {
      InitKeepsInv(w, states[0]);
    } else {
      RunsKeepInv(w, states, steps, i - 1);
      StepKeepsInv(w, states[i - 1], steps[i - 1], states[i]);
    }
  }

  ghost predicate RequestsAreNonNegative(w: World) {
    forall p :: NonNegative(RequestOf(w, p))
  }

  /** On every resource and on the count, one load is covered by two others. */
  ghost predicate CoveredBy(load: Amount, x: Amount, y: Amount) {
    && Pods(load) <= Pods(x) + Pods(y)
    && forall n: ResourceName :: At(load.requests, n) <= At(x.requests, n) + At(y.requests, n)
  }

  lemma CoveringPodsCoverLoads(w: World, ps: set<Name>, qs: set<Name>, rs: set<Name>)
    requires RequestsAreNonNegative(w) && ps <= qs + rs
    ensures CoveredBy(UsedBy(w, ps), UsedBy(w, qs), UsedBy(w, rs))
  {
    TotalIsCovered(AmountsOf(w, ps), AmountsOf(w, qs), AmountsOf(w, rs), "");
    forall n: ResourceName
      ensures At(UsedBy(w, ps).requests, n) <= At(UsedBy(w, qs).requests, n) + At(UsedBy(w, rs).requests, n)
    {
      TotalIsCovered(AmountsOf(w, ps), AmountsOf(w, qs), AmountsOf(w, rs), n);
    }
  }

  /**
   In every reachable state, relabels included, each reserved-or-running pod of a throttle is behind its
   status or among its reservations, so that together they never say less than the demand.
   */
  lemma NoPodIsUncounted(w: World, states: seq<State>, steps: seq<Step>, i: nat, t: Name)
    requires IsRun(w, states, steps) && i < |states| && t in states[i].thrs && RequestsAreNonNegative(w)
    ensures var s, th := states[i], states[i].thrs[t];
      && (forall p | p in Demand(s, t) :: p in th.counted || p in th.reserved)
      && CoveredBy(UsedBy(w, Demand(s, t)), th.status.used, Total(th.reserved))
  {
    RunsKeepInv(w, states, steps, i);
    var s, th := states[i], states[i].thrs[t];
    assert ThrInv(w, s, t, th);
    ReadingCovers(w, s, t);
    assert Demand(s, t) <= th.counted + th.reserved.Keys;
    CoveringPodsCoverLoads(w, Demand(s, t), th.counted, th.reserved.Keys);
  }

  /**
   A check reads the reservation first and the status later. Whatever reconcile steps came in between, the
   two together cover every pod that was in demand at the first read and has been ever since.
   */
  lemma CheckNeverSeesLess(w: World, states: seq<State>, steps: seq<Step>, i: nat)
    requires IsRun(w, states, steps) && i < |states| && RequestsAreNonNegative(w)
    requires var c := states[i].cycle; c.Checking? && c.read.Some? && c.read.value.thr in states[i].thrs
    ensures var r := states[i].cycle.read.value;
      CoveredBy(UsedBy(w, r.demand), r.amount, states[i].thrs[r.thr].status.used)
  {
    RunsKeepInv(w, states, steps, i);
    var r := states[i].cycle.read.value;
    var th := states[i].thrs[r.thr];
    assert ThrInv(w, states[i], r.thr, th);
    assert r.demand <= r.held + th.counted;
    CoveringPodsCoverLoads(w, r.demand, r.held, th.counted);
  }
}
