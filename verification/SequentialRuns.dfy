/**
 What the step machine can do when nothing comes between: a reconcile ends exactly where the controller's
 Reconcile method does, and a scheduling cycle lets in every pod that all its throttles have room for.
 */
module SequentialRuns {
  import opened Wrappers
  import opened Names
  import opened ResourceAmounts
  import opened Overrides
  import opened Throttles
  import opened PodModel
  import opened Usage
  import opened Protocol

  /** The steps lead from one state to another. */
  ghost predicate Leads(w: World, s: State, steps: seq<Step>, s': State)
    decreases |steps|
  {
    if steps == [] then s == s'
    else Enabled(w, s, steps[0]) && Leads(w, Pruned(Apply(w, s, steps[0])), steps[1..], s')
  }

  lemma {:induction false} LeadsOn(w: World, s: State, steps: seq<Step>, s': State, more: seq<Step>, s'': State)
    requires Leads(w, s, steps, s') && Leads(w, s', more, s'')
    ensures Leads(w, s, steps + more, s'')
    decreases |steps|
  {
    hide Enabled, Apply, Pruned;
    if steps == [] {
      assert steps + more == more;
    } else {
      LeadsOn(w, Pruned(Apply(w, s, steps[0])), steps[1..], s', more, s'');
      assert (steps + more)[1..] == steps[1..] + more;
    }
  }

  lemma OneStepLeads(w: World, s: State, step: Step)
    requires Enabled(w, s, step)
    ensures Leads(w, s, [step], Pruned(Apply(w, s, step)))
  {
    hide Enabled, Apply, Pruned;
    assert [step][1..] == [];
    assert Leads(w, Pruned(Apply(w, s, step)), [], Pruned(Apply(w, s, step)));
  }

  /** Steps that leave pods, labels and the cycle alone leave the record of a pending check alone. */
  lemma NothingToPrune(s: State, s': State)
    requires Pruned(s) == s && s'.phase == s.phase && s'.affects == s.affects && s'.cycle == s.cycle
    ensures Pruned(s') == s'
  {
    if s.cycle.Checking? && s.cycle.read.Some? {
      assert Demand(s', s.cycle.read.value.thr) == Demand(s, s.cycle.read.value.thr);
    }
  }

  function Dropped(s: State, t: Name): State
    requires t in s.thrs && s.thrs[t].stage.Written?
  {
    var th := s.thrs[t];
    WithThr(s, t, th.(reserved := th.reserved - th.stage.drop, stage := Written({})))
  }

  /** Nothing but steps of a reconcile of the throttle, successful or not. */
  predicate IsWork(steps: seq<Step>, t: Name) {
    forall step | step in steps :: TouchesRecord(step) && !step.EditSpec? && step.t == t
  }

  /** Un-reserving one pod at a time, in any order, un-reserves them all. */
  lemma {:induction false} DropsLead(w: World, s: State, t: Name) returns (steps: seq<Step>)
    requires t in s.thrs && s.thrs[t].stage.Written? && Pruned(s) == s
    ensures Leads(w, s, steps, Dropped(s, t)) && IsWork(steps, t)
    decreases if s.thrs[t].stage.Written? then s.thrs[t].stage.drop else {}
  {
    var th := s.thrs[t];
    if th.stage.drop == {} {
      steps := [];
      assert th.reserved - {} == th.reserved;
      assert s.thrs[t := th] == s.thrs;
    } else {
      var p :| p in th.stage.drop;
      var s' := Apply(w, s, DropOne(t, p));
      NothingToPrune(s, s');
      OneStepLeads(w, s, DropOne(t, p));
      var rest := DropsLead(w, s', t);
      DropsAddUp(w, s, t, p);
      LeadsOn(w, s, [DropOne(t, p)], s', rest, Dropped(s, t));
      steps := [DropOne(t, p)] + rest;
    }
  }

  /** A throttle's record once the status of the pods listed now is written. */
  ghost function Rewritten(w: World, s: State, t: Name, now: Time): Thr
    requires t in s.thrs
  {
    var th := s.thrs[t];
    th.(status := NextStatus(th.spec, th.status, UsedBy(w, Listed(s, t)), now), counted := Listed(s, t), at := now)
  }

  lemma DropsAddUp(w: World, s: State, t: Name, p: Name)
    requires t in s.thrs && s.thrs[t].stage.Written? && p in s.thrs[t].stage.drop
    ensures Dropped(Apply(w, s, DropOne(t, p)), t) == Dropped(s, t)
  {
    var th := s.thrs[t];
    var th' := WithoutReservation(th, p).(stage := Written(th.stage.drop - {p}));
    assert th.reserved - {p} - (th.stage.drop - {p}) == th.reserved - th.stage.drop;
    WithThrTwice(s, t, th', th.(reserved := th.reserved - th.stage.drop, stage := Written({})));
  }

  /** The state after a whole reconcile. */
  ghost function Reconcile(w: World, s: State, t: Name, drop: set<Name>, now: Time, d: Option<int>): State
    requires t in s.thrs
  {
    var th := Rewritten(w, s, t, now).(reserved := s.thrs[t].reserved - drop, stage := Idle, finished := s.clock);
    WithThr(s, t, th).(dirty := s.dirty - {t}, timers := s.timers + Asked(t, s.clock, d))
  }

  /** The wake-up a reconcile of the throttle asks for, when its time is `now`. */
  ghost predicate Wants(s: State, t: Name, now: Time, d: Option<int>)
    requires t in s.thrs
  {
    IsNextWake(Ahead(s.thrs[t].spec.overrides, now), now, d)
  }

  /** The second half, from a snapshot on. */
  ghost function Concluded(w: World, s: State, t: Name, now: Time, d: Option<int>): State
    requires t in s.thrs && s.thrs[t].stage.Snapshotted?
  {
    var th := s.thrs[t];
    var reserved := th.reserved - th.stage.drop;
    WithThr(s, t, Thr(th.spec, NextStatusOf(w, th, now), reserved, Idle, th.stage.listed, now, s.clock))
      .(timers := s.timers + Asked(t, s.clock, d))
  }

  lemma WritingLeads(w: World, s: State, t: Name, now: Time) returns (steps: seq<Step>)
    requires Enabled(w, s, Write(t, now, true)) && Pruned(s) == s
    ensures var dropped := Dropped(Apply(w, s, Write(t, now, true)), t);
      Pruned(dropped) == dropped && Leads(w, s, steps, dropped) && IsWork(steps, t)
  {
    hide Leads, Pruned, NextStatusOf;
    var write := Write(t, now, true);
    var written := Apply(w, s, write);
    Then(w, s, write);
    steps := DropsLead(w, written, t);
    NothingToPrune(written, Dropped(written, t));
    LeadsOn(w, s, [write], written, steps, Dropped(written, t));
    WorkOn([write], steps, t);
    steps := [write] + steps;
  }

  lemma WorkOn(steps: seq<Step>, more: seq<Step>, t: Name)
    requires IsWork(steps, t) && IsWork(more, t)
    ensures IsWork(steps + more, t)
  {
  }

  lemma ConcludingLeads(w: World, s: State, t: Name, now: Time, d: Option<int>) returns (steps: seq<Step>)
    requires t in s.thrs && s.thrs[t].stage.Snapshotted? && Pruned(s) == s && now != ZERO_TIME && now <= s.clock
    requires Wants(s, t, now, d)
    ensures Leads(w, s, steps, Concluded(w, s, t, now, d)) && IsWork(steps, t)
  {
    hide Leads, Pruned, NextStatusOf, IsNextWake, Dropped;
    var finish := Finish(t, d);
    steps := WritingLeads(w, s, t, now);
    var dropped := Dropped(Apply(w, s, Write(t, now, true)), t);
    WrittenAndDropped(w, s, t, now, d);
    Then(w, dropped, finish);
    LeadsOn(w, s, steps, dropped, [finish], Concluded(w, s, t, now, d));
    WorkOn(steps, [finish], t);
    steps := steps + [finish];
  }

  lemma WrittenAndDropped(w: World, s: State, t: Name, now: Time, d: Option<int>)
    requires Enabled(w, s, Write(t, now, true)) && Wants(s, t, now, d)
    ensures var dropped := Dropped(Apply(w, s, Write(t, now, true)), t);
      Enabled(w, dropped, Finish(t, d)) && Apply(w, dropped, Finish(t, d)) == Concluded(w, s, t, now, d)
  {
    hide NextStatusOf, IsNextWake;
    var written := Apply(w, s, Write(t, now, true));
    var th := written.thrs[t];
    var dropped := Dropped(written, t);
    var th' := th.(reserved := th.reserved - th.stage.drop, stage := Written({}));
    WithThrTwice(s, t, th, th');
    assert dropped == WithThr(s, t, th');
    WithThrTwice(s, t, th', th'.(stage := Idle, finished := s.clock));
  }

  lemma WithThrTwice(s: State, t: Name, th: Thr, th': Thr)
    ensures WithThr(WithThr(s, t, th), t, th') == WithThr(s, t, th')
  {
  }

  /** What a snapshot may choose to drop: all pods listed as running, and some finished ones. */
  ghost predicate MayDrop(s: State, t: Name, drop: set<Name>) {
    Listed(s, t) <= drop <= Listed(s, t) + ListedFinished(s, t)
  }

  function Snapped(s: State, t: Name, drop: set<Name>): State
    requires t in s.thrs
  {
    WithThr(s, t, s.thrs[t].(stage := Snapshotted(Listed(s, t), drop))).(dirty := s.dirty - {t})
  }

  lemma SnapshotLeads(w: World, s: State, t: Name, drop: set<Name>)
    requires t in s.thrs && t in s.dirty && s.thrs[t].stage.Idle? && Pruned(s) == s
    requires MayDrop(s, t, drop)
    ensures Pruned(Snapped(s, t, drop)) == Snapped(s, t, drop)
    ensures Leads(w, s, [Get(t)] + [Snapshot(t, drop)], Snapped(s, t, drop))
  {
    hide Leads, Pruned, Listed, ListedFinished;
    var get, snapshot := Get(t), Snapshot(t, drop);
    var got := Apply(w, s, get);
    Then(w, s, get);
    SameList(s, got, t);
    Then(w, got, snapshot);
    assert Apply(w, got, snapshot) == Snapped(s, t, drop);
    LeadsOn(w, s, [get], got, [snapshot], Snapped(s, t, drop));
  }

  /**
   Started on a due throttle and left alone, a reconcile can write the status of the pods listed and drop any
   reservations that its snapshot may choose.
   */
  lemma UndisturbedReconcile(w: World, s: State, t: Name, drop: set<Name>, now: Time, d: Option<int>)
    returns (steps: seq<Step>)
    requires t in s.thrs && t in s.dirty && s.thrs[t].stage.Idle? && Pruned(s) == s
    requires now != ZERO_TIME && now <= s.clock
    requires MayDrop(s, t, drop) && Wants(s, t, now, d)
    ensures Leads(w, s, steps, Reconcile(w, s, t, drop, now, d)) && IsWork(steps, t)
  {
    hide Leads, Pruned, Listed, ListedFinished, UsedBy, NextStatus, MayDrop, IsNextWake;
    SnapshotLeads(w, s, t, drop);
    var snapped := Snapped(s, t, drop);
    var rest := ConcludingLeads(w, snapped, t, now, d);
    assert Concluded(w, snapped, t, now, d) == Reconcile(w, s, t, drop, now, d);
    steps := [Get(t)] + [Snapshot(t, drop)];
    LeadsOn(w, s, steps, snapped, rest, Reconcile(w, s, t, drop, now, d));
    steps := steps + rest;
  }

  predicate OfOneReconcile(step: Step) {
    step.Get? || step.FailEarly? || step.Snapshot? || step.Write? || step.Finish?
  }

  lemma Then(w: World, s: State, step: Step)
    requires Enabled(w, s, step) && Pruned(s) == s && OfOneReconcile(step)
    ensures var s' := Apply(w, s, step); Pruned(s') == s' && Leads(w, s, [step], s')
  {
    OneStepLeads(w, s, step);
    NothingToPrune(s, Apply(w, s, step));
  }

  lemma SameList(s: State, s': State, t: Name)
    requires s'.phase == s.phase && s'.affects == s.affects
    ensures Listed(s', t) == Listed(s, t) && ListedFinished(s', t) == ListedFinished(s, t)
  {
  }

  /** A reconcile whose status write fails: the record has the new status all the same, and nothing is dropped. */
  ghost function WriteFails(w: World, s: State, t: Name, now: Time): State
    requires t in s.thrs
  {
    WithThr(s, t, Rewritten(w, s, t, now)).(dirty := s.dirty - {t}, delayed := s.delayed + {t})
  }

  lemma FailedWriteLeads(w: World, s: State, t: Name, now: Time)
    requires t in s.thrs && t in s.dirty && s.thrs[t].stage.Idle? && Pruned(s) == s
    requires now != ZERO_TIME && now <= s.clock
    requires WriteFails(w, s, t, now).thrs[t].status != s.thrs[t].status
    ensures Leads(w, s, [Get(t)] + [Snapshot(t, Listed(s, t))] + [Write(t, now, false)], WriteFails(w, s, t, now))
  {
    hide Leads, Pruned, Listed, ListedFinished, UsedBy, NextStatus;
    var drop, write := Listed(s, t), Write(t, now, false);
    SnapshotLeads(w, s, t, drop);
    var snapped := Snapped(s, t, drop);
    Then(w, snapped, write);
    assert Apply(w, snapped, write) == WriteFails(w, s, t, now);
    LeadsOn(w, s, [Get(t)] + [Snapshot(t, drop)], snapped, [write], WriteFails(w, s, t, now));
  }

  /** A reconcile that cannot list the pods: its key waits to be retried. */
  function LookupFails(s: State, t: Name): State {
    s.(dirty := s.dirty - {t}, delayed := s.delayed + {t})
  }

  lemma FailedLookupLeads(w: World, s: State, t: Name)
    requires t in s.thrs && t in s.dirty && s.thrs[t].stage.Idle? && Pruned(s) == s
    ensures Leads(w, s, [Get(t)] + [FailEarly(t)], LookupFails(s, t))
  {
    hide Leads, Pruned;
    var got := Apply(w, s, Get(t));
    Then(w, s, Get(t));
    Then(w, got, FailEarly(t));
    assert s.thrs[t].(stage := Started).(stage := Idle) == s.thrs[t];
    assert Apply(w, got, FailEarly(t)).thrs == s.thrs;
    LeadsOn(w, s, [Get(t)], got, [FailEarly(t)], LookupFails(s, t));
  }

  // ---------------------------------------------------------------- every undisturbed reconcile

  /** A step of a reconcile of the throttle, whose status write succeeds. */
  predicate OwnStep(step: Step, t: Name) {
    || (step.Get? && step.t == t)
    || (step.Snapshot? && step.t == t)
    || (step.Write? && step.t == t && step.ok)
    || (step.DropOne? && step.t == t)
    || (step.Finish? && step.t == t)
  }

  /** How far a reconcile that nothing disturbed has come since state `s`. */
  ghost predicate UnderWay(w: World, s: State, t: Name, done: seq<Step>, x: State)
    requires t in s.thrs
  {
    t in x.thrs &&
    match x.thrs[t].stage
    case Idle =>
      || (x == s && done == [])
      || exists drop, now, d ::
        Chose(s, t, done, drop, now) && Finish(t, d) in done && x == Reconcile(w, s, t, drop, now, d)
    case Started => done != [] && x == Gotten(s, t)
    case Snapshotted(_, drop) => Snapshot(t, drop) in done && MayDrop(s, t, drop) && x == Snapped(s, t, drop)
    case Written(rest) =>
      exists drop, now :: Chose(s, t, done, drop, now) && rest <= drop && x == Dropping(w, s, t, drop, now, rest)
  }

  /** What the snapshot chose to drop, and the time of the write. */
  ghost predicate Chose(s: State, t: Name, done: seq<Step>, drop: set<Name>, now: Time) {
    Snapshot(t, drop) in done && Write(t, now, true) in done && MayDrop(s, t, drop) && now != ZERO_TIME
  }

  function Gotten(s: State, t: Name): State
    requires t in s.thrs
  {
    WithThr(s, t, s.thrs[t].(stage := Started)).(dirty := s.dirty - {t})
  }

  /** The status is written, and `rest` is still to be dropped. */
  ghost function Dropping(w: World, s: State, t: Name, drop: set<Name>, now: Time, rest: set<Name>): State
    requires t in s.thrs
  {
    var th := Rewritten(w, s, t, now);
    WithThr(s, t, th.(reserved := s.thrs[t].reserved - (drop - rest), stage := Written(rest))).(dirty := s.dirty - {t})
  }

  lemma GettingKeepsUnderWay(w: World, s: State, t: Name, done: seq<Step>, x: State)
    requires t in s.thrs && UnderWay(w, s, t, done, x) && Enabled(w, x, Get(t))
    ensures UnderWay(w, s, t, done + [Get(t)], Apply(w, x, Get(t)))
  {
    hide NextStatus, UsedBy, Listed, ListedFinished;
    assert x == s;
  }

  lemma SnapshotKeepsUnderWay(w: World, s: State, t: Name, done: seq<Step>, x: State, drop: set<Name>)
    requires t in s.thrs && UnderWay(w, s, t, done, x) && Enabled(w, x, Snapshot(t, drop))
    ensures UnderWay(w, s, t, done + [Snapshot(t, drop)], Apply(w, x, Snapshot(t, drop)))
  {
    hide NextStatus, UsedBy, Listed, ListedFinished;
    SameList(s, x, t);
    assert Apply(w, x, Snapshot(t, drop)) == Snapped(s, t, drop);
  }

  lemma WritingKeepsUnderWay(w: World, s: State, t: Name, done: seq<Step>, x: State, now: Time)
    requires t in s.thrs && UnderWay(w, s, t, done, x) && Enabled(w, x, Write(t, now, true))
    ensures UnderWay(w, s, t, done + [Write(t, now, true)], Apply(w, x, Write(t, now, true)))
  {
    hide NextStatus, UsedBy, Listed, ListedFinished;
    var drop := x.thrs[t].stage.drop;
    assert s.thrs[t].reserved - (drop - drop) == s.thrs[t].reserved;
    assert Apply(w, x, Write(t, now, true)) == Dropping(w, s, t, drop, now, drop);
    assert Chose(s, t, done + [Write(t, now, true)], drop, now);
  }

  lemma DroppingOne(w: World, s: State, t: Name, drop: set<Name>, now: Time, rest: set<Name>, p: Name)
    requires t in s.thrs && p in rest && rest <= drop
    ensures var x := Dropping(w, s, t, drop, now, rest);
      Enabled(w, x, DropOne(t, p)) && Apply(w, x, DropOne(t, p)) == Dropping(w, s, t, drop, now, rest - {p})
  {
    hide Rewritten, Listed, ListedFinished;
    assert s.thrs[t].reserved - (drop - rest) - {p} == s.thrs[t].reserved - (drop - (rest - {p}));
  }

  lemma DroppingKeepsUnderWay(w: World, s: State, t: Name, done: seq<Step>, x: State, p: Name)
    requires t in s.thrs && UnderWay(w, s, t, done, x) && Enabled(w, x, DropOne(t, p))
    ensures UnderWay(w, s, t, done + [DropOne(t, p)], Apply(w, x, DropOne(t, p)))
  {
    hide Rewritten, Listed, ListedFinished;
    var rest := x.thrs[t].stage.drop;
    var drop, now :| Chose(s, t, done, drop, now) && rest <= drop && x == Dropping(w, s, t, drop, now, rest);
    DroppingOne(w, s, t, drop, now, rest, p);
    assert Chose(s, t, done + [DropOne(t, p)], drop, now);
  }

  lemma FinishingAll(w: World, s: State, t: Name, drop: set<Name>, now: Time, d: Option<int>)
    requires t in s.thrs
    ensures var x := Dropping(w, s, t, drop, now, {});
      Enabled(w, x, Finish(t, d)) ==> Apply(w, x, Finish(t, d)) == Reconcile(w, s, t, drop, now, d)
  {
    hide Rewritten;
    assert drop - {} == drop;
  }

  lemma FinishingKeepsUnderWay(w: World, s: State, t: Name, done: seq<Step>, x: State, d: Option<int>)
    requires t in s.thrs && UnderWay(w, s, t, done, x) && Enabled(w, x, Finish(t, d))
    ensures UnderWay(w, s, t, done + [Finish(t, d)], Apply(w, x, Finish(t, d)))
  {
    hide NextStatus, UsedBy, Listed, ListedFinished, Apply, IsNextWake;
    var drop, now :| Chose(s, t, done, drop, now) && x == Dropping(w, s, t, drop, now, {});
    FinishingAll(w, s, t, drop, now, d);
    assert Chose(s, t, done + [Finish(t, d)], drop, now);
  }

  lemma OwnStepKeepsUnderWay(w: World, s: State, t: Name, done: seq<Step>, x: State, step: Step)
    requires t in s.thrs && Pruned(x) == x
    requires UnderWay(w, s, t, done, x) && OwnStep(step, t) && Enabled(w, x, step)
    ensures UnderWay(w, s, t, done + [step], Apply(w, x, step)) && Pruned(Apply(w, x, step)) == Apply(w, x, step)
  {
    hide UnderWay, Enabled;
    OwnStepLeavesPodsAlone(w, x, step, t);
    NothingToPrune(x, Apply(w, x, step));
    match step
    case Get(_) => GettingKeepsUnderWay(w, s, t, done, x);
    case Snapshot(_, drop) => SnapshotKeepsUnderWay(w, s, t, done, x, drop);
    case Write(_, now, _) => WritingKeepsUnderWay(w, s, t, done, x, now);
    case DropOne(_, p) => DroppingKeepsUnderWay(w, s, t, done, x, p);
    case Finish(_, d) => FinishingKeepsUnderWay(w, s, t, done, x, d);
  }

  lemma OwnStepLeavesPodsAlone(w: World, s: State, step: Step, t: Name)
    requires Enabled(w, s, step) && OwnStep(step, t)
    ensures var s' := Apply(w, s, step); s'.phase == s.phase && s'.affects == s.affects && s'.cycle == s.cycle
  {
    hide UsedBy, NextStatusOf, Listed, ListedFinished;
  }

  lemma {:induction false} OwnStepsKeepUnderWay(
    w: World, s: State, t: Name, done: seq<Step>, x: State, steps: seq<Step>, s': State)
    requires t in s.thrs && s.thrs[t].stage.Idle? && Pruned(x) == x
    requires UnderWay(w, s, t, done, x) && Leads(w, x, steps, s') && forall i | 0 <= i < |steps| :: OwnStep(steps[i], t)
    ensures UnderWay(w, s, t, done + steps, s')
    decreases |steps|
  {
    hide UnderWay, Enabled, Apply, Pruned, OwnStep;
    if steps == [] {
      assert done + steps == done;
    } else {
      var x' := Apply(w, x, steps[0]);
      OwnStepKeepsUnderWay(w, s, t, done, x, steps[0]);
      OwnStepsKeepUnderWay(w, s, t, done + [steps[0]], x', steps[1..], s');
      assert done + [steps[0]] + steps[1..] == done + steps;
    }
  }

  /**
   Left alone, a reconcile has one outcome: whatever its own steps, and in whatever order it un-reserves, when it
   is idle again it has written the status of the pods listed and dropped exactly what its snapshot chose.
   */
  lemma EveryUndisturbedReconcile(w: World, s: State, t: Name, steps: seq<Step>, s': State)
    requires t in s.thrs && s.thrs[t].stage.Idle? && Pruned(s) == s
    requires Leads(w, s, steps, s') && steps != [] && forall i | 0 <= i < |steps| :: OwnStep(steps[i], t)
    requires t in s'.thrs && s'.thrs[t].stage.Idle?
    ensures exists drop, now, d ::
      Chose(s, t, steps, drop, now) && Finish(t, d) in steps && s' == Reconcile(w, s, t, drop, now, d)
  {
    hide Leads, Pruned, Reconcile, Chose;
    OwnStepsKeepUnderWay(w, s, t, [], s, steps, s');
    assert [] + steps == steps;
  }

  // ---------------------------------------------------------------- a scheduling cycle

  /** Every throttle of the pod finds room for it. */
  ghost predicate AllPass(w: World, s: State, p: Name) {
    forall t | t in AffectsOf(s, p) ::
      && t in s.thrs
      && CheckThrottle(s.thrs[t].spec, s.thrs[t].status, RequestOf(w, p), Total(s.thrs[t].reserved), false)
        == NotThrottled
  }

  lemma OneCheckLeads(w: World, s: State, t: Name)
    requires s.cycle.Checking? && s.cycle.read.None? && AllPass(w, s, s.cycle.pod)
    requires t in AffectsOf(s, s.cycle.pod) && t !in s.cycle.passed
    ensures Leads(w, s, [ReadReserved(t), Judge], s.(cycle := s.cycle.(passed := s.cycle.passed + {t})))
  {
    hide Demand, CheckThrottle, Total;
    var s1, s2 := Apply(w, s, ReadReserved(t)), s.(cycle := s.cycle.(passed := s.cycle.passed + {t}));
    assert Demand(s1, t) == Demand(s, t) by { SameDemand(s, s1, t); }
    assert Demand(s, t) * Demand(s, t) == Demand(s, t);
    assert Pruned(s1) == s1;
    OneStepLeads(w, s, ReadReserved(t));
    OneStepLeads(w, s1, Judge);
    assert Apply(w, s1, Judge) == s2 == Pruned(s2);
    LeadsOn(w, s, [ReadReserved(t)], s1, [Judge], s2);
  }

  lemma {:induction false} ChecksLead(w: World, s: State) returns (steps: seq<Step>)
    requires s.cycle.Checking? && s.cycle.read.None? && AllPass(w, s, s.cycle.pod)
    requires s.cycle.passed <= AffectsOf(s, s.cycle.pod)
    ensures Leads(w, s, steps, s.(cycle := s.cycle.(passed := AffectsOf(s, s.cycle.pod))))
    ensures forall step | step in steps :: step.ReadReserved? || step.Judge?
    decreases AffectsOf(s, s.cycle.pod) - (if s.cycle.Checking? then s.cycle.passed else {})
  {
    hide AllPass, Apply, Enabled, Pruned, Demand;
    var affected := AffectsOf(s, s.cycle.pod);
    if affected - s.cycle.passed == {} {
      steps := [];
      assert s.cycle.passed == s.cycle.passed + (affected - s.cycle.passed) == affected;
    } else {
      var t :| t in affected - s.cycle.passed;
      var s' := s.(cycle := s.cycle.(passed := s.cycle.passed + {t}));
      OneCheckLeads(w, s, t);
      assert AllPass(w, s', s'.cycle.pod) by { SamePass(w, s, s', s.cycle.pod); }
      var rest := ChecksLead(w, s');
      steps := [ReadReserved(t), Judge] + rest;
      LeadsOn(w, s, [ReadReserved(t), Judge], s', rest, s.(cycle := s.cycle.(passed := affected)));
    }
  }

  lemma SamePass(w: World, s: State, s': State, p: Name)
    requires s'.affects == s.affects && s'.thrs == s.thrs && AllPass(w, s, p)
    ensures AllPass(w, s', p)
  {
  }

  /** The pod's reservations on some more throttles, and who is done. */
  function Reserved(w: World, s: State, ts: set<Name>): State
    requires s.cycle.Reserving?
  {
    s.(thrs := map t | t in s.thrs :: if t in ts then WithReservation(w, s.thrs[t], s.cycle.pod) else s.thrs[t],
       cycle := s.cycle.(done := s.cycle.done + ts))
  }

  lemma ReservesAddUp(w: World, s: State, ts: set<Name>, t: Name)
    requires s.cycle.Reserving? && t in ts && t in s.thrs && t in AffectsOf(s, s.cycle.pod)
    ensures Reserved(w, Apply(w, s, ReserveOn(t)), ts - {t}) == Reserved(w, s, ts)
  {
    var s' := Apply(w, s, ReserveOn(t));
    assert s'.cycle.done + (ts - {t}) == s.cycle.done + ts;
    assert Reserved(w, s', ts - {t}).thrs == Reserved(w, s, ts).thrs;
  }

  lemma {:induction false} ReservesLead(w: World, s: State, ts: set<Name>) returns (steps: seq<Step>)
    requires s.cycle.Reserving? && ts <= AffectsOf(s, s.cycle.pod) && ts <= s.thrs.Keys
    ensures Leads(w, s, steps, Reserved(w, s, ts)) && forall step | step in steps :: step.ReserveOn?
    decreases ts
  {
    if ts == {} {
      steps := [];
      assert Reserved(w, s, ts).thrs == s.thrs;
      assert s.cycle.done + {} == s.cycle.done;
    } else {
      var t :| t in ts;
      var s' := Apply(w, s, ReserveOn(t));
      OneStepLeads(w, s, ReserveOn(t));
      var rest := ReservesLead(w, s', ts - {t});
      ReservesAddUp(w, s, ts, t);
      LeadsOn(w, s, [ReserveOn(t)], s', rest, Reserved(w, s, ts));
      steps := [ReserveOn(t)] + rest;
    }
  }

  /** The pod's reservations gone from some throttles. */
  function Unreserved(s: State, p: Name, ts: set<Name>): State {
    s.(thrs := map t | t in s.thrs :: if t in ts then WithoutReservation(s.thrs[t], p) else s.thrs[t])
  }

  lemma {:induction false} UnreservesLead(w: World, s: State, p: Name, ts: set<Name>) returns (steps: seq<Step>)
    requires PhaseOf(s, p).Unreserving? && ts <= AffectsOf(s, p) && ts <= s.thrs.Keys && Pruned(s) == s
    ensures Leads(w, s, steps, Unreserved(s, p, ts))
    ensures forall step | step in steps :: step.UnreserveOn? && step.p == p
    decreases ts
  {
    if ts == {} {
      steps := [];
      assert Unreserved(s, p, ts).thrs == s.thrs;
    } else {
      var t :| t in ts;
      var s' := Apply(w, s, UnreserveOn(p, t));
      OneStepLeads(w, s, UnreserveOn(p, t));
      NothingToPrune(s, s');
      var rest := UnreservesLead(w, s', p, ts - {t});
      assert Unreserved(s', p, ts - {t}).thrs == Unreserved(s, p, ts).thrs;
      LeadsOn(w, s, [UnreserveOn(p, t)], s', rest, Unreserved(s, p, ts));
      steps := [UnreserveOn(p, t)] + rest;
    }
  }

  /** A refusal by any one throttle ends the cycle. */
  lemma RefusalLeads(w: World, s: State, t: Name)
    requires s.cycle.Checking? && s.cycle.read.None? && s.cycle.passed == {}
    requires t in AffectsOf(s, s.cycle.pod) && t in s.thrs
    requires var th := s.thrs[t];
      CheckThrottle(th.spec, th.status, RequestOf(w, s.cycle.pod), Total(th.reserved), false) != NotThrottled
    ensures Leads(w, s, [ReadReserved(t), Judge], s.(cycle := NoCycle))
  {
    hide Demand, CheckThrottle, Total;
    var s1, s2 := Apply(w, s, ReadReserved(t)), s.(cycle := NoCycle);
    assert Demand(s1, t) == Demand(s, t) by { SameDemand(s, s1, t); }
    assert Demand(s, t) * Demand(s, t) == Demand(s, t);
    assert Pruned(s1) == s1;
    OneStepLeads(w, s, ReadReserved(t));
    OneStepLeads(w, s1, Judge);
    assert Apply(w, s1, Judge) == s2 == Pruned(s2);
    LeadsOn(w, s, [ReadReserved(t)], s1, [Judge], s2);
  }

  /** The pod is in flight, and reserved on every throttle that affects it. */
  function Admitted(w: World, s: State, p: Name): State {
    WithPhase(s, p, InFlight).(thrs := map t | t in s.thrs ::
      if t in AffectsOf(s, p) then WithReservation(w, s.thrs[t], p) else s.thrs[t])
  }

  /** Nothing but steps of a scheduling cycle. */
  predicate OfCycle(steps: seq<Step>) {
    forall step | step in steps ::
      || step.StartCycle? || step.ReadReserved? || step.Judge? || step.BeginReserve? || step.ReserveOn? || step.Assume?
  }

  lemma CycleOn(steps: seq<Step>, more: seq<Step>)
    requires OfCycle(steps) && OfCycle(more)
    ensures OfCycle(steps + more)
  {
  }

  /** Safety is not bought by refusing: a pending pod for which every throttle has room gets in. */
  lemma PodWithRoomGetsIn(w: World, s: State, p: Name) returns (steps: seq<Step>)
    requires s.cycle.NoCycle? && PhaseOf(s, p).Pending? && AllPass(w, s, p)
    ensures Leads(w, s, steps, Admitted(w, s, p)) && OfCycle(steps)
  {
    hide Demand, CheckThrottle, Total, Leads, AllPass;
    var affected := AffectsOf(s, p);
    var started := s.(cycle := Checking(p, {}, None));
    OneStepLeads(w, s, StartCycle(p));
    SamePass(w, s, started, p);
    var checks := ChecksLead(w, started);
    var checked := s.(cycle := Checking(p, affected, None));
    OneStepLeads(w, checked, BeginReserve);
    var reserving := s.(cycle := Reserving(p, {}));
    assert affected <= s.thrs.Keys by { Known(w, s, p); }
    var reserves := ReservesLead(w, reserving, affected);
    var reserved := Reserved(w, reserving, affected);
    OneStepLeads(w, reserved, Assume);
    assert Apply(w, reserved, Assume) == Admitted(w, s, p);
    LeadsOn(w, reserving, reserves, reserved, [Assume], Admitted(w, s, p));
    LeadsOn(w, checked, [BeginReserve], reserving, reserves + [Assume], Admitted(w, s, p));
    steps := [BeginReserve] + (reserves + [Assume]);
    CycleOn(reserves, [Assume]);
    CycleOn([BeginReserve], reserves + [Assume]);
    CycleOn(checks, steps);
    CycleOn([StartCycle(p)], checks + steps);
    LeadsOn(w, started, checks, checked, steps, Admitted(w, s, p));
    LeadsOn(w, s, [StartCycle(p)], started, checks + steps, Admitted(w, s, p));
    steps := [StartCycle(p)] + (checks + steps);
  }

  lemma Known(w: World, s: State, p: Name)
    requires AllPass(w, s, p)
    ensures AffectsOf(s, p) <= s.thrs.Keys
  {
  }

  // ---------------------------------------------------------------- usage

  /** The machine's usage of names is the controller's usage of pods. */
  lemma UsagesAgree(w: World, pods: set<Pod>)
    requires NamesAreKeys(pods) && forall p | p in pods :: RequestOf(w, p.name) == p.request
    ensures UsageOf(pods) == UsedBy(w, set p | p in pods :: p.name)
  {
    hide UsageOf, Sum, Total;
    UsedAndReservedCountEachPodOnce(pods, map[]);
    assert Total<Name>(map[]) == NOTHING by { NothingIsReserved(); }
    SumIsCommutativeMonoid(UsageOf(pods), NOTHING, NOTHING);
    var names := set p | p in pods :: p.name;
    assert map[] + ByName(pods) == ByName(pods) == AmountsOf(w, names);
  }

  lemma NothingIsReserved()
    ensures Total<Name>(map[]) == NOTHING
  {
  }
}
