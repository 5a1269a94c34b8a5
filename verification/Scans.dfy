/**
 The split of a throttle's pods into running and terminated ones (pkg/controllers/throttle_controller.go:227-246).
 The terminated list is built from the running one, so the two slices may share an array, and a later append
 to the running list can overwrite the last terminated pod.
 */
module Scans {
  import opened Names
  import opened PodModel
  import opened ResourceAmounts
  import opened ReservedAmounts
  import opened Usage
  import opened Slices

  function Unfinished(pods: seq<Pod>): seq<Pod> {
    if pods == [] then []
    else
      var last := |pods| - 1;
      Unfinished(pods[..last]) + if IsNotFinished(pods[last]) then [pods[last]] else []
  }

  /** The two lists; `shared` when the last terminated pod sits in the running slice's next free slot. */
  datatype Scan = Scan(running: seq<Pod>, terminated: seq<Pod>, shared: bool)

  /** One more pod, when the running slice has capacity `cap`. */
  function Take(s: Scan, cap: nat, pod: Pod): Scan {
    if !IsNotFinished(pod) then Scan(s.running, s.running + [pod], |s.running| < cap)
    else
      var terminated := if s.shared && s.terminated != [] then s.terminated[|s.terminated|-1 := pod] else s.terminated;
      Scan(s.running + [pod], terminated, false)
  }

  function Scanned(pods: seq<Pod>, caps: seq<nat>): Scan
    requires |pods| <= |caps|
  {
    if pods == [] then Scan([], [], false)
    else Take(Scanned(pods[..|pods|-1], caps), caps[|pods|-1], pods[|pods|-1])
  }

  /** How the running slice's capacity may grow: from zero, and only when a running pod finds it full. */
  ghost predicate IsGrowth(pods: seq<Pod>, caps: seq<nat>) {
    |caps| == |pods| + 1 && caps[0] == 0 && forall i | 0 <= i < |pods| :: GrowsAt(pods, caps, i)
  }

  ghost predicate GrowsAt(pods: seq<Pod>, caps: seq<nat>, i: nat)
    requires i < |pods| < |caps|
  {
    var n := |Unfinished(pods[..i])|;
    n <= caps[i] && if IsNotFinished(pods[i]) && n == caps[i] then n < caps[i+1] else caps[i+1] == caps[i]
  }

  lemma {:induction false} ScannedReadsOnly(pods: seq<Pod>, caps: seq<nat>, caps': seq<nat>)
    requires |pods| <= |caps| <= |caps'| && caps == caps'[..|caps|]
    ensures Scanned(pods, caps') == Scanned(pods, caps)
  {
    if pods != [] {
      ScannedReadsOnly(pods[..|pods|-1], caps, caps');
    }
  }

  lemma {:induction false} RunningIsUnfinished(pods: seq<Pod>, caps: seq<nat>)
    requires |pods| <= |caps|
    ensures Scanned(pods, caps).running == Unfinished(pods)
  {
    if pods != [] {
      RunningIsUnfinished(pods[..|pods|-1], caps);
    }
  }

  method Split(pods: seq<Pod>) returns (running: Slice, terminated: Slice, ghost caps: seq<nat>)
    ensures running.len <= running.arr.Length && terminated.len <= terminated.arr.Length
    ensures fresh(running.arr) && fresh(terminated.arr)
    ensures IsGrowth(pods, caps)
    ensures Contents(running) == Scanned(pods, caps).running
    ensures Contents(terminated) == Scanned(pods, caps).terminated
  {
    var none := new Pod[0];
    running := Slice(none, 0);
    none := new Pod[0];
    terminated := Slice(none, 0);
    caps := [0];
    assert pods[..0] == [];
    for i := 0 to |pods|
      invariant running.len <= running.arr.Length && terminated.len <= terminated.arr.Length
      invariant fresh(running.arr) && fresh(terminated.arr)
      invariant IsGrowth(pods[..i], caps) && caps[i] == running.arr.Length
      invariant Contents(running) == Scanned(pods[..i], caps).running
      invariant Contents(terminated) == Scanned(pods[..i], caps).terminated
      invariant var scan := Scanned(pods[..i], caps);
        if scan.shared then terminated.arr == running.arr && terminated.len == running.len + 1
        else terminated.arr == running.arr ==> terminated.len <= running.len
    {
      hide Scanned, IsGrowth, Unfinished;
      assert pods[..i+1] == pods[..i] + [pods[i]];
      ghost var before := caps;
      RunningIsUnfinished(pods[..i], caps);
      if IsNotFinished(pods[i]) {
        running := Append(running, pods[i]);
      } else {
        terminated := Append(running, pods[i]);
      }
      caps := caps + [running.arr.Length];
      OneMoreGrows(pods[..i], before, pods[i], running.arr.Length);
    }
    assert pods[..|pods|] == pods;
  }

  lemma OneMoreGrows(pods: seq<Pod>, caps: seq<nat>, pod: Pod, cap: nat)
    requires IsGrowth(pods, caps) && |Unfinished(pods)| <= caps[|pods|]
    requires
      if IsNotFinished(pod) && |Unfinished(pods)| == caps[|pods|] then |Unfinished(pods)| < cap
      else cap == caps[|pods|]
    ensures IsGrowth(pods + [pod], caps + [cap])
    ensures Scanned(pods + [pod], caps + [cap]) == Take(Scanned(pods, caps), caps[|pods|], pod)
  {
    var pods', caps' := pods + [pod], caps + [cap];
    assert pods'[..|pods|] == pods;
    forall i | 0 <= i < |pods'| ensures GrowsAt(pods', caps', i) {
      if i < |pods| {
        assert GrowsAt(pods, caps, i);
        assert pods'[..i] == pods[..i];
      }
    }
    ScannedReadsOnly(pods, caps, caps');
  }

  // ---------------------------------------------------------------- what the terminated list holds

  lemma {:induction false} UnfinishedIsPart(pods: seq<Pod>)
    ensures forall p :: p in Unfinished(pods) <==> p in pods && IsNotFinished(p)
  {
    if pods != [] {
      var last := |pods| - 1;
      UnfinishedIsPart(pods[..last]);
      assert pods == pods[..last] + [pods[last]];
    }
  }

  lemma {:induction false} UnfinishedHasNoDuplicates(pods: seq<Pod>)
    requires NoDuplicates(pods)
    ensures NoDuplicates(Unfinished(pods))
  {
    if pods != [] {
      var last := |pods| - 1;
      UnfinishedHasNoDuplicates(pods[..last]);
      UnfinishedIsPart(pods[..last]);
      assert pods[last] !in pods[..last];
    }
  }

  /** Pod f is the last finished one. */
  ghost predicate LastFinished(pods: seq<Pod>, f: nat) {
    f < |pods| && !IsNotFinished(pods[f]) && forall j | f < j < |pods| :: IsNotFinished(pods[j])
  }

  /** The last finished pod is overwritten: a running pod follows, and the running slice had room. */
  predicate Overwritten(pods: seq<Pod>, caps: seq<nat>, f: nat)
    requires f < |pods| <= |caps|
  {
    f + 1 < |pods| && |Unfinished(pods[..f])| < caps[f]
  }

  lemma {:induction false} NothingTerminated(pods: seq<Pod>, caps: seq<nat>)
    requires |pods| <= |caps| && forall p | p in pods :: IsNotFinished(p)
    ensures Scanned(pods, caps).terminated == []
  {
    if pods != [] {
      var last := |pods| - 1;
      assert pods[last] in pods;
      NothingTerminated(pods[..last], caps);
    }
  }

  /** The list is the running pods before the last finished one, and then that pod, or the one that overwrote it. */
  lemma {:induction false} TerminatedIs(pods: seq<Pod>, caps: seq<nat>, f: nat)
    requires |pods| <= |caps| && LastFinished(pods, f)
    ensures Scanned(pods, caps).terminated
         == Unfinished(pods[..f]) + [if Overwritten(pods, caps, f) then pods[f+1] else pods[f]]
    ensures Scanned(pods, caps).shared <==> f == |pods| - 1 && |Unfinished(pods[..f])| < caps[f]
  {
    var last := |pods| - 1;
    var front := pods[..last];
    RunningIsUnfinished(front, caps);
    if f < last {
      assert front[..f] == pods[..f];
      TerminatedIs(front, caps, f);
    }
  }

  /** Every finished pod is in the terminated list. */
  ghost predicate Complete(pods: seq<Pod>, caps: seq<nat>)
    requires |pods| <= |caps|
  {
    forall p | p in pods && !IsNotFinished(p) :: p in Scanned(pods, caps).terminated
  }

  ghost predicate OnlyFinished(pods: seq<Pod>, f: nat) {
    f < |pods| && !IsNotFinished(pods[f]) && forall j | 0 <= j < |pods| && j != f :: IsNotFinished(pods[j])
  }

  lemma {:induction false} SomeLastFinished(pods: seq<Pod>) returns (f: nat)
    requires exists p :: p in pods && !IsNotFinished(p)
    ensures LastFinished(pods, f)
  {
    var last := |pods| - 1;
    if !IsNotFinished(pods[last]) {
      f := last;
    } else {
      f := SomeLastFinished(pods[..last]);
    }
  }

  /**
   The terminated list is complete exactly when no pod has finished, or just one has and it is not overwritten:
   it is listed last, or the running slice was full when it was appended.
   */
  lemma CompleteExactlyWhen(pods: seq<Pod>, caps: seq<nat>)
    requires NoDuplicates(pods) && |pods| <= |caps|
    ensures Complete(pods, caps) <==>
      (forall p | p in pods :: IsNotFinished(p)) || exists f :: OnlyFinished(pods, f) && !Overwritten(pods, caps, f)
  {
    if exists p :: p in pods && !IsNotFinished(p) {
      var f := SomeLastFinished(pods);
      TerminatedIs(pods, caps, f);
      UnfinishedIsPart(pods[..f]);
      assert forall g | OnlyFinished(pods, g) :: g == f;
      if Complete(pods, caps) {
        assert pods[f] in pods && !Overwritten(pods, caps, f);
        forall j | 0 <= j < |pods| && j != f ensures IsNotFinished(pods[j]) {
          assert pods[j] in pods && pods[j] != pods[f];
        }
        assert OnlyFinished(pods, f);
      }
    }
  }

  /** Room for everything as soon as there is a first running pod. */
  function Generous(pods: seq<Pod>): seq<nat> {
    seq(|pods| + 1, i requires 0 <= i <= |pods| => if Unfinished(pods[..i]) == [] then 0 else |pods|)
  }

  lemma {:induction false} UnfinishedAreFewer(pods: seq<Pod>)
    ensures |Unfinished(pods)| <= |pods|
  {
    if pods != [] {
      UnfinishedAreFewer(pods[..|pods|-1]);
    }
  }

  lemma GenerousIsGrowth(pods: seq<Pod>)
    ensures IsGrowth(pods, Generous(pods))
  {
    var caps := Generous(pods);
    assert pods[..0] == [];
    forall i | 0 <= i < |pods| ensures GrowsAt(pods, caps, i) {
      UnfinishedAreFewer(pods[..i]);
      assert pods[..i+1][..i] == pods[..i];
    }
  }

  /**
   However the runtime grows slices, nothing is missed exactly when no pod has finished, or just one, listed first
   or last.
   */
  lemma AlwaysCompleteExactlyWhen(pods: seq<Pod>)
    requires NoDuplicates(pods)
    ensures (forall caps | IsGrowth(pods, caps) :: Complete(pods, caps)) <==>
      (forall p | p in pods :: IsNotFinished(p))
      || exists f :: OnlyFinished(pods, f) && (f == 0 || f == |pods| - 1)
  {
    var generous := Generous(pods);
    GenerousIsGrowth(pods);
    CompleteExactlyWhen(pods, generous);
    forall caps | IsGrowth(pods, caps) ensures
      (exists f :: OnlyFinished(pods, f) && (f == 0 || f == |pods| - 1)) ==> Complete(pods, caps)
    {
      CompleteExactlyWhen(pods, caps);
      assert pods[..0] == [];
    }
    if f: nat :| OnlyFinished(pods, f) && !Overwritten(pods, generous, f) && 0 < f < |pods| - 1 {
      UnfinishedAreFewer(pods[..f]);
    }
  }

  /** Five pods, the fourth one finished, and a slice that doubles when full: the fifth pod overwrites the fourth. */
  lemma FinishedPodIsLost()
    ensures exists pods ::
      && |pods| == 5 && NoDuplicates(pods) && OnlyFinished(pods, 3) && IsGrowth(pods, [0, 1, 2, 4, 4, 4])
      && Scanned(pods, [0, 1, 2, 4, 4, 4]).terminated == [pods[0], pods[1], pods[2], pods[4]]
  {
    var a := Pod(Name("ns", "a"), map[], "", "node", PhaseRunning, map[]);
    var b, c, e := a.(name := Name("ns", "b")), a.(name := Name("ns", "c")), a.(name := Name("ns", "e"));
    var d := a.(name := Name("ns", "d"), phase := PhaseSucceeded);
    var pods := [a, b, c, d, e];
    assert NoDuplicates(pods) && OnlyFinished(pods, 3);
    FourthIsOverwritten(pods);
  }

  lemma FourthIsOverwritten(pods: seq<Pod>)
    requires |pods| == 5 && OnlyFinished(pods, 3)
    ensures IsGrowth(pods, [0, 1, 2, 4, 4, 4])
    ensures Scanned(pods, [0, 1, 2, 4, 4, 4]).terminated == [pods[0], pods[1], pods[2], pods[4]]
  {
    hide Unfinished, Scanned;
    forall i | 0 <= i <= 3 ensures Unfinished(pods[..i]) == pods[..i] {
      AllUnfinished(pods[..i]);
    }
    assert pods[..4] == pods[..3] + [pods[3]];
    FinishedIsSkipped(pods[..3], pods[3]);
    DoublingIsGrowth(pods);
    TerminatedIs(pods, [0, 1, 2, 4, 4, 4], 3);
  }

  lemma DoublingIsGrowth(pods: seq<Pod>)
    requires |pods| == 5 && OnlyFinished(pods, 3)
    requires (forall i | 0 <= i <= 3 :: Unfinished(pods[..i]) == pods[..i]) && Unfinished(pods[..4]) == pods[..3]
    ensures IsGrowth(pods, [0, 1, 2, 4, 4, 4])
  {
    hide Unfinished;
    var caps: seq<nat> := [0, 1, 2, 4, 4, 4];
    assert GrowsAt(pods, caps, 0) && GrowsAt(pods, caps, 1) && GrowsAt(pods, caps, 2);
    assert GrowsAt(pods, caps, 3) && GrowsAt(pods, caps, 4);
  }

  lemma {:induction false} AllUnfinished(pods: seq<Pod>)
    requires forall p | p in pods :: IsNotFinished(p)
    ensures Unfinished(pods) == pods
  {
    if pods != [] {
      assert pods[|pods|-1] in pods;
      AllUnfinished(pods[..|pods|-1]);
    }
  }

  lemma FinishedIsSkipped(pods: seq<Pod>, p: Pod)
    requires (forall q | q in pods :: IsNotFinished(q)) && !IsNotFinished(p)
    ensures Unfinished(pods + [p]) == pods
  {
    assert (pods + [p])[..|pods|] == pods;
    AllUnfinished(pods);
  }

  // ---------------------------------------------------------------- what a reconcile drops

  /** One order in which the lister may show the pods, and one growth of the running slice. */
  ghost predicate Shows(affected: seq<Pod>, caps: seq<nat>, pods: set<Pod>) {
    NoDuplicates(affected) && Elements(affected) == pods && IsGrowth(affected, caps)
  }

  ghost function DroppedBy(affected: seq<Pod>, caps: seq<nat>): set<Name>
    requires |affected| <= |caps|
  {
    NamesOf(Scanned(affected, caps).running + Scanned(affected, caps).terminated)
  }

  /** What a reconcile may un-reserve, depending on the lister's order and on the growth of slices. */
  ghost predicate MayBeDropped(pods: set<Pod>, dropped: set<Name>) {
    exists affected, caps :: Shows(affected, caps, pods) && dropped == DroppedBy(affected, caps)
  }

  ghost function RunningNames(pods: set<Pod>): set<Name> {
    set p | p in pods && IsNotFinished(p) :: p.name
  }

  lemma DroppedByIs(affected: seq<Pod>, caps: seq<nat>, pods: set<Pod>, f: nat)
    requires Shows(affected, caps, pods) && LastFinished(affected, f)
    ensures DroppedBy(affected, caps)
         == RunningNames(pods) + if Overwritten(affected, caps, f) then {} else {affected[f].name}
  {
    var scan, before := Scanned(affected, caps), affected[..f];
    RunningIsUnfinished(affected, caps);
    TerminatedIs(affected, caps, f);
    UnfinishedIsPart(affected);
    UnfinishedIsPart(before);
    var p := if Overwritten(affected, caps, f) then affected[f+1] else affected[f];
    assert forall q | q in before :: q in affected;
    assert p in affected && scan.terminated == Unfinished(before) + [p];
    assert forall q :: q in scan.running + scan.terminated <==> q in scan.running || q == p;
    NamesOfRunning(affected, pods);
    assert NamesOf(scan.running + scan.terminated) == NamesOf(scan.running) + {p.name} by {
      assert p in scan.running + scan.terminated;
    }
  }

  lemma NamesOfRunning(affected: seq<Pod>, pods: set<Pod>)
    requires Elements(affected) == pods
    ensures NamesOf(Unfinished(affected)) == RunningNames(pods)
  {
    UnfinishedIsPart(affected);
    assert forall p :: p in Elements(affected) <==> p in affected;
  }

  lemma {:induction false} NoRunningNoRoom(pods: seq<Pod>, caps: seq<nat>, i: nat)
    requires IsGrowth(pods, caps) && i <= |pods| && Unfinished(pods[..i]) == []
    ensures caps[i] == 0
  {
    if i > 0 {
      assert pods[..i][..i-1] == pods[..i-1];
      NoRunningNoRoom(pods, caps, i - 1);
      assert GrowsAt(pods, caps, i - 1);
    }
  }

  ghost predicate TwoRunning(pods: set<Pod>) {
    exists p, q | p in pods && q in pods :: p != q && IsNotFinished(p) && IsNotFinished(q)
  }

  lemma OverwritingTakesTwo(affected: seq<Pod>, caps: seq<nat>, pods: set<Pod>, f: nat)
    requires Shows(affected, caps, pods) && LastFinished(affected, f) && Overwritten(affected, caps, f)
    ensures TwoRunning(pods)
  {
    var before := affected[..f];
    if Unfinished(before) == [] {
      NoRunningNoRoom(affected, caps, f);
    }
    var p, q := Unfinished(before)[0], affected[f+1];
    UnfinishedIsPart(before);
    assert p in before && p in affected && q in affected;
    assert p in pods && q in pods && p != q;
  }

  lemma {:induction false} SomeOrder(pods: set<Pod>) returns (s: seq<Pod>)
    ensures NoDuplicates(s) && Elements(s) == pods
    decreases pods
  {
    if pods == {} {
      s := [];
    } else {
      var p :| p in pods;
      var rest := SomeOrder(pods - {p});
      assert p !in Elements(rest);
      s := rest + [p];
      assert Elements(s) == Elements(rest) + {p};
    }
  }

  /** Any finished pod can be the last one listed. */
  lemma AnyFinishedMayBeDropped(pods: set<Pod>, p: Pod)
    requires p in pods && !IsNotFinished(p)
    ensures MayBeDropped(pods, RunningNames(pods) + {p.name})
  {
    var rest := SomeOrder(pods - {p});
    var affected := rest + [p];
    assert p !in Elements(rest);
    GenerousIsGrowth(affected);
    assert Elements(affected) == Elements(rest) + {p} == pods;
    assert Shows(affected, Generous(affected), pods);
    DroppedByIs(affected, Generous(affected), pods, |rest|);
  }

  lemma NoneFinishedDropsTheRunning(pods: set<Pod>)
    requires forall p | p in pods :: IsNotFinished(p)
    ensures MayBeDropped(pods, RunningNames(pods))
    ensures forall dropped | MayBeDropped(pods, dropped) :: dropped == RunningNames(pods)
  {
    forall affected, caps | Shows(affected, caps, pods) ensures DroppedBy(affected, caps) == RunningNames(pods) {
      assert forall p | p in affected :: p in Elements(affected);
      NothingTerminated(affected, caps);
      RunningIsUnfinished(affected, caps);
      NamesOfRunning(affected, pods);
      assert Unfinished(affected) + [] == Unfinished(affected);
    }
    var affected := SomeOrder(pods);
    GenerousIsGrowth(affected);
    assert Shows(affected, Generous(affected), pods);
  }

  /** With a running pod before all finished ones and another after them, no finished pod is dropped. */
  lemma TwoRunningMayHideTheFinished(pods: set<Pod>)
    requires TwoRunning(pods) && exists p :: p in pods && !IsNotFinished(p)
    ensures MayBeDropped(pods, RunningNames(pods))
  {
    var p, q :| p in pods && q in pods && p != q && IsNotFinished(p) && IsNotFinished(q);
    var r :| r in pods && !IsNotFinished(r);
    var finished := set x | x in pods && !IsNotFinished(x);
    HidingTheFinished(pods, finished, p, q, r);
  }

  lemma HidingTheFinished(pods: set<Pod>, finished: set<Pod>, p: Pod, q: Pod, r: Pod)
    requires forall x :: x in finished <==> x in pods && !IsNotFinished(x)
    requires {p, q} <= pods - finished && p != q && r in finished
    ensures MayBeDropped(pods, RunningNames(pods))
  {
    hide NoDuplicates, DroppedBy, Elements, IsNotFinished, LastFinished, Overwritten, Generous, RunningNames;
    var front := SomeOrder(finished);
    var back := SomeOrder(pods - finished - {p});
    NonEmpty(front, r);
    NonEmpty(back, q);
    AroundTheFinished(p, front, back);
    assert {p} + finished + (pods - finished - {p}) == pods;
    var affected := [p] + front + back;
    DroppedByIs(affected, Generous(affected), pods, |front|);
    assert RunningNames(pods) + {} == RunningNames(pods);
  }

  lemma NonEmpty(pods: seq<Pod>, p: Pod)
    requires p in Elements(pods)
    ensures pods != []
  {
  }

  lemma AroundTheFinished(p: Pod, front: seq<Pod>, back: seq<Pod>)
    requires NoDuplicates(front) && NoDuplicates(back) && front != [] && back != [] && IsNotFinished(p)
    requires forall x | x in Elements(front) :: !IsNotFinished(x)
    requires forall x | x in Elements(back) :: IsNotFinished(x) && x != p
    ensures var affected := [p] + front + back;
      && Shows(affected, Generous(affected), {p} + Elements(front) + Elements(back))
      && LastFinished(affected, |front|) && Overwritten(affected, Generous(affected), |front|)
  {
    var affected, f := [p] + front + back, |front|;
    assert forall i | 0 <= i < |front| :: front[i] in Elements(front);
    assert forall i | 0 <= i < |back| :: back[i] in Elements(back);
    assert Elements(affected) == {p} + Elements(front) + Elements(back);
    GenerousIsGrowth(affected);
    assert affected[..f][0] == p;
    UnfinishedIsPart(affected[..f]);
    UnfinishedAreFewer(affected[..f]);
    assert p in Unfinished(affected[..f]);
  }

  /**
   Exactly what may be dropped: all running pods and one finished pod, any one; or the running pods alone, when
   there is no finished pod, or when two running pods can be listed around the finished ones.
   */
  lemma DroppedExactly(pods: set<Pod>, dropped: set<Name>)
    ensures MayBeDropped(pods, dropped) <==>
      || (exists p | p in pods && !IsNotFinished(p) :: dropped == RunningNames(pods) + {p.name})
      || (dropped == RunningNames(pods) && ((forall p | p in pods :: IsNotFinished(p)) || TwoRunning(pods)))
  {
    if forall p | p in pods :: IsNotFinished(p) {
      NoneFinishedDropsTheRunning(pods);
    } else {
      forall affected, caps | Shows(affected, caps, pods)
        ensures DroppedBy(affected, caps) == RunningNames(pods) ==>
          TwoRunning(pods) || OneIsDropped(pods, DroppedBy(affected, caps))
        ensures DroppedBy(affected, caps) == RunningNames(pods) || OneIsDropped(pods, DroppedBy(affected, caps))
      {
        assert exists p :: p in affected && !IsNotFinished(p);
        var f := SomeLastFinished(affected);
        DroppedByIs(affected, caps, pods, f);
        if Overwritten(affected, caps, f) {
          OverwritingTakesTwo(affected, caps, pods, f);
        } else {
          assert affected[f] in Elements(affected);
        }
      }
      forall p | p in pods && !IsNotFinished(p) {
        AnyFinishedMayBeDropped(pods, p);
      }
      if TwoRunning(pods) {
        TwoRunningMayHideTheFinished(pods);
      }
    }
  }

  ghost predicate OneIsDropped(pods: set<Pod>, dropped: set<Name>) {
    exists p | p in pods && !IsNotFinished(p) :: dropped == RunningNames(pods) + {p.name}
  }

  /**
   Dropping again changes nothing, in whatever order the pods are listed then, exactly when no finished pod is
   still reserved.
   */
  lemma DroppingAgainChangesNothing(pods: set<Pod>, reserved: map<Name, Amount>)
    requires forall p | p in pods && IsNotFinished(p) :: p.name !in reserved
    ensures (forall dropped | MayBeDropped(pods, dropped) :: reserved - dropped == reserved) <==>
      forall p | p in pods && !IsNotFinished(p) :: p.name !in reserved
  {
    if p :| p in pods && !IsNotFinished(p) && p.name in reserved {
      AnyFinishedMayBeDropped(pods, p);
      assert p.name !in reserved - (RunningNames(pods) + {p.name});
    } else {
      forall dropped | MayBeDropped(pods, dropped) ensures reserved - dropped == reserved {
        DroppedExactly(pods, dropped);
      }
    }
  }

  /** Two finished pods, both reserved: the second of two reconciles may drop the one that the first one missed. */
  lemma SecondDropMayDropMore()
    ensures exists pods: set<Pod>, reserved: map<Name, Amount>, first, second ::
      && NamesAreKeys(pods) && MayBeDropped(pods, first) && MayBeDropped(pods, second)
      && reserved - first - second != reserved - first
  {
    hide MayBeDropped;
    var p := Pod(Name("ns", "p"), map[], "", "node", PhaseSucceeded, map[]);
    var q := p.(name := Name("ns", "q"));
    var pods := {p, q};
    var reserved: map<Name, Amount> := map[p.name := OfPod(p.request), q.name := OfPod(q.request)];
    AnyFinishedMayBeDropped(pods, p);
    AnyFinishedMayBeDropped(pods, q);
    assert RunningNames(pods) == {};
    var first, second := RunningNames(pods) + {p.name}, RunningNames(pods) + {q.name};
    assert q.name in reserved - first && q.name !in reserved - first - second;
    assert NamesAreKeys(pods) && MayBeDropped(pods, first) && MayBeDropped(pods, second)
      && reserved - first - second != reserved - first;
  }
}
