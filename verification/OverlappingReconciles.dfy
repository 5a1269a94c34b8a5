/**
 Why per-key exclusion matters, and why ClusterThrottle lacks it. Its pod updates enqueue the key "/name" where other
 events enqueue "name" (pkg/controllers/clusterthrottle_controller.go:539); the work queue takes them for two keys, so
 two reconciles of one object may overlap. This is the part of the step machine that coverage is about: one throttle,
 its live pods, and any number of reconciles.
 */
module OverlappingReconciles {
  import opened Wrappers
  import opened Names

  // ---------------------------------------------------------------- two keys, one object

  /** How a reconcile splits its key at the slashes: a name, or a namespace and a name. */
  function SplitKey(key: string): Option<Name> {
    if Slashes(key) == 0 then Some(Name("", key))
    else if Slashes(key) == 1 then Some(Name(key[..SlashAt(key)], key[SlashAt(key)+1..]))
    else None
  }

  function Slashes(key: string): nat {
    if key == "" then 0 else Slashes(key[1..]) + if key[0] == '/' then 1 else 0
  }

  function SlashAt(key: string): (i: nat)
    requires Slashes(key) > 0
    ensures i < |key| && key[i] == '/' && '/' !in key[..i]
  {
    if key[0] == '/' then 0 else SlashAt(key[1..]) + 1
  }

  lemma {:induction false} NoSlashes(key: string)
    requires '/' !in key
    ensures Slashes(key) == 0
  {
    if key != "" {
      NoSlashes(key[1..]);
    }
  }

  /** The two keys differ, so the queue keeps both, and both name the same object. */
  lemma TwoKeysOneObject(name: string)
    requires '/' !in name
    ensures "/" + name != name && SplitKey("/" + name) == SplitKey(name) == Some(Name("", name))
  {
    NoSlashes(name);
    assert ("/" + name)[1..] == name && ("/" + name)[..0] == "";
  }

  // ---------------------------------------------------------------- the machine

  datatype Stage = Idle | Snapshotted(listed: set<Name>) | Written(drop: set<Name>)

  /** `live` pods hold a reservation or run, `seen` ones are listed as running, and `gone` ones do not come back. */
  datatype State = State(
    live: set<Name>, seen: set<Name>, gone: set<Name>, reserved: set<Name>, counted: set<Name>, stages: map<int, Stage>)

  datatype Step =
    | Admit(p: Name) | See(p: Name) | Leave(p: Name)
    | Snapshot(r: int) | Write(r: int) | DropOne(r: int, p: Name) | Finish(r: int)

  function StageOf(s: State, r: int): Stage {
    if r in s.stages then s.stages[r] else Idle
  }

  /** No other reconcile is under way. */
  ghost predicate Alone(s: State, r: int) {
    forall q :: q != r ==> StageOf(s, q).Idle?
  }

  ghost predicate Enabled(exclusive: bool, s: State, step: Step) {
    match step
    case Admit(p) => p !in s.live && p !in s.gone
    case See(p) => p in s.live
    case Leave(p) => p in s.live
    case Snapshot(r) => StageOf(s, r).Idle? && (exclusive ==> Alone(s, r))
    case Write(r) => StageOf(s, r).Snapshotted?
    case DropOne(r, p) => StageOf(s, r).Written? && p in StageOf(s, r).drop
    case Finish(r) => StageOf(s, r) == Written({})
  }

  function Apply(s: State, step: Step): State {
    match step
    case Admit(p) => s.(live := s.live + {p}, reserved := s.reserved + {p})
    case See(p) => s.(seen := s.seen + {p})
    case Leave(p) => s.(live := s.live - {p}, seen := s.seen - {p}, gone := s.gone + {p})
    case Snapshot(r) => s.(stages := s.stages[r := Snapshotted(s.seen)])
    case Write(r) =>
      var listed := if StageOf(s, r).Snapshotted? then StageOf(s, r).listed else {};
      s.(counted := listed, stages := s.stages[r := Written(listed)])
    case DropOne(r, p) =>
      var drop := if StageOf(s, r).Written? then StageOf(s, r).drop else {};
      s.(reserved := s.reserved - {p}, stages := s.stages[r := Written(drop - {p})])
    case Finish(r) => s.(stages := s.stages[r := Idle])
  }

  const START := State({}, {}, {}, {}, {}, map[])

  ghost predicate IsRun(exclusive: bool, states: seq<State>, steps: seq<Step>) {
    && |states| == |steps| + 1 && states[0] == START
    && forall i | 0 <= i < |steps| ::
      Enabled(exclusive, states[i], steps[i]) && states[i + 1] == Apply(states[i], steps[i])
  }

  /** Every live pod is behind the status or holds a reservation. */
  predicate Covered(s: State) {
    s.live <= s.counted + s.reserved
  }

  // ---------------------------------------------------------------- with exclusion

  ghost predicate StageInv(s: State, stage: Stage) {
    && (stage.Snapshotted? ==> s.live <= stage.listed + s.reserved && stage.listed <= s.seen + s.gone)
    && (stage.Written? ==> stage.drop <= s.counted && stage.drop <= s.seen + s.gone)
  }

  ghost predicate Inv(s: State) {
    && Covered(s) && s.seen <= s.live && s.live !! s.gone && s.counted <= s.live + s.gone
    && (forall r :: StageInv(s, StageOf(s, r)))
    && (forall q, r :: StageOf(s, q).Idle? || StageOf(s, r).Idle? || q == r)
    && (forall p | p in s.live && p !in s.seen :: p in s.reserved)
  }

  lemma StepKeepsInv(s: State, step: Step)
    requires Inv(s) && Enabled(true, s, step)
    ensures Inv(Apply(s, step))
  {
    var s' := Apply(s, step);
    match step
    case Snapshot(r) => assert forall q | q != r :: StageOf(s', q) == StageOf(s, q);
    case Write(r) => assert forall q | q != r :: StageOf(s', q) == StageOf(s, q);
    case DropOne(r, p) => assert forall q | q != r :: StageOf(s', q) == StageOf(s, q);
    case Finish(r) => assert forall q | q != r :: StageOf(s', q) == StageOf(s, q);
    case _ => assert forall q :: StageOf(s', q) == StageOf(s, q);
  }

  /** As long as no two reconciles overlap, no live pod goes uncounted. */
  lemma ExclusionKeepsPodsCovered(states: seq<State>, steps: seq<Step>, i: nat)
    requires IsRun(true, states, steps) && i < |states|
    ensures Covered(states[i])
  {
    InvHolds(states, steps, i);
  }

  lemma {:induction false} InvHolds(states: seq<State>, steps: seq<Step>, i: nat)
    requires IsRun(true, states, steps) && i < |states|
    ensures Inv(states[i])
  {
    if i > 0 {
      InvHolds(states, steps, i - 1);
      StepKeepsInv(states[i - 1], steps[i - 1]);
    }
  }

  // ---------------------------------------------------------------- without it

  /**
   The first reconcile lists nobody; the pod is admitted and seen; the second one lists it, writes and drops its
   reservation; then the first one writes what it had listed.
   */
  lemma OverlappingReconcilesLoseAPod()
    ensures exists states, steps :: IsRun(false, states, steps) && !Covered(states[|steps|])
  {
    var p := Name("ns", "p");
    var steps := [Snapshot(1), Admit(p), See(p), Snapshot(2), Write(2), DropOne(2, p), Write(1)];
    var s1 := Apply(START, steps[0]);
    var s2 := Apply(s1, steps[1]);
    var s3 := Apply(s2, steps[2]);
    var s4 := Apply(s3, steps[3]);
    var s5 := Apply(s4, steps[4]);
    var s6 := Apply(s5, steps[5]);
    var s7 := Apply(s6, steps[6]);
    var states := [START, s1, s2, s3, s4, s5, s6, s7];
    assert s4.seen == {p} && StageOf(s4, 1) == Snapshotted({}) && StageOf(s4, 2) == Snapshotted({p});
    assert s6.reserved == {} && s6.live == {p} && StageOf(s6, 1) == Snapshotted({});
    assert p in s7.live && p !in s7.counted && p !in s7.reserved;
    assert IsRun(false, states, steps);
    assert !Covered(states[|steps|]);
  }
}
