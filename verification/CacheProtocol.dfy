/**
 The locking of the reservation cache, one lock step at a time for any number of threads
 (pkg/controllers/reserved_resource_amounts.go:50-126): a hashed key mutex around each operation, and
 inside it a read-write mutex around the outer map, with a double-checked creation of inner maps.
 Any interleaving behaves like one atomic map of maps.
 */
module CacheProtocol {
  import opened Wrappers
  import opened Names
  import opened ResourceAmounts

  type Tid = int
  type Addr = nat

  datatype Op =
    | AddPod(nn: Name, pod: Name, amount: Amount)
    | RemovePod(nn: Name, pod: Name)
    | ReadTotal(nn: Name)

  datatype Outcome = Changed(b: bool) | Reserved(total: Amount)

  /** Where a thread stands in its operation; the locks it holds follow from it. */
  datatype PC =
    | Resting
    | Wanting(op: Op)
    | Keyed(op: Op)
    | Looking(op: Op)
    | Found(op: Op, addr: Addr)
    | Missed(op: Op)
    | Upgrading(op: Op)
    | Creating(op: Op)
    | Created(op: Op, addr: Addr)
    | Working(op: Op, addr: Addr)
    | Summing(op: Op, addr: Addr, rest: set<Name>, acc: Amount)
    | Leaving(op: Op, out: Outcome)

  datatype Event = Event(tid: Tid, op: Op, out: Outcome)

  /** `log` records each operation at the step where it takes effect. */
  datatype State = State(
    pcs: map<Tid, PC>,
    keys: map<int, Tid>,
    readers: set<Tid>,
    writer: Option<Tid>,
    cache: map<Name, Addr>,
    heap: map<Addr, map<Name, Amount>>,
    next: Addr,
    log: seq<Event>)

  /** Which of the hashed mutexes guards a key. */
  type Hash = Name -> int

  predicate HoldsKey(pc: PC) {
    !pc.Resting? && !pc.Wanting?
  }

  predicate Reads(pc: PC) {
    pc.Looking? || pc.Found? || pc.Missed?
  }

  predicate Writes(pc: PC) {
    pc.Creating? || pc.Created?
  }

  /** Has the inner map in hand. */
  predicate Touches(pc: PC) {
    pc.Working? || pc.Summing?
  }

  function PcOf(s: State, t: Tid): PC {
    if t in s.pcs then s.pcs[t] else Resting
  }

  // ---------------------------------------------------------------- the atomic map of maps

  type Atomic = map<Name, map<Name, Amount>>

  function On(a: Atomic, nn: Name): map<Name, Amount> {
    if nn in a then a[nn] else map[]
  }

  function Effect(m: map<Name, Amount>, op: Op): map<Name, Amount> {
    match op
    case AddPod(_, pod, amount) => m[pod := amount]
    case RemovePod(_, pod) => m - {pod}
    case ReadTotal(_) => m
  }

  ghost function OutcomeOf(m: map<Name, Amount>, op: Op): Outcome {
    match op
    case AddPod(_, pod, _) => Changed(pod !in m)
    case RemovePod(_, pod) => Changed(pod in m)
    case ReadTotal(_) => Reserved(Total(m))
  }

  function Replay(log: seq<Event>): Atomic {
    if log == [] then map[]
    else
      var a, op := Replay(log[..|log|-1]), log[|log|-1].op;
      a[op.nn := Effect(On(a, op.nn), op)]
  }

  /** Every logged outcome is what the operation returns on the atomic map that the log before it built. */
  ghost predicate Legal(log: seq<Event>) {
    forall i | 0 <= i < |log| :: log[i].out == OutcomeOf(On(Replay(log[..i]), log[i].op.nn), log[i].op)
  }

  function LastOf(log: seq<Event>, t: Tid): Option<Event> {
    if log == [] then None
    else if log[|log|-1].tid == t then Some(log[|log|-1])
    else LastOf(log[..|log|-1], t)
  }

  /** What the concurrent state holds for a key. */
  function Held(s: State, nn: Name): map<Name, Amount> {
    if nn in s.cache then HeapAt(s, s.cache[nn]) else map[]
  }

  // ---------------------------------------------------------------- steps

  /** The thread can take a step now. A new reader may pass a waiting writer or not; see Blocked. */
  predicate Enabled(h: Hash, s: State, t: Tid) {
    match PcOf(s, t)
    case Resting => false
    case Wanting(op) => h(op.nn) !in s.keys
    case Keyed(op) => s.writer.None?
    case Upgrading(op) => s.writer.None? && s.readers == {}
    case _ => true
  }

  /** The outcome the thread's next step settles, if the operation takes effect there. */
  function Settles(s: State, pc: PC): Option<Outcome> {
    match pc
    case Missed(op) => if op.ReadTotal? then Some(Reserved(NOTHING)) else None
    case Working(op, addr) =>
      var m := HeapAt(s, addr);
      (match op
       case AddPod(_, pod, _) => Some(Changed(pod !in m))
       case RemovePod(_, pod) => Some(Changed(pod in m))
       case ReadTotal(_) => None)
    case Summing(_, _, rest, acc) => if rest == {} then Some(Reserved(acc)) else None
    case _ => None
  }

  function HeapAt(s: State, addr: Addr): map<Name, Amount> {
    if addr in s.heap then s.heap[addr] else map[]
  }

  /** Where the thread stands after its step; `k` is the entry a summation visits next. */
  function PcAfter(s: State, pc: PC, k: Name): PC {
    if Settles(s, pc).Some? then Leaving(pc.op, Settles(s, pc).value)
    else
      match pc
      case Resting => Resting
      case Wanting(op) => Keyed(op)
      case Keyed(op) => Looking(op)
      case Looking(op) => if op.nn in s.cache then Found(op, s.cache[op.nn]) else Missed(op)
      case Found(op, addr) => Working(op, addr)
      case Missed(op) => Upgrading(op)
      case Upgrading(op) => Creating(op)
      case Creating(op) => Created(op, if op.nn in s.cache then s.cache[op.nn] else s.next)
      case Created(op, addr) => Working(op, addr)
      case Working(op, addr) => Summing(op, addr, HeapAt(s, addr).Keys, NOTHING)
      case Summing(op, addr, rest, acc) =>
        if k in rest && k in HeapAt(s, addr) then Summing(op, addr, rest - {k}, Sum(acc, HeapAt(s, addr)[k])) else pc
      case Leaving(_, _) => Resting
  }

  function KeysAfter(h: Hash, s: State, t: Tid, pc: PC): map<int, Tid> {
    if pc.Wanting? then s.keys[h(pc.op.nn) := t] else if pc.Leaving? then s.keys - {h(pc.op.nn)} else s.keys
  }

  function ReadersAfter(s: State, t: Tid, pc: PC): set<Tid> {
    if pc.Keyed? then s.readers + {t} else if pc.Found? || pc.Missed? then s.readers - {t} else s.readers
  }

  function WriterAfter(s: State, t: Tid, pc: PC): Option<Tid> {
    if pc.Upgrading? then Some(t) else if pc.Created? then None else s.writer
  }

  /** An inner map is made under the write lock, and only when the second look finds none. */
  predicate Makes(s: State, pc: PC) {
    pc.Creating? && pc.op.nn !in s.cache
  }

  function HeapAfter(s: State, pc: PC): map<Addr, map<Name, Amount>> {
    if Makes(s, pc) then s.heap[s.next := map[]]
    else if pc.Working? then s.heap[pc.addr := Effect(HeapAt(s, pc.addr), pc.op)]
    else s.heap
  }

  /** One lock step of a thread. */
  function Advance(h: Hash, s: State, t: Tid, k: Name): State
    requires Enabled(h, s, t)
  {
    var pc := PcOf(s, t);
    State(
      s.pcs[t := PcAfter(s, pc, k)],
      KeysAfter(h, s, t, pc),
      ReadersAfter(s, t, pc),
      WriterAfter(s, t, pc),
      if Makes(s, pc) then s.cache[pc.op.nn := s.next] else s.cache,
      HeapAfter(s, pc),
      if Makes(s, pc) then s.next + 1 else s.next,
      if Settles(s, pc).Some? then s.log + [Event(t, pc.op, Settles(s, pc).value)] else s.log)
  }

  function Begin(s: State, t: Tid, op: Op): State {
    s.(pcs := s.pcs[t := Wanting(op)])
  }

  ghost predicate Next(h: Hash, s: State, s': State) {
    || (exists t, op :: PcOf(s, t).Resting? && s' == Begin(s, t, op))
    || (exists t, k :: Enabled(h, s, t) && s' == Advance(h, s, t, k))
  }

  ghost predicate Init(s: State) {
    s == State(map[], map[], {}, None, map[], map[], 0, [])
  }

  // ---------------------------------------------------------------- invariants

  ghost predicate LocksInv(h: Hash, s: State) {
    && (forall t :: HoldsKey(PcOf(s, t)) ==> h(PcOf(s, t).op.nn) in s.keys && s.keys[h(PcOf(s, t).op.nn)] == t)
    && (forall b | b in s.keys :: HoldsKey(PcOf(s, s.keys[b])) && h(PcOf(s, s.keys[b]).op.nn) == b)
    && (forall t :: t in s.readers <==> Reads(PcOf(s, t)))
    && (forall t :: s.writer == Some(t) <==> Writes(PcOf(s, t)))
    && (s.writer.Some? ==> s.readers == {})
  }

  /** Inner maps: allocated, never shared, and in the hands of threads only under their own key. */
  ghost predicate MapsInv(s: State) {
    && (forall nn | nn in s.cache :: s.cache[nn] in s.heap)
    && (forall a | a in s.heap :: a < s.next)
    && (forall x, y | x in s.cache && y in s.cache && x != y :: s.cache[x] != s.cache[y])
  }

  ghost predicate ThreadInv(s: State, pc: PC) {
    && (pc.Found? || pc.Created? || pc.Working? || pc.Summing? ==> pc.op.nn in s.cache && s.cache[pc.op.nn] == pc.addr)
    && (pc.Missed? || pc.Upgrading? || pc.Creating? ==> pc.op.nn !in s.cache)
    && (pc.Upgrading? || pc.Creating? || pc.Created? ==> !pc.op.ReadTotal?)
    && (pc.Summing? ==>
          && pc.op.ReadTotal? && pc.rest <= Held(s, pc.op.nn).Keys
          && pc.acc == Total(Held(s, pc.op.nn) - pc.rest))
  }

  ghost predicate LogInv(s: State) {
    && Legal(s.log)
    && (forall nn :: Held(s, nn) == On(Replay(s.log), nn))
    && (forall t :: PcOf(s, t).Leaving? ==> LastOf(s.log, t) == Some(Event(t, PcOf(s, t).op, PcOf(s, t).out)))
  }

  ghost predicate Inv(h: Hash, s: State) {
    LocksInv(h, s) && MapsInv(s) && (forall t :: ThreadInv(s, PcOf(s, t))) && LogInv(s)
  }

  /** Two threads inside operations on keys of one bucket are one thread. */
  lemma KeyMutexExcludes(h: Hash, s: State, t: Tid, u: Tid)
    requires LocksInv(h, s) && HoldsKey(PcOf(s, t)) && HoldsKey(PcOf(s, u))
    requires h(PcOf(s, t).op.nn) == h(PcOf(s, u).op.nn)
    ensures t == u
  {
  }

  lemma AdvanceKeepsLocks(h: Hash, s: State, t: Tid, k: Name)
    requires Enabled(h, s, t) && LocksInv(h, s)
    ensures LocksInv(h, Advance(h, s, t, k))
  {
    var s' := Advance(h, s, t, k);
    assert forall u | u != t :: PcOf(s', u) == PcOf(s, u);
    var pc, pc' := PcOf(s, t), PcOf(s', t);
    assert Reads(pc') <==> pc.Keyed? || pc.Looking?;
    assert Writes(pc') <==> pc.Upgrading? || pc.Creating?;
    assert HoldsKey(pc') <==> pc.Wanting? || (HoldsKey(pc) && !pc.Leaving?);
  }

  lemma AdvanceKeepsMaps(h: Hash, s: State, t: Tid, k: Name)
    requires Enabled(h, s, t) && MapsInv(s) && ThreadInv(s, PcOf(s, t))
    ensures MapsInv(Advance(h, s, t, k))
    ensures forall nn | nn in s.cache :: nn in Advance(h, s, t, k).cache && Advance(h, s, t, k).cache[nn] == s.cache[nn]
  {
  }

  /** What a step changes for a key, if anything, it changes for the thread's own key. */
  lemma AdvanceChangesOwnKeyOnly(h: Hash, s: State, t: Tid, k: Name, nn: Name)
    requires Enabled(h, s, t) && MapsInv(s) && ThreadInv(s, PcOf(s, t))
    ensures var s' := Advance(h, s, t, k);
      && (nn != PcOf(s, t).op.nn ==> Held(s', nn) == Held(s, nn) && (nn in s'.cache <==> nn in s.cache))
      && (!PcOf(s, t).Working? ==> Held(s', nn) == Held(s, nn))
      && (PcOf(s, t).Working? && nn == PcOf(s, t).op.nn ==> Held(s', nn) == Effect(Held(s, nn), PcOf(s, t).op))
  {
  }

  lemma AdvanceKeepsOtherThreads(h: Hash, s: State, t: Tid, k: Name, u: Tid)
    requires Enabled(h, s, t) && LocksInv(h, s) && MapsInv(s)
    requires ThreadInv(s, PcOf(s, t)) && ThreadInv(s, PcOf(s, u)) && u != t
    ensures ThreadInv(Advance(h, s, t, k), PcOf(s, u))
  {
    if HoldsKey(PcOf(s, t)) && HoldsKey(PcOf(s, u)) {
      if PcOf(s, t).op.nn == PcOf(s, u).op.nn {
        KeyMutexExcludes(h, s, t, u);
      }
    }
    if HoldsKey(PcOf(s, u)) {
      AdvanceChangesOwnKeyOnly(h, s, t, k, PcOf(s, u).op.nn);
      AdvanceKeepsMaps(h, s, t, k);
    }
  }

  lemma AdvanceKeepsOwnThread(h: Hash, s: State, t: Tid, k: Name)
    requires Enabled(h, s, t) && MapsInv(s) && ThreadInv(s, PcOf(s, t))
    ensures ThreadInv(Advance(h, s, t, k), PcOf(Advance(h, s, t, k), t))
  {
    var pc := PcOf(s, t);
    if pc.Working? && pc.op.ReadTotal? {
      var m := Held(s, pc.op.nn);
      assert m - m.Keys == map[];
    }
    if pc.Summing? && k in pc.rest {
      var m := Held(s, pc.op.nn);
      assert m - (pc.rest - {k}) == (m - pc.rest)[k := m[k]];
      assert m - pc.rest - {k} == m - pc.rest;
      TotalPutsIn(m - pc.rest, k, m[k]);
    }
  }

  lemma ReplaySnoc(log: seq<Event>, e: Event)
    ensures Replay(log + [e]) == Replay(log)[e.op.nn := Effect(On(Replay(log), e.op.nn), e.op)]
    ensures LastOf(log + [e], e.tid) == Some(e)
    ensures forall t | t != e.tid :: LastOf(log + [e], t) == LastOf(log, t)
    ensures Legal(log) && e.out == OutcomeOf(On(Replay(log), e.op.nn), e.op) ==> Legal(log + [e])
  {
    var log' := log + [e];
    assert log'[..|log'|-1] == log;
    if Legal(log) && e.out == OutcomeOf(On(Replay(log), e.op.nn), e.op) {
      forall i | 0 <= i < |log'| ensures log'[i].out == OutcomeOf(On(Replay(log'[..i]), log'[i].op.nn), log'[i].op) {
        if i < |log| {
          assert log'[..i] == log[..i] && log'[i] == log[i];
        }
      }
    }
  }

  /** Where an operation takes effect, its outcome is that of the atomic operation on what is held then. */
  lemma SettlingIsAtomic(s: State, pc: PC)
    requires MapsInv(s) && ThreadInv(s, pc) && Settles(s, pc).Some?
    ensures Settles(s, pc).value == OutcomeOf(Held(s, pc.op.nn), pc.op)
    ensures !pc.Working? ==> Effect(Held(s, pc.op.nn), pc.op) == Held(s, pc.op.nn)
  {
    if pc.Summing? {
      assert Held(s, pc.op.nn) - {} == Held(s, pc.op.nn);
    }
  }

  lemma AdvanceKeepsLog(h: Hash, s: State, t: Tid, k: Name)
    requires Enabled(h, s, t) && MapsInv(s) && ThreadInv(s, PcOf(s, t)) && LogInv(s)
    ensures LogInv(Advance(h, s, t, k))
  {
    var s', pc := Advance(h, s, t, k), PcOf(s, t);
    assert forall u | u != t :: PcOf(s', u) == PcOf(s, u);
    if Settles(s, pc).Some? {
      var e := Event(t, pc.op, Settles(s, pc).value);
      SettlingIsAtomic(s, pc);
      ReplaySnoc(s.log, e);
      forall nn ensures Held(s', nn) == On(Replay(s'.log), nn) {
        AdvanceChangesOwnKeyOnly(h, s, t, k, nn);
      }
    } else {
      forall nn ensures Held(s', nn) == On(Replay(s'.log), nn) {
        AdvanceChangesOwnKeyOnly(h, s, t, k, nn);
        assert pc.Working? ==> pc.op.ReadTotal?;
      }
    }
  }

  lemma AdvanceKeepsInv(h: Hash, s: State, t: Tid, k: Name)
    requires Enabled(h, s, t) && Inv(h, s)
    ensures Inv(h, Advance(h, s, t, k))
  {
    hide LocksInv, MapsInv, ThreadInv, LogInv;
    var s' := Advance(h, s, t, k);
    AdvanceKeepsLocks(h, s, t, k);
    AdvanceKeepsMaps(h, s, t, k);
    AdvanceKeepsLog(h, s, t, k);
    forall u ensures ThreadInv(s', PcOf(s', u)) {
      if u == t {
        AdvanceKeepsOwnThread(h, s, t, k);
      } else {
        AdvanceKeepsOtherThreads(h, s, t, k, u);
      }
    }
  }

  lemma BeginKeepsInv(h: Hash, s: State, t: Tid, op: Op)
    requires PcOf(s, t).Resting? && Inv(h, s)
    ensures Inv(h, Begin(s, t, op))
  {
    var s' := Begin(s, t, op);
    assert forall u | u != t :: PcOf(s', u) == PcOf(s, u);
    assert forall nn :: Held(s', nn) == Held(s, nn);
  }

  ghost predicate IsRun(h: Hash, states: seq<State>) {
    && states != [] && Init(states[0])
    && forall i | 0 <= i < |states| - 1 :: Next(h, states[i], states[i + 1])
  }

  lemma {:induction false} RunsKeepInv(h: Hash, states: seq<State>, i: nat)
    requires IsRun(h, states) && i < |states|
    ensures Inv(h, states[i])
  {
    if i == 0 {
      assert forall t :: PcOf(states[0], t).Resting?;
    } else {
      RunsKeepInv(h, states, i - 1);
      var s, s' := states[i - 1], states[i];
      assert Next(h, s, s');
      if t, op :| PcOf(s, t).Resting? && s' == Begin(s, t, op) {
        BeginKeepsInv(h, s, t, op);
      } else {
        var t, k :| Enabled(h, s, t) && s' == Advance(h, s, t, k);
        AdvanceKeepsInv(h, s, t, k);
      }
    }
  }

  // ---------------------------------------------------------------- what the log says

  /** The event reserved or un-reserved the pod on the throttle. */
  predicate IsAbout(e: Event, nn: Name, pod: Name) {
    !e.op.ReadTotal? && e.op.nn == nn && e.op.pod == pod
  }

  /** The last event about the pod on the throttle reserved it, with this amount. */
  ghost predicate AddedLast(log: seq<Event>, nn: Name, pod: Name, a: Amount) {
    exists i | 0 <= i < |log| ::
      && log[i].op == AddPod(nn, pod, a)
      && forall j | i < j < |log| :: !IsAbout(log[j], nn, pod)
  }

  /** The map holds exactly the pods last reserved and not un-reserved since, with the amounts they were given. */
  ghost predicate Says(log: seq<Event>, nn: Name, m: map<Name, Amount>) {
    forall pod, a :: pod in m && m[pod] == a <==> AddedLast(log, nn, pod, a)
  }

  lemma AddedLastSnoc(log: seq<Event>, e: Event, nn: Name, pod: Name, a: Amount)
    ensures AddedLast(log + [e], nn, pod, a)
      <==> e.op == AddPod(nn, pod, a) || (!IsAbout(e, nn, pod) && AddedLast(log, nn, pod, a))
  {
    var log' := log + [e];
    assert forall j | 0 <= j < |log| :: log'[j] == log[j];
    assert log'[|log|] == e;
    if !IsAbout(e, nn, pod) && AddedLast(log, nn, pod, a) {
      var i :| 0 <= i < |log| && log[i].op == AddPod(nn, pod, a)
        && forall j | i < j < |log| :: !IsAbout(log[j], nn, pod);
      assert log'[i].op == AddPod(nn, pod, a);
    }
  }

  lemma {:induction false} ReplaySays(log: seq<Event>, nn: Name)
    ensures Says(log, nn, On(Replay(log), nn))
  {
    if log != [] {
      var front, e := log[..|log|-1], log[|log|-1];
      ReplaySays(front, nn);
      assert log == front + [e];
      forall pod, a
        ensures pod in On(Replay(log), nn) && On(Replay(log), nn)[pod] == a <==> AddedLast(log, nn, pod, a)
      {
        AddedLastSnoc(front, e, nn, pod, a);
      }
    }
  }

  /** What an operation returned, in terms of the events before it. */
  ghost predicate Truthful(log: seq<Event>, e: Event) {
    match e.op
    case AddPod(nn, pod, _) => e.out.Changed? && (e.out.b <==> forall a :: !AddedLast(log, nn, pod, a))
    case RemovePod(nn, pod) => e.out.Changed? && (e.out.b <==> exists a :: AddedLast(log, nn, pod, a))
    case ReadTotal(nn) => exists m :: Says(log, nn, m) && e.out == Reserved(Total(m))
  }

  // ---------------------------------------------------------------- main results

  /**
   Any interleaving refines an atomic map of maps: replaying the operations in the order in which they took
   effect gives every key exactly what the concurrent cache holds, every outcome is the atomic one, and a
   thread about to return returns the outcome of its own last operation in that order.
   */
  lemma CacheIsAtomic(h: Hash, states: seq<State>, i: nat)
    requires IsRun(h, states) && i < |states|
    ensures Legal(states[i].log)
    ensures forall nn :: Held(states[i], nn) == On(Replay(states[i].log), nn)
    ensures forall t :: PcOf(states[i], t).Leaving? ==>
      LastOf(states[i].log, t) == Some(Event(t, PcOf(states[i], t).op, PcOf(states[i], t).out))
  {
    RunsKeepInv(h, states, i);
  }

  /**
   In every reachable state a pod is held on a throttle, with an amount, exactly when the last event about it there
   reserved it with that amount; and every operation that took effect has told the truth about the events before it.
   */
  lemma CacheHoldsWhatWasAddedLast(h: Hash, states: seq<State>, i: nat)
    requires IsRun(h, states) && i < |states|
    ensures forall nn :: Says(states[i].log, nn, Held(states[i], nn))
    ensures forall k | 0 <= k < |states[i].log| :: Truthful(states[i].log[..k], states[i].log[k])
  {
    var log := states[i].log;
    CacheIsAtomic(h, states, i);
    forall nn ensures Says(log, nn, Held(states[i], nn)) {
      ReplaySays(log, nn);
    }
    forall k | 0 <= k < |log| ensures Truthful(log[..k], log[k]) {
      ReplaySays(log[..k], log[k].op.nn);
      OutcomeIsTruthful(log[..k], log[k], On(Replay(log[..k]), log[k].op.nn));
    }
  }

  lemma OutcomeIsTruthful(log: seq<Event>, e: Event, m: map<Name, Amount>)
    requires Says(log, e.op.nn, m) && e.out == OutcomeOf(m, e.op)
    ensures Truthful(log, e)
  {
    hide AddedLast, Total;
    if !e.op.ReadTotal? && e.op.pod in m {
      assert AddedLast(log, e.op.nn, e.op.pod, m[e.op.pod]);
    }
  }

  lemma StepKeepsInnerMaps(h: Hash, s: State, s': State, nn: Name)
    requires Next(h, s, s') && Inv(h, s) && nn in s.cache
    ensures nn in s'.cache && s'.cache[nn] == s.cache[nn]
  {
    hide LocksInv, LogInv;
    if t, k :| Enabled(h, s, t) && s' == Advance(h, s, t, k) {
      AdvanceKeepsMaps(h, s, t, k);
    }
  }

  /** Once made, the inner map of a key is never replaced, and never serves another key. */
  lemma {:induction false} InnerMapsAreNeverReplaced(h: Hash, states: seq<State>, i: nat, j: nat, nn: Name, mm: Name)
    requires IsRun(h, states) && i <= j < |states| && nn in states[i].cache
    ensures nn in states[j].cache && states[j].cache[nn] == states[i].cache[nn]
    ensures mm in states[j].cache && states[j].cache[mm] == states[i].cache[nn] ==> mm == nn
  {
    hide Next, LocksInv, LogInv, ThreadInv;
    RunsKeepInv(h, states, j);
    if i < j {
      InnerMapsAreNeverReplaced(h, states, i, j - 1, nn, nn);
      RunsKeepInv(h, states, j - 1);
      assert Next(h, states[j - 1], states[j]);
      StepKeepsInnerMaps(h, states[j - 1], states[j], nn);
    }
  }

  /** No two threads have one inner map in hand, and no thread looks at the outer map while another writes it. */
  lemma AccessesNeverOverlap(h: Hash, states: seq<State>, i: nat, t: Tid, u: Tid)
    requires IsRun(h, states) && i < |states| && t != u
    ensures var pc, qc := PcOf(states[i], t), PcOf(states[i], u);
      && !(Touches(pc) && Touches(qc) && pc.addr == qc.addr)
      && !(Writes(pc) && (Reads(qc) || Writes(qc)))
  {
    RunsKeepInv(h, states, i);
    var s := states[i];
    var pc, qc := PcOf(s, t), PcOf(s, u);
    assert ThreadInv(s, pc) && ThreadInv(s, qc);
    if Touches(pc) && Touches(qc) && pc.addr == qc.addr {
      assert pc.op.nn == qc.op.nn;
      KeyMutexExcludes(h, s, t, u);
    }
  }

  /** A waiting writer may hold new readers back; otherwise a thread is blocked only by a lock it lacks. */
  predicate Blocked(h: Hash, s: State, t: Tid) {
    || !Enabled(h, s, t)
    || (PcOf(s, t).Keyed? && exists u | u in s.pcs :: s.pcs[u].Upgrading?)
  }

  /** No deadlock: while any operation is under way, some thread can take its next step. */
  lemma SomeThreadCanMove(h: Hash, states: seq<State>, i: nat, t: Tid)
    requires IsRun(h, states) && i < |states| && !PcOf(states[i], t).Resting?
    ensures exists u :: !Blocked(h, states[i], u)
  {
    RunsKeepInv(h, states, i);
    var s := states[i];
    if s.writer.Some? {
      assert Writes(PcOf(s, s.writer.value));
      assert !Blocked(h, s, s.writer.value);
    } else if exists u: Tid :: u in s.readers {
      var u: Tid :| u in s.readers;
      assert Reads(PcOf(s, u));
      assert !Blocked(h, s, u);
    } else {
      assert s.readers == {};
      UnlockedThreadCanMove(h, s, t);
    }
  }

  lemma UnlockedThreadCanMove(h: Hash, s: State, t: Tid)
    requires LocksInv(h, s) && s.writer.None? && s.readers == {} && !PcOf(s, t).Resting?
    ensures exists u :: !Blocked(h, s, u)
  {
    if u :| u in s.pcs && s.pcs[u].Upgrading? {
      assert PcOf(s, u).Upgrading?;
      assert !Blocked(h, s, u);
    } else if HoldsKey(PcOf(s, t)) || h(PcOf(s, t).op.nn) !in s.keys {
      assert !Blocked(h, s, t);
    } else {
      var b := h(PcOf(s, t).op.nn);
      assert b in s.keys;
      var u := s.keys[b];
      assert HoldsKey(PcOf(s, u));
      assert !Blocked(h, s, u);
    }
  }
}
