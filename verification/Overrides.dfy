/**
 Temporary threshold overrides: which are active, the threshold they merge to, and the wake-up timer
 (pkg/apis/schedule/v1alpha1/temporary_threshold_override.go, throttle_types.go:37-106).
 Times are nanoseconds; a parse is its outcome.
 */
module Overrides {
  import opened Wrappers
  import opened ResourceLists
  import opened ResourceAmounts

  type Time = int

  /** The zero value of a time, which an empty string stands for and which means "no end". */
  const ZERO_TIME: Time := 0

  /** The longest duration; a time difference saturates at it (about 292 years). */
  const MAX_DURATION: int := 0x7FFF_FFFF_FFFF_FFFF

  datatype Stamp = Blank | Garbled(error: string) | Stamp(time: Time)

  datatype Override = Override(begin: Stamp, end: Stamp, threshold: Amount)

  function Parse(s: Stamp): Result<Time, string> {
    match s
    case Blank => Ok(ZERO_TIME)
    case Garbled(e) => Err(e)
    case Stamp(t) => Ok(t)
  }

  function IsActive(o: Override, now: Time): Result<bool, string> {
    var begin :- Parse(o.begin);
    var end :- Parse(o.end);
    Ok(begin <= now && (end == ZERO_TIME || now <= end))
  }

  predicate ActiveAt(o: Override, now: Time) {
    IsActive(o, now) == Ok(true)
  }

  predicate Unparsable(o: Override) {
    Parse(o.begin).Err? || Parse(o.end).Err?
  }

  // ---------------------------------------------------------------- the calculated threshold

  datatype Message = Message(index: nat, error: string)

  datatype CalculatedThreshold = CalculatedThreshold(threshold: Amount, calculatedAt: Time, messages: seq<Message>)

  datatype SpecBase = SpecBase(throttlerName: string, threshold: Amount, overrides: seq<Override>)

  ghost predicate SomeActive(os: seq<Override>, now: Time) {
    exists i | 0 <= i < |os| :: ActiveAt(os[i], now)
  }

  /** Merging from the end: an earlier override takes precedence over everything after it. */
  ghost function Merged(os: seq<Override>, now: Time): Amount {
    if os == [] then NOTHING
    else
      var rest := Merged(os[1..], now);
      var first := os[0].threshold;
      if !ActiveAt(os[0], now) then rest
      else Amount(if first.counts.Some? then first.counts else rest.counts, rest.requests + first.requests)
  }

  ghost function Messages(os: seq<Override>): seq<Message> {
    if os == [] then []
    else
      var last := |os| - 1;
      Messages(os[..last]) + if Unparsable(os[last]) then [Message(last, IsActive(os[last], 0).error)] else []
  }

  ghost function Calculated(b: SpecBase, now: Time): CalculatedThreshold {
    CalculatedThreshold(
      if SomeActive(b.overrides, now) then Merged(b.overrides, now) else b.threshold,
      now,
      Messages(b.overrides))
  }

  method CalculateThreshold(b: SpecBase, now: Time) returns (c: CalculatedThreshold)
    ensures c == Calculated(b, now)
  {
    hide SomeActive, Merged, Messages;
    NoneActive(now);
    var os := b.overrides;
    var activeFound := false;
    var result := NOTHING;
    var messages: seq<Message> := [];
    assert os[..0] == [];
    for i := 0 to |os|
      invariant activeFound <==> SomeActive(os[..i], now)
      invariant result == Merged(os[..i], now)
      invariant messages == Messages(os[..i])
    {
      MergedSnoc(os[..i], os[i], now);
      assert os[..i+1] == os[..i] + [os[i]];
      SomeActiveSnoc(os[..i], os[i], now);
      MessagesSnoc(os[..i], os[i], now);
      var active := IsActive(os[i], now);
      if active.Err? {
        messages := messages + [Message(i, active.error)];
      } else if active.value {
        activeFound := true;
        result := MergeInto(result, os[i].threshold);
      }
    }
    assert os[..|os|] == os;
    c := CalculatedThreshold(if activeFound then result else b.threshold, now, messages);
  }

  lemma NoneActive(now: Time)
    ensures !SomeActive([], now) && Merged([], now) == NOTHING && Messages([]) == []
  {
  }

  /** The message of an unparsable override does not depend on the time. */
  lemma MessagesSnoc(os: seq<Override>, o: Override, now: Time)
    ensures Messages(os + [o])
         == Messages(os) + if IsActive(o, now).Err? then [Message(|os|, IsActive(o, now).error)] else []
  {
    assert (os + [o])[..|os|] == os;
  }

  lemma SomeActiveSnoc(os: seq<Override>, o: Override, now: Time)
    ensures SomeActive(os + [o], now) <==> SomeActive(os, now) || ActiveAt(o, now)
  {
    var os' := os + [o];
    assert os'[|os|] == o && forall j | 0 <= j < |os| :: os'[j] == os[j];
    if SomeActive(os, now) {
      var j :| 0 <= j < |os| && ActiveAt(os[j], now);
      assert ActiveAt(os'[j], now);
    }
  }

  /** One active override: it fills in what the earlier ones left open, key by key in an arbitrary order. */
  method MergeInto(result: Amount, threshold: Amount) returns (r: Amount)
    ensures r.counts == if result.counts.Some? then result.counts else threshold.counts
    ensures r.requests == threshold.requests + result.requests
  {
    var requests := result.requests;
    var todo := threshold.requests.Keys;
    while todo != {}
      invariant todo <= threshold.requests.Keys
      invariant requests.Keys == result.requests.Keys + (threshold.requests.Keys - todo)
      invariant forall n | n in requests ::
          requests[n] == if n in result.requests then result.requests[n] else threshold.requests[n]
      decreases todo
    {
      var n :| n in todo;
      if n !in requests {
        requests := requests[n := threshold.requests[n]];
      }
      todo := todo - {n};
    }
    r := Amount(if result.counts.None? then threshold.counts else result.counts, requests);
  }

  lemma {:induction false} MergedSnoc(os: seq<Override>, o: Override, now: Time)
    ensures Merged(os + [o], now) ==
      if !ActiveAt(o, now) then Merged(os, now)
      else Amount(
        if Merged(os, now).counts.Some? then Merged(os, now).counts else o.threshold.counts,
        o.threshold.requests + Merged(os, now).requests)
  {
    if os == [] {
      assert ([] + [o])[1..] == [] && ([] + [o])[0] == o;
    } else {
      assert (os + [o])[1..] == os[1..] + [o] && (os + [o])[0] == os[0];
      MergedSnoc(os[1..], o, now);
    }
  }

  /** Override i is the first active one to say something about resource n, or about the pod count. */
  ghost predicate FirstToDefine(os: seq<Override>, now: Time, n: ResourceName, i: int) {
    && 0 <= i < |os| && ActiveAt(os[i], now) && n in os[i].threshold.requests
    && forall j | 0 <= j < i :: !(ActiveAt(os[j], now) && n in os[j].threshold.requests)
  }

  ghost predicate FirstToCount(os: seq<Override>, now: Time, i: int) {
    && 0 <= i < |os| && ActiveAt(os[i], now) && os[i].threshold.counts.Some?
    && forall j | 0 <= j < i :: !(ActiveAt(os[j], now) && os[j].threshold.counts.Some?)
  }

  /** Each resource takes the value of the lowest-index active override that defines it. */
  lemma {:induction false} MergeIsFirstWins(os: seq<Override>, now: Time, n: ResourceName)
    ensures n in Merged(os, now).requests <==> exists i :: FirstToDefine(os, now, n, i)
    ensures forall i :: FirstToDefine(os, now, n, i) ==> Merged(os, now).requests[n] == os[i].threshold.requests[n]
  {
    if os != [] {
      var tail := os[1..];
      MergeIsFirstWins(tail, now, n);
      if ActiveAt(os[0], now) && n in os[0].threshold.requests {
        assert FirstToDefine(os, now, n, 0);
      } else {
        assert forall j | 0 <= j < |tail| :: tail[j] == os[j + 1];
        forall i ensures FirstToDefine(os, now, n, i + 1) <==> FirstToDefine(tail, now, n, i) {
          if FirstToDefine(tail, now, n, i) {
            forall j | 0 <= j < i + 1 ensures !(ActiveAt(os[j], now) && n in os[j].threshold.requests) {
              assert j > 0 ==> os[j] == tail[j - 1];
            }
          }
          if FirstToDefine(os, now, n, i + 1) {
            assert i >= 0;
            forall j | 0 <= j < i ensures !(ActiveAt(tail[j], now) && n in tail[j].threshold.requests) {
              assert tail[j] == os[j + 1];
            }
          }
        }
        forall i | FirstToDefine(os, now, n, i) ensures i > 0 && FirstToDefine(tail, now, n, i - 1) {
          assert FirstToDefine(os, now, n, (i - 1) + 1);
        }
      }
    }
  }

  /** And so does the pod count. */
  lemma {:induction false} CountMergeIsFirstWins(os: seq<Override>, now: Time)
    ensures Merged(os, now).counts.Some? <==> exists i :: FirstToCount(os, now, i)
    ensures forall i :: FirstToCount(os, now, i) ==> Merged(os, now).counts == os[i].threshold.counts
  {
    if os != [] {
      var tail := os[1..];
      CountMergeIsFirstWins(tail, now);
      if ActiveAt(os[0], now) && os[0].threshold.counts.Some? {
        assert FirstToCount(os, now, 0);
      } else {
        forall i ensures FirstToCount(os, now, i + 1) <==> FirstToCount(tail, now, i) {
          if FirstToCount(tail, now, i) {
            forall j | 0 <= j < i + 1 ensures !(ActiveAt(os[j], now) && os[j].threshold.counts.Some?) {
              assert j > 0 ==> os[j] == tail[j - 1];
            }
          }
          if FirstToCount(os, now, i + 1) {
            assert i >= 0;
            forall j | 0 <= j < i ensures !(ActiveAt(tail[j], now) && tail[j].threshold.counts.Some?) {
              assert tail[j] == os[j + 1];
            }
          }
        }
        forall i | FirstToCount(os, now, i) ensures i > 0 && FirstToCount(tail, now, i - 1) {
          assert FirstToCount(os, now, (i - 1) + 1);
        }
      }
    }
  }

  // ---------------------------------------------------------------- in terms of the stamps

  /** The override's begin, which a blank stands for the zero time, has come. */
  predicate HasBegun(o: Override, now: Time) {
    match o.begin
    case Blank => 0 <= now
    case Stamp(t) => t <= now
    case Garbled(_) => false
  }

  /** The override's end has not passed; a blank one, or the zero time itself, means that there is none. */
  predicate HasNotEnded(o: Override, now: Time) {
    match o.end
    case Blank => true
    case Stamp(t) => t == 0 || now <= t
    case Garbled(_) => false
  }

  predicate InForce(o: Override, now: Time) {
    HasBegun(o, now) && HasNotEnded(o, now)
  }

  /** Override i is the first in force to define the resource, or the pod count. */
  ghost predicate FirstInForceFor(os: seq<Override>, now: Time, n: ResourceName, i: int) {
    && 0 <= i < |os| && InForce(os[i], now) && n in os[i].threshold.requests
    && forall j | 0 <= j < i :: !(InForce(os[j], now) && n in os[j].threshold.requests)
  }

  ghost predicate FirstInForceToCount(os: seq<Override>, now: Time, i: int) {
    && 0 <= i < |os| && InForce(os[i], now) && os[i].threshold.counts.Some?
    && forall j | 0 <= j < i :: !(InForce(os[j], now) && os[j].threshold.counts.Some?)
  }

  /**
   With no override in force the calculated threshold is the spec's; otherwise it defines exactly what overrides in
   force define, and each value is that of the first of them. It carries the time it was calculated at.
   */
  lemma ThresholdByStamps(b: SpecBase, now: Time)
    ensures var os, c := b.overrides, Calculated(b, now);
      && c.calculatedAt == now
      && ((forall i | 0 <= i < |os| :: !InForce(os[i], now)) ==> c.threshold == b.threshold)
      && ((exists i | 0 <= i < |os| :: InForce(os[i], now)) ==>
            && (forall n :: n in c.threshold.requests <==> exists i :: FirstInForceFor(os, now, n, i))
            && (forall n, i | FirstInForceFor(os, now, n, i) :: c.threshold.requests[n] == os[i].threshold.requests[n])
            && (c.threshold.counts.Some? <==> exists i :: FirstInForceToCount(os, now, i))
            && (forall i | FirstInForceToCount(os, now, i) :: c.threshold.counts == os[i].threshold.counts))
  {
    var os, c := b.overrides, Calculated(b, now);
    assert forall i | 0 <= i < |os| :: InForce(os[i], now) <==> ActiveAt(os[i], now) by {
      forall i | 0 <= i < |os| ensures InForce(os[i], now) <==> ActiveAt(os[i], now) {
        InForceIsActive(os[i], now);
      }
    }
    hide InForce, IsActive, ActiveAt, Merged, Messages;
    forall n
      ensures n in Merged(os, now).requests <==> exists i :: FirstInForceFor(os, now, n, i)
      ensures forall i | FirstInForceFor(os, now, n, i) :: Merged(os, now).requests[n] == os[i].threshold.requests[n]
    {
      MergeIsFirstWins(os, now, n);
      assert forall i :: FirstInForceFor(os, now, n, i) <==> FirstToDefine(os, now, n, i);
    }
    CountMergeIsFirstWins(os, now);
    assert forall i :: FirstInForceToCount(os, now, i) <==> FirstToCount(os, now, i);
  }

  lemma InForceIsActive(o: Override, now: Time)
    ensures InForce(o, now) <==> ActiveAt(o, now)
  {
  }

  /** An override has a message exactly when a stamp of it is garbled, and it is the first garbled stamp's error. */
  lemma MessagesByStamps(os: seq<Override>)
    ensures forall i | 0 <= i < |os| ::
      (os[i].begin.Garbled? || os[i].end.Garbled?)
      <==> exists k :: 0 <= k < |Messages(os)| && Messages(os)[k].index == i
    ensures forall k | 0 <= k < |Messages(os)| ::
      var m := Messages(os)[k];
      && m.index < |os| && var o := os[m.index];
      && (o.begin.Garbled? || o.end.Garbled?)
      && m.error == if o.begin.Garbled? then o.begin.error else o.end.error
  {
    MessagesAreTheUnparsableOverrides(os);
  }

  // ---------------------------------------------------------------- the documented merge

  /**
   A reading of README.md:190-198, by which the active overrides are laid over the spec's threshold. It is the text's
   "this is not overridden" taken for every value; the example there also leaves out a resource of the spec.
   */
  ghost function Documented(b: SpecBase, now: Time): Amount {
    var m := Merged(b.overrides, now);
    Amount(if m.counts.Some? then m.counts else b.threshold.counts, b.threshold.requests + m.requests)
  }

  /** Some active override says something about resource n, or about the pod count. */
  ghost predicate Defined(os: seq<Override>, now: Time, n: ResourceName) {
    exists i | 0 <= i < |os| :: ActiveAt(os[i], now) && n in os[i].threshold.requests
  }

  ghost predicate CountDefined(os: seq<Override>, now: Time) {
    exists i | 0 <= i < |os| :: ActiveAt(os[i], now) && os[i].threshold.counts.Some?
  }

  lemma {:induction false} MergedHasWhatIsDefined(os: seq<Override>, now: Time)
    ensures forall n :: n in Merged(os, now).requests <==> Defined(os, now, n)
    ensures Merged(os, now).counts.Some? <==> CountDefined(os, now)
    ensures !SomeActive(os, now) ==> Merged(os, now) == NOTHING
  {
    if os != [] {
      var tail := os[1..];
      MergedHasWhatIsDefined(tail, now);
      assert forall i | 0 <= i < |tail| :: tail[i] == os[i + 1];
      assert forall i | 0 < i < |os| :: os[i] == tail[i - 1];
      if !SomeActive(os, now) {
        assert !ActiveAt(os[0], now);
      }
    }
  }

  /**
   The code keeps to its documentation exactly when no override is active or the active ones redefine all that
   the spec defines.
   */
  lemma DocumentedMergeHoldsOnlyIf(b: SpecBase, now: Time)
    ensures Calculated(b, now).threshold == Documented(b, now) <==>
      (SomeActive(b.overrides, now) ==>
        && (b.threshold.counts.Some? ==> CountDefined(b.overrides, now))
        && forall n | n in b.threshold.requests :: Defined(b.overrides, now, n))
  {
    var os := b.overrides;
    MergedHasWhatIsDefined(os, now);
    var m, d := Merged(os, now), Documented(b, now);
    if SomeActive(os, now) && m == d {
      forall n | n in b.threshold.requests ensures Defined(os, now, n) {
        assert n in d.requests;
      }
    }
    if SomeActive(os, now) && forall n | n in b.threshold.requests :: Defined(os, now, n) {
      assert b.threshold.requests + m.requests == m.requests;
    }
  }

  /**
   A case like the documentation's example: the spec's pod count of 3 is gone while two overrides of other
   resources are active.
   */
  lemma DocumentedExampleFails()
    ensures exists b: SpecBase, now: Time ::
      Documented(b, now) == Amount(Some(3), map["cpu" := 5, "memory" := 8])
      && Calculated(b, now).threshold == Amount(None, map["cpu" := 5, "memory" := 8])
  {
    var os := [Override(Blank, Blank, Amount(None, map["cpu" := 5])),
               Override(Blank, Blank, Amount(None, map["cpu" := 1, "memory" := 8]))];
    var b := SpecBase("", Amount(Some(3), map["cpu" := 3, "memory" := 4]), os);
    assert ActiveAt(os[0], 1) && ActiveAt(os[1], 1);
    assert SomeActive(os, 1);
    assert os[1..][1..] == [] && os[1..][0] == os[1];
    assert Merged(os[1..], 1) == Amount(None, map["cpu" := 1, "memory" := 8]);
    assert Merged(os, 1) == Amount(None, map["cpu" := 5, "memory" := 8]);
    assert Documented(b, 1) == Amount(Some(3), map["cpu" := 5, "memory" := 8]);
  }

  /** The messages are the unparsable overrides, each once, in index order. */
  lemma {:induction false} MessagesAreTheUnparsableOverrides(os: seq<Override>)
    ensures forall i | 0 <= i < |os| ::
      Unparsable(os[i]) <==> exists k :: 0 <= k < |Messages(os)| && Messages(os)[k].index == i
    ensures forall k | 0 <= k < |Messages(os)| ::
        && Messages(os)[k].index < |os|
        && IsActive(os[Messages(os)[k].index], 0) == Err(Messages(os)[k].error)
    ensures forall k, l | 0 <= k < l < |Messages(os)| :: Messages(os)[k].index < Messages(os)[l].index
  {
    if os != [] {
      var last := |os| - 1;
      var front := os[..last];
      MessagesAreTheUnparsableOverrides(front);
      var old_, new_ := Messages(front), Messages(os);
      assert forall k | 0 <= k < |old_| :: new_[k] == old_[k];
      forall i | 0 <= i < |os|
        ensures Unparsable(os[i]) <==> exists k :: 0 <= k < |new_| && new_[k].index == i
      {
        if i < last {
          assert front[i] == os[i];
          if Unparsable(os[i]) {
            var k :| 0 <= k < |old_| && old_[k].index == i;
            assert new_[k].index == i;
          } else {
            assert forall k | 0 <= k < |new_| && new_[k].index == i :: k < |old_| ==> old_[k].index == i;
          }
        } else if Unparsable(os[i]) {
          assert new_[|old_|].index == i;
        }
      }
    }
  }

  // ---------------------------------------------------------------- the timer

  /** The instants the timer looks at: every begin that parses, and every end whose begin parses too. */
  ghost function Instants(os: seq<Override>): set<Time> {
    (set i | 0 <= i < |os| && Parse(os[i].begin).Ok? :: Parse(os[i].begin).value)
    + (set i | 0 <= i < |os| && Parse(os[i].begin).Ok? && Parse(os[i].end).Ok? :: Parse(os[i].end).value)
  }

  ghost function Ahead(os: seq<Override>, now: Time): set<Time> {
    set t | t in Instants(os) && t > now
  }

  /** The difference of two times, the first one later, as a duration. */
  function Until(t: Time, now: Time): int {
    MinOf(t - now, MAX_DURATION)
  }

  /** The timer's contract: the shortest duration to an instant ahead, and none when nothing is ahead. */
  ghost predicate IsNextWake(ahead: set<Time>, now: Time, d: Option<int>) {
    && (d.None? <==> ahead == {})
    && (d.Some? ==> exists t :: t in ahead && d.value == Until(t, now))
    && (d.Some? ==> forall t | t in ahead :: d.value <= Until(t, now))
  }

  function Sooner(d: Option<int>, e: int): Option<int> {
    if d.None? || d.value > e then Some(e) else d
  }

  lemma SoonerCovers(ahead: set<Time>, now: Time, d: Option<int>, t: Time)
    requires IsNextWake(ahead, now, d)
    ensures IsNextWake(ahead + {t}, now, Sooner(d, Until(t, now)))
  {
  }

  lemma AheadSnoc(os: seq<Override>, o: Override, now: Time)
    ensures Ahead(os + [o], now) == Ahead(os, now)
      + (if Parse(o.begin).Ok? && Parse(o.begin).value > now then {Parse(o.begin).value} else {})
      + (if Parse(o.begin).Ok? && Parse(o.end).Ok? && Parse(o.end).value > now then {Parse(o.end).value} else {})
  {
    var os' := os + [o];
    assert forall i | 0 <= i < |os| :: os'[i] == os[i];
    assert os'[|os|] == o;
    forall t | t in Instants(os) ensures t in Instants(os') {
      if i :| 0 <= i < |os| && Parse(os[i].begin).Ok? && Parse(os[i].begin).value == t {
        assert os'[i] == os[i];
      } else {
        var i :| 0 <= i < |os| && Parse(os[i].begin).Ok? && Parse(os[i].end).Ok? && Parse(os[i].end).value == t;
        assert os'[i] == os[i];
      }
    }
    if Parse(o.begin).Ok? {
      assert Parse(os'[|os|].begin).value in Instants(os');
      if Parse(o.end).Ok? {
        assert Parse(os'[|os|].end).value in Instants(os');
      }
    }
  }

  method NextOverrideHappensIn(b: SpecBase, now: Time) returns (d: Option<int>)
    ensures IsNextWake(Ahead(b.overrides, now), now, d)
  {
    var os := b.overrides;
    d := None;
    for i := 0 to |os|
      invariant IsNextWake(Ahead(os[..i], now), now, d)
    {
      AheadSnoc(os[..i], os[i], now);
      assert os[..i+1] == os[..i] + [os[i]];
      ghost var ahead := Ahead(os[..i], now);
      var begin := Parse(os[i].begin);
      if begin.Err? {
        assert Ahead(os[..i+1], now) == ahead;
        continue;
      }
      if begin.value > now {
        SoonerCovers(ahead, now, d, begin.value);
        ahead := ahead + {begin.value};
        d := Sooner(d, Until(begin.value, now));
      }
      var end := Parse(os[i].end);
      if end.Err? {
        assert Ahead(os[..i+1], now) == ahead;
        continue;
      }
      if end.value > now {
        SoonerCovers(ahead, now, d, end.value);
        ahead := ahead + {end.value};
        d := Sooner(d, Until(end.value, now));
      }
      assert Ahead(os[..i+1], now) == ahead;
    }
    assert os[..|os|] == os;
  }

  /** The time lies in the window a timer leaves unwatched. */
  predicate InWindow(now: Time, d: Option<int>, t: Time) {
    now <= t && (d.Some? ==> t < now + d.value)
  }

  ghost predicate SameActivity(os: seq<Override>, t: Time, u: Time) {
    forall i | 0 <= i < |os| :: IsActive(os[i], t) == IsActive(os[i], u)
  }

  /** Some active override ends at this very instant: it is still active, yet the timer skips its end. */
  predicate EndsNow(os: seq<Override>, now: Time) {
    exists i | 0 <= i < |os| :: ActiveAt(os[i], now) && Parse(os[i].end) == Ok(now) && now != ZERO_TIME
  }

  /**
   The timer misses no switch exactly when no active override ends at `now` itself, or something begins or ends
   right after, so that the window holds `now` alone.
   */
  lemma TimerIsSound(os: seq<Override>, now: Time, d: Option<int>)
    requires IsNextWake(Ahead(os, now), now, d)
    ensures (forall t | InWindow(now, d, t) :: SameActivity(os, t, now))
      <==> (!EndsNow(os, now) || now + 1 in Ahead(os, now))
  {
    if !EndsNow(os, now) {
      forall t | InWindow(now, d, t) ensures SameActivity(os, t, now) {
        forall i | 0 <= i < |os| ensures IsActive(os[i], t) == IsActive(os[i], now) {
          InstantsAreBeyondTheWindow(os, now, d, t, i);
        }
      }
    } else if now + 1 !in Ahead(os, now) {
      var i :| 0 <= i < |os| && ActiveAt(os[i], now) && Parse(os[i].end) == Ok(now) && now != ZERO_TIME;
      if d.Some? {
        var t :| t in Ahead(os, now) && d.value == Until(t, now);
      }
      assert InWindow(now, d, now + 1);
      assert IsActive(os[i], now + 1) == Ok(false);
      assert !SameActivity(os, now + 1, now);
    } else {
      assert d.value <= Until(now + 1, now);
      var t :| t in Ahead(os, now) && d.value == Until(t, now);
      assert forall u | InWindow(now, d, u) :: u == now;
    }
  }

  lemma InstantsAreBeyondTheWindow(os: seq<Override>, now: Time, d: Option<int>, t: Time, i: int)
    requires IsNextWake(Ahead(os, now), now, d) && InWindow(now, d, t) && 0 <= i < |os|
    ensures Parse(os[i].begin).Ok? && Parse(os[i].begin).value > now ==> Parse(os[i].begin).value > t
    ensures Parse(os[i].begin).Ok? && Parse(os[i].end).Ok? && Parse(os[i].end).value > now
      ==> Parse(os[i].end).value > t
  {
    if Parse(os[i].begin).Ok? {
      assert Parse(os[i].begin).value in Instants(os);
      assert Parse(os[i].begin).value > now ==> Parse(os[i].begin).value in Ahead(os, now);
      if Parse(os[i].end).Ok? {
        assert Parse(os[i].end).value in Instants(os);
        assert Parse(os[i].end).value > now ==> Parse(os[i].end).value in Ahead(os, now);
      }
    }
  }

  lemma {:induction false} SameActivitySameMerge(os: seq<Override>, t: Time, u: Time)
    requires SameActivity(os, t, u)
    ensures Merged(os, t) == Merged(os, u)
  {
    if os != [] {
      assert forall i | 0 <= i < |os[1..]| :: os[1..][i] == os[i + 1];
      SameActivitySameMerge(os[1..], t, u);
      assert IsActive(os[0], t) == IsActive(os[0], u);
    }
  }

  /** Until the timer fires, recalculating gives the same threshold and messages. */
  lemma ThresholdIsConstantUntilTheTimer(b: SpecBase, now: Time, d: Option<int>, t: Time)
    requires IsNextWake(Ahead(b.overrides, now), now, d) && InWindow(now, d, t)
    requires !EndsNow(b.overrides, now)
    ensures Calculated(b, t) == Calculated(b, now).(calculatedAt := t)
  {
    TimerIsSound(b.overrides, now, d);
    assert SameActivity(b.overrides, t, now);
    SameActivitySameMerge(b.overrides, t, now);
    if SomeActive(b.overrides, now) {
      var i :| 0 <= i < |b.overrides| && ActiveAt(b.overrides[i], now);
      assert ActiveAt(b.overrides[i], t);
    }
    if SomeActive(b.overrides, t) {
      var i :| 0 <= i < |b.overrides| && ActiveAt(b.overrides[i], t);
      assert ActiveAt(b.overrides[i], now);
    }
  }

  /** At the end instant of its only override, a spec gets no wake-up although its threshold changes right after. */
  lemma EndInstantIsMissed()
    ensures exists b: SpecBase, now: Time ::
      IsNextWake(Ahead(b.overrides, now), now, None) && Calculated(b, now + 1).threshold != Calculated(b, now).threshold
  {
    var o := Override(Blank, Stamp(7), Amount(Some(2), map[]));
    var b := SpecBase("", Amount(Some(1), map[]), [o]);
    assert b.overrides[0] == o && ActiveAt(b.overrides[0], 7) && !ActiveAt(b.overrides[0], 8);
    assert SomeActive(b.overrides, 7) && !SomeActive(b.overrides, 8);
    assert Merged([o], 7).counts == Some(2);
    assert Ahead(b.overrides, 7) == {};
    assert IsNextWake(Ahead(b.overrides, 7), 7, None) && Calculated(b, 7 + 1).threshold != Calculated(b, 7).threshold;
  }

  /**
   The duration is the exact distance to the nearest instant ahead when that is less than 2^63 nanoseconds, and the
   longest duration when it is not.
   */
  lemma WakeUpIsExact(os: seq<Override>, now: Time, d: int, t: Time)
    requires IsNextWake(Ahead(os, now), now, Some(d))
    requires t in Ahead(os, now) && forall u | u in Ahead(os, now) :: t <= u
    ensures t - now < 0x8000_0000_0000_0000 ==> d == t - now
    ensures t - now >= 0x8000_0000_0000_0000 ==> d == 0x7FFF_FFFF_FFFF_FFFF
  {
    var u :| u in Ahead(os, now) && d == Until(u, now);
    assert d <= Until(t, now) <= Until(u, now);
  }

  /** What is ahead, in terms of the stamps: begins, and the ends of overrides whose begin can be read. */
  lemma AheadByStamps(os: seq<Override>, now: Time, t: Time)
    ensures t in Ahead(os, now) <==> t > now && exists i | 0 <= i < |os| ::
      || os[i].begin == Stamp(t) || (os[i].begin.Blank? && t == 0)
      || (!os[i].begin.Garbled? && (os[i].end == Stamp(t) || (os[i].end.Blank? && t == 0)))
  {
    if i :| 0 <= i < |os| && Parse(os[i].begin).Ok? && Parse(os[i].begin).value == t {
    }
  }

  // ---------------------------------------------------------------- chains of wake-ups

  /** Each wake-up comes no earlier than the one before it asked for. */
  ghost predicate IsChain(os: seq<Override>, wakes: seq<Time>) {
    forall i | 0 <= i < |wakes| - 1 :: Wakes(os, wakes[i], wakes[i + 1])
  }

  ghost predicate Wakes(os: seq<Override>, now: Time, next: Time) {
    exists d: int :: IsNextWake(Ahead(os, now), now, Some(d)) && next >= now + d
  }

  /**
   A wake-up strictly shrinks the set of instants ahead, unless the nearest one is further away than a
   duration can say; then the wake-up brings it nearer by the longest duration.
   */
  lemma WakeUpMakesProgress(os: seq<Override>, now: Time, next: Time)
    requires Wakes(os, now, next)
    ensures Ahead(os, next) <= Ahead(os, now)
    ensures Ahead(os, next) < Ahead(os, now) || next >= now + MAX_DURATION
    ensures (exists t :: t in Ahead(os, now) && t - now <= MAX_DURATION) ==> Ahead(os, next) < Ahead(os, now)
  {
  }

  /**
   However late the wake-up comes, it shrinks the set of instants ahead, exactly when one of them is within reach
   of a duration.
   */
  lemma WakeUpShrinksExactlyWhen(os: seq<Override>, now: Time, d: int)
    requires IsNextWake(Ahead(os, now), now, Some(d))
    ensures (forall next | next >= now + d :: Ahead(os, next) < Ahead(os, now)) <==>
      exists t :: t in Ahead(os, now) && t - now <= MAX_DURATION
  {
    if t :| t in Ahead(os, now) && t - now <= MAX_DURATION {
      forall next | next >= now + d ensures Ahead(os, next) < Ahead(os, now) {
        assert Wakes(os, now, next);
        WakeUpMakesProgress(os, now, next);
      }
    } else {
      var next := now + d;
      var u :| u in Ahead(os, now) && d == Until(u, now);
      assert Ahead(os, next) == Ahead(os, now);
    }
  }

  /** An override that begins in more than 292 years: the first wake-up finds it still ahead. */
  lemma DistantInstantTakesTwoWakeUps()
    ensures exists os, now, next ::
      |os| == 1 && Wakes(os, now, next) && Ahead(os, next) == Ahead(os, now) && Ahead(os, now) != {}
  {
    var far := MAX_DURATION + 1;
    var os := [Override(Stamp(far), Blank, NOTHING)];
    assert Parse(os[0].begin) == Ok(far) && Parse(os[0].end) == Ok(ZERO_TIME);
    assert Instants(os) == {far, ZERO_TIME};
    assert Ahead(os, 0) == {far} == Ahead(os, MAX_DURATION);
    assert IsNextWake(Ahead(os, 0), 0, Some(MAX_DURATION));
    assert Wakes(os, 0, MAX_DURATION);
    assert |os| == 1 && Ahead(os, MAX_DURATION) == Ahead(os, 0) && Ahead(os, 0) != {};
  }

  lemma {:induction false} InstantsAreFew(os: seq<Override>)
    ensures |Instants(os)| <= 2 * |os|
    decreases |os|
  {
    if os == [] {
      assert Instants(os) == {};
    } else {
      var last := |os| - 1;
      var front := os[..last];
      InstantsAreFew(front);
      InstantsSnoc(front, os[last]);
      assert os == front + [os[last]];
    }
  }

  lemma InstantsSnoc(os: seq<Override>, o: Override)
    ensures |Instants(os + [o])| <= |Instants(os)| + 2
  {
    var os' := os + [o];
    var begin := if Parse(o.begin).Ok? then {Parse(o.begin).value} else {};
    var end := if Parse(o.end).Ok? then {Parse(o.end).value} else {};
    assert forall i | 0 <= i < |os| :: os[i] == os'[i];
    assert Instants(os') <= Instants(os) + begin + end;
    SubsetIsSmaller(Instants(os'), Instants(os) + begin + end);
  }

  lemma {:induction false} SubsetIsSmaller<T>(s: set<T>, u: set<T>)
    requires s <= u
    ensures |s| <= |u|
    ensures s < u ==> |s| < |u|
  {
    assert u == s + (u - s);
    if s < u {
      var x :| x in u - s;
    }
  }

  /** The number of longest durations that fit before the last instant. */
  ghost function Hops(now: Time, last: Time): nat {
    if last <= now then 0 else (last - now) / MAX_DURATION
  }

  /**
   One chain of timed reconciles has at most twice as many wake-ups as there are overrides, plus one for
   each longest duration before the last instant: none when that instant is within reach of a duration.
   */
  lemma {:induction false} ChainsAreShort(os: seq<Override>, wakes: seq<Time>, last: Time)
    requires wakes != [] && IsChain(os, wakes)
    requires forall t | t in Instants(os) :: t <= last
    ensures |wakes| - 1 <= |Ahead(os, wakes[0])| + Hops(wakes[0], last)
    ensures |Ahead(os, wakes[0])| <= 2 * |os|
    decreases |wakes|
  {
    InstantsAreFew(os);
    SubsetIsSmaller(Ahead(os, wakes[0]), Instants(os));
    if |wakes| > 1 {
      assert Wakes(os, wakes[0], wakes[1]);
      assert IsChain(os, wakes[1..]) by {
        forall i | 0 <= i < |wakes[1..]| - 1 ensures Wakes(os, wakes[1..][i], wakes[1..][i + 1]) {
          assert Wakes(os, wakes[i + 1], wakes[i + 2]);
        }
      }
      ChainsAreShort(os, wakes[1..], last);
      WakeUpMakesProgress(os, wakes[0], wakes[1]);
      SubsetIsSmaller(Ahead(os, wakes[1]), Ahead(os, wakes[0]));
      HopsShrink(wakes[0], wakes[1], last);
      if !(Ahead(os, wakes[1]) < Ahead(os, wakes[0])) {
        assert Ahead(os, wakes[0]) != {} by {
          var d: int :| IsNextWake(Ahead(os, wakes[0]), wakes[0], Some(d));
        }
        var t :| t in Ahead(os, wakes[0]);
        assert t in Ahead(os, wakes[1]);
      }
    }
  }

  lemma HopsShrink(now: Time, next: Time, last: Time)
    requires next >= now
    ensures Hops(next, last) <= Hops(now, last)
    ensures now + MAX_DURATION <= next < last ==> Hops(next, last) < Hops(now, last)
  {
  }

  /** When every wake-up is on time, no begin or end instant is passed without a wake-up at it. */
  lemma {:induction false} PunctualChainsVisitEveryInstant(os: seq<Override>, wakes: seq<Time>, t: Time)
    requires wakes != []
    requires forall i | 0 <= i < |wakes| - 1 ::
      IsNextWake(Ahead(os, wakes[i]), wakes[i], Some(wakes[i + 1] - wakes[i]))
    requires t in Instants(os) && wakes[0] < t <= wakes[|wakes| - 1]
    ensures t in wakes
    decreases |wakes|
  {
    if |wakes| > 1 && wakes[1] != t {
      assert t in Ahead(os, wakes[0]);
      assert IsNextWake(Ahead(os, wakes[0]), wakes[0], Some(wakes[1] - wakes[0]));
      forall i | 0 <= i < |wakes[1..]| - 1
        ensures IsNextWake(Ahead(os, wakes[1..][i]), wakes[1..][i], Some(wakes[1..][i + 1] - wakes[1..][i]))
      {
        assert IsNextWake(Ahead(os, wakes[i + 1]), wakes[i + 1], Some(wakes[i + 2] - wakes[i + 1]));
      }
      PunctualChainsVisitEveryInstant(os, wakes[1..], t);
    }
  }
}
