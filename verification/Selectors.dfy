/**
 Selectors and the two lookups, from a throttle to its pods and from a pod to its throttles
 (pkg/apis/schedule/v1alpha1/throttle_selector.go, clusterthrottle_selector.go).
 A label selector is its outcome: malformed, or a test on labels.
 */
module Selectors {
  import opened Wrappers
  import opened Names
  import opened PodModel
  import opened Overrides
  import opened Throttles

  datatype LabelSelector = Malformed(error: string) | Selects(test: Labels -> bool)

  datatype ClusterTerm = ClusterTerm(pods: LabelSelector, namespaces: LabelSelector)

  datatype Namespace = Namespace(name: string, labels: Labels)

  datatype Throttle = Throttle(name: Name, spec: SpecBase, selector: seq<LabelSelector>, status: Status)

  datatype ClusterThrottle = ClusterThrottle(name: Name, spec: SpecBase, selector: seq<ClusterTerm>, status: Status)

  type Match = Result<bool, string>

  function TermMatches(term: LabelSelector, labels: Labels): Match {
    if term.Malformed? then Err(term.error) else Ok(term.test(labels))
  }

  /** Terms are or-ed: the first one that matches or fails decides. */
  function FirstDecisive(outcomes: seq<Match>): Match {
    if outcomes == [] then Ok(false)
    else if outcomes[0] == Ok(false) then FirstDecisive(outcomes[1..])
    else outcomes[0]
  }

  function Outcomes(terms: seq<LabelSelector>, labels: Labels): seq<Match> {
    seq(|terms|, i requires 0 <= i < |terms| => TermMatches(terms[i], labels))
  }

  function Matches(terms: seq<LabelSelector>, labels: Labels): Match {
    FirstDecisive(Outcomes(terms, labels))
  }

  /** A malformed namespace selector matches no namespace, and is no error. */
  function TermMatchesNamespace(term: ClusterTerm, ns: Labels): Match {
    if term.namespaces.Malformed? then Ok(false) else Ok(term.namespaces.test(ns))
  }

  function TermMatchesPod(term: ClusterTerm, pod: Labels, ns: Labels): Match {
    var matchNs := TermMatchesNamespace(term, ns);
    if matchNs.Err? || !matchNs.value then Ok(false) else TermMatches(term.pods, pod)
  }

  function NamespaceOutcomes(terms: seq<ClusterTerm>, ns: Labels): seq<Match> {
    seq(|terms|, i requires 0 <= i < |terms| => TermMatchesNamespace(terms[i], ns))
  }

  function MatchesNamespace(terms: seq<ClusterTerm>, ns: Labels): Match {
    FirstDecisive(NamespaceOutcomes(terms, ns))
  }

  function PodOutcomes(terms: seq<ClusterTerm>, pod: Labels, ns: Labels): seq<Match> {
    seq(|terms|, i requires 0 <= i < |terms| => TermMatchesPod(terms[i], pod, ns))
  }

  function MatchesPod(terms: seq<ClusterTerm>, pod: Labels, ns: Labels): Match {
    FirstDecisive(PodOutcomes(terms, pod, ns))
  }

  /** Outcome i is a match, and no outcome before it is an error. */
  ghost predicate Wins(outcomes: seq<Match>, i: nat) {
    i < |outcomes| && outcomes[i] == Ok(true) && forall j | 0 <= j < i :: outcomes[j].Ok?
  }

  /** Outcome i is an error, and every outcome before it a rejection. */
  ghost predicate Spoils(outcomes: seq<Match>, i: nat) {
    i < |outcomes| && outcomes[i].Err? && forall j | 0 <= j < i :: outcomes[j] == Ok(false)
  }

  lemma {:induction false} FirstDecisiveIsAnOr(outcomes: seq<Match>)
    ensures FirstDecisive(outcomes) == Ok(false) <==> forall i | 0 <= i < |outcomes| :: outcomes[i] == Ok(false)
    ensures FirstDecisive(outcomes) == Ok(true) <==> exists i :: Wins(outcomes, i)
    ensures FirstDecisive(outcomes).Err? <==> exists i :: Spoils(outcomes, i)
  {
    if outcomes != [] {
      var tail := outcomes[1..];
      FirstDecisiveIsAnOr(tail);
      assert forall j | 0 <= j < |tail| :: tail[j] == outcomes[j + 1];
      if outcomes[0] == Ok(false) {
        assert forall i | 0 < i < |outcomes| :: outcomes[i] == tail[i - 1];
        forall i: nat | Wins(tail, i) ensures Wins(outcomes, i + 1) {
        }
        forall i: nat | Wins(outcomes, i) ensures i > 0 && Wins(tail, i - 1) {
        }
        forall i: nat | Spoils(tail, i) ensures Spoils(outcomes, i + 1) {
        }
        forall i: nat | Spoils(outcomes, i) ensures i > 0 && Spoils(tail, i - 1) {
        }
      } else if outcomes[0].Ok? {
        assert outcomes[0] == if outcomes[0].value then Ok(true) else Ok(false);
        assert Wins(outcomes, 0);
        assert forall i: nat :: Spoils(outcomes, i) ==> i == 0;
      } else {
        assert Spoils(outcomes, 0);
        assert forall i: nat :: Wins(outcomes, i) ==> outcomes[0].Ok?;
      }
    }
  }

  predicate Passes(term: LabelSelector, labels: Labels) {
    term.Selects? && term.test(labels)
  }

  predicate Rejects(term: LabelSelector, labels: Labels) {
    term.Selects? && !term.test(labels)
  }

  ghost predicate TermWins(terms: seq<LabelSelector>, labels: Labels, i: nat) {
    i < |terms| && Passes(terms[i], labels) && forall j | 0 <= j < i :: terms[j].Selects?
  }

  ghost predicate TermSpoils(terms: seq<LabelSelector>, labels: Labels, i: nat) {
    i < |terms| && terms[i].Malformed? && forall j | 0 <= j < i :: Rejects(terms[j], labels)
  }

  /**
   A throttle matches labels that some term selects with no malformed term before it, and rejects those that no
   term selects.
   */
  lemma ThrottleSelectorIsAnOr(terms: seq<LabelSelector>, labels: Labels)
    ensures Matches(terms, labels) == Ok(false) <==> forall i | 0 <= i < |terms| :: Rejects(terms[i], labels)
    ensures Matches(terms, labels) == Ok(true) <==> exists i :: TermWins(terms, labels, i)
    ensures Matches(terms, labels).Err? <==> exists i :: TermSpoils(terms, labels, i)
  {
    var outcomes := Outcomes(terms, labels);
    FirstDecisiveIsAnOr(outcomes);
    assert forall i {:trigger outcomes[i]} {:trigger terms[i]} | 0 <= i < |terms| ::
      outcomes[i] == TermMatches(terms[i], labels);
    assert forall i: nat :: Wins(outcomes, i) <==> TermWins(terms, labels, i);
    assert forall i: nat :: Spoils(outcomes, i) <==> TermSpoils(terms, labels, i);
    forall i | 0 <= i < |terms| ensures outcomes[i] == Ok(false) <==> Rejects(terms[i], labels) {
    }
  }

  ghost predicate ClusterTermWins(terms: seq<ClusterTerm>, pod: Labels, ns: Labels, i: nat) {
    && i < |terms| && Passes(terms[i].namespaces, ns) && Passes(terms[i].pods, pod)
    && forall j | 0 <= j < i :: Passes(terms[j].namespaces, ns) ==> terms[j].pods.Selects?
  }

  ghost predicate ClusterTermSpoils(terms: seq<ClusterTerm>, pod: Labels, ns: Labels, i: nat) {
    && i < |terms| && Passes(terms[i].namespaces, ns) && terms[i].pods.Malformed?
    && forall j | 0 <= j < i :: Passes(terms[j].namespaces, ns) ==> Rejects(terms[j].pods, pod)
  }

  /**
   A cluster throttle is about the terms whose namespace selector holds: it matches a pod that one of them
   selects with no malformed pod selector among those before it, and rejects a pod that none of them selects.
   */
  lemma ClusterSelectorIsAnOr(terms: seq<ClusterTerm>, pod: Labels, ns: Labels)
    ensures MatchesPod(terms, pod, ns) == Ok(false) <==>
      forall i | 0 <= i < |terms| :: Passes(terms[i].namespaces, ns) ==> Rejects(terms[i].pods, pod)
    ensures MatchesPod(terms, pod, ns) == Ok(true) <==> exists i :: ClusterTermWins(terms, pod, ns, i)
    ensures MatchesPod(terms, pod, ns).Err? <==> exists i :: ClusterTermSpoils(terms, pod, ns, i)
  {
    var outcomes := PodOutcomes(terms, pod, ns);
    FirstDecisiveIsAnOr(outcomes);
    assert forall i {:trigger outcomes[i]} {:trigger terms[i]} | 0 <= i < |terms| ::
      outcomes[i] == TermMatchesPod(terms[i], pod, ns);
    assert forall i: nat :: Wins(outcomes, i) <==> ClusterTermWins(terms, pod, ns, i);
    assert forall i: nat :: Spoils(outcomes, i) <==> ClusterTermSpoils(terms, pod, ns, i);
    forall i | 0 <= i < |terms|
      ensures outcomes[i] == Ok(false) <==> (Passes(terms[i].namespaces, ns) ==> Rejects(terms[i].pods, pod))
    {
    }
  }

  /** Looking at namespaces first loses no pod, and hides no error. */
  lemma NamespacePrefilterLosesNothing(terms: seq<ClusterTerm>, pod: Labels, ns: Labels)
    ensures MatchesNamespace(terms, ns).Ok?
    ensures MatchesNamespace(terms, ns) == Ok(false) ==> MatchesPod(terms, pod, ns) == Ok(false)
  {
    var byNs, byPod := NamespaceOutcomes(terms, ns), PodOutcomes(terms, pod, ns);
    NoErrorsNoError(byNs);
    FirstDecisiveIsAnOr(byNs);
    FirstDecisiveIsAnOr(byPod);
    if MatchesNamespace(terms, ns) == Ok(false) {
      forall i | 0 <= i < |terms| ensures byPod[i] == Ok(false) {
        assert byNs[i] == Ok(false);
      }
    }
  }

  lemma {:induction false} NoErrorsNoError(outcomes: seq<Match>)
    requires forall i | 0 <= i < |outcomes| :: outcomes[i].Ok?
    ensures FirstDecisive(outcomes).Ok?
  {
    if outcomes != [] {
      NoErrorsNoError(outcomes[1..]);
    }
  }

  // ---------------------------------------------------------------- the lookups

  function Find<T>(m: map<string, T>, k: string): Option<T> {
    if k in m then Some(m[k]) else None
  }

  /** A throttle's view of one pod, as the lookup from the throttle comes by it. */
  function CountedFrom(target: string, namespaces: map<string, Namespace>, thr: ClusterThrottle, pod: Pod): Match {
    var ns := Find(namespaces, pod.name.namespace);
    if ns.None? || MatchesNamespace(thr.selector, ns.value.labels) != Ok(true) then Ok(false)
    else if !ShouldCountIn(target, pod) then Ok(false)
    else MatchesPod(thr.selector, pod.labels, ns.value.labels)
  }

  /** A pod's view of one throttle, as the lookup from the pod comes by it. */
  function AffectsFrom(throttler: string, ns: Namespace, thr: ClusterThrottle, pod: Pod): Match {
    if thr.spec.throttlerName != throttler then Ok(false)
    else MatchesPod(thr.selector, pod.labels, ns.labels)
  }

  /** The two directions are converses, for errors as for matches. */
  lemma LookupsAreConverses(target: string, throttler: string, namespaces: map<string, Namespace>,
                            thr: ClusterThrottle, pod: Pod)
    requires thr.spec.throttlerName == throttler && pod.name.namespace in namespaces
    ensures ShouldCountIn(target, pod) ==>
      CountedFrom(target, namespaces, thr, pod) == AffectsFrom(throttler, namespaces[pod.name.namespace], thr, pod)
    ensures !ShouldCountIn(target, pod) ==> CountedFrom(target, namespaces, thr, pod) == Ok(false)
  {
    var labels := namespaces[pod.name.namespace].labels;
    NamespacePrefilterLosesNothing(thr.selector, pod.labels, labels);
    var matchNs := MatchesNamespace(thr.selector, labels);
    if matchNs.value {
      assert matchNs == Ok(true);
    } else {
      assert matchNs == Ok(false);
    }
  }
}
