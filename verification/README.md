# A verified model of kube-throttler

kube-throttler admits a pod only while `used + reserved + requested` stays within the threshold of every
throttle that matches the pod. The scheduler plugin checks and reserves; the controllers sum the scheduled
pods into the status of each throttle, write it, and only then drop the reservations. This project models
both sides in Dafny and proves what the two together are for: on no interleaving is a quota exceeded, no
live pod goes uncounted, and no status is left stale without a reconcile being due.

Check it with `dafny verify dfyconfig.toml`.

## How it is laid out

| file | subject |
|---|---|
| ResourceLists.dfy, PodRequests.dfy | resource lists changed in place, the laws of their order, sums and bounds, and a pod's request |
| ResourceAmounts.dfy, Usage.dfy | amounts with optional counts, in-place sums on shared lists, throttled flags, totals over maps and pod lists |
| Overrides.dfy | temporary overrides: activity, the calculated threshold, the wake-up timer and chains of wake-ups |
| Throttles.dfy | both admission checks, and the status a reconcile computes |
| Pods.dfy, Selectors.dfy | pod predicates, selectors, and the two lookup directions |
| ReservedAmounts.dfy, CacheProtocol.dfy | the reservation cache as objects, and its locking step by step |
| Slices.dfy, Scans.dfy | Go slices that share arrays, and the split of a throttle's pods into running and terminated ones |
| ThrottleController.dfy, ClusterThrottleController.dfy, Plugin.dfy | the controllers and the plugin, one call at a time |
| InTermsOfFields.dfy | what the controllers do, in terms of the fields of pods and throttles alone |
| Fixpoints.dfy, FailedWrites.dfy | two reconciles in a row, and what becomes of a status write that failed |
| Protocol.dfy, ProtocolResults.dfy | the reservation protocol as a step machine over whole runs |
| SequentialRuns.dfy, ControllerRuns.dfy, HandlerRuns.dfy | what the machine does undisturbed, and that the controller's calls are its runs |
| SampleRuns.dfy | runs of the machine from beginning to end: what its results are about does happen |
| OverlappingReconciles.dfy | what goes wrong when two reconciles of one object overlap |

A method that works in place is specified by a function of the old state, and the laws are proved about that
function. A Go map range is a loop that picks the remaining keys in any order. The step machine
and the controllers share the functions that give a step its effect: `CheckThrottle` is the verdict,
`NextStatus` the status that is written, `Total` and `OfPod` what is reserved and summed. `ControllerRuns` and
`HandlerRuns` prove that every work item the Throttle controller processes, failures included, every check, reserve
and un-reserve, every change of the pod lister and every handler takes the machine along a run, or a step, from a state that
mirrors the controller's to one that mirrors it again.

The machine of `Protocol` splits a reconcile into its start, the snapshot of the pod lister, the status
write, and one un-reservation at a time, and a scheduling cycle into one read of the reservation and one look
at the status per throttle, and then one reservation per throttle. Pods are bound, seen bound, finished, relabelled
and deleted, specs are edited, time passes and wake-ups ring at any point in between; the handlers of events, except
for relabels, run at any later time.

## What is assumed, because the code relies on it

- Quantities are not negative, pod keys are not reused, and a pod's request does not change.
- A pod's labels do not change from the start of its scheduling cycle until the lister shows it bound, and
  a failed bind leaves it unbound.
- Scheduling cycles run one after another; binding, and un-reserving after a failed bind, run beside them. A pending
  pod is deleted outside its own cycle.
- Selectors are well formed in the step machine. The controllers' methods model malformed ones.
- The lister's object that a reconcile changes is the one a check reads, and no staler object replaces
  it; hence a spec is edited only between reconciles of its throttle. Reading or writing a status is one step.
- The work queue never runs one key twice at once, and a key added while it is processed is due again.
- The quota result further takes it that no throttle's threshold changes during the run and that the run starts within
  the quota.

## Where the code differs from what one might expect

The model follows the code.

- An active override replaces the whole threshold of the spec (throttle_types.go:96-98), while README.md:190-198
  shows spec values that survive. `Overrides.DocumentedMergeHoldsOnlyIf` says exactly when the code agrees with the
  active overrides laid over the spec, and `Overrides.DocumentedExampleFails` is a case in which it does not.
- At the exact end instant of an override it is still active and no wake-up is asked for
  (temporary_threshold_override.go:68, throttle_types.go:57). `Overrides.TimerIsSound` gives the exact condition, and
  `Overrides.EndInstantIsMissed` an instance.
- A difference of times saturates at the longest duration, about 292 years, so a wake-up may come with
  its instant still ahead. `Overrides.WakeUpShrinksExactlyWhen` gives the exact condition,
  `Overrides.DistantInstantTakesTwoWakeUps` an instance, and `Overrides.ChainsAreShort` accounts for it.
- The terminated pods of a throttle are collected on top of the running ones (throttle_controller.go:241).
  So all finished pods but one are missing from the list, and because the two slices may share an array, a later
  append can overwrite that one too. `Scans.CompleteExactlyWhen` says exactly when nothing is missed,
  `Scans.DroppedExactly` exactly which reservations one reconcile may drop, and `Scans.FinishedPodIsLost` gives
  an instance of the loss.
- For that reason a second reconcile of a Throttle may drop a reservation that the first one left, with nothing changed
  in between. `Scans.DroppingAgainChangesNothing` gives the exact condition and `Scans.SecondDropMayDropMore` an
  instance. The status half of the fixpoint holds for Throttle as for ClusterThrottle, where the whole fixpoint holds.
- A status write that failed may never be sent again. The lister's own object was changed before the write
  (throttle_controller.go:157-158), so the retry compares with the status that was refused. `FailedWrites.RetryThrottle`
  and `FailedWrites.RetryClusterThrottle` say exactly when the retry sends a write: when it computes another status by
  then. `FailedWrites.ThrottleStatusIsNeverWritten` and `FailedWrites.ClusterThrottleStatusIsNeverWritten` are instances
  in which it does not, reports success, and nobody tries again.
- A wake-up counts from the end of the reconcile that asks for it, though its duration was taken from the beginning
  (throttle_controller.go:87, 201-208), so it is late by the time the reconcile took;
  `ProtocolResults.ThresholdIsCurrentOrAWakeUpIsSet` allows for it.
- Throttle counts equality as throttled in its already-used check whatever the caller asks
  (throttle_types.go:143), ClusterThrottle follows the caller (clusterthrottle_types.go:45).
  `Throttles.VerdictsDifferExactlyAtTheThreshold` says when that can be seen, and `Throttles.VerdictsDiffer` is an
  instance.
- A status never dated whose calculated threshold is empty keeps the zero date, so the check falls
  back to the spec's threshold (throttle_types.go:129-132). See `Throttles.CheckUsesTheCalculatedThreshold`.
- A malformed namespace selector in a ClusterThrottle matches nothing and is no error
  (clusterthrottle_selector.go:63-69).
- ClusterThrottle's pod updates enqueue the key `/name` where other events enqueue `name`
  (clusterthrottle_controller.go:539), so the work queue does not keep two reconciles of one ClusterThrottle
  apart. `OverlappingReconciles.OverlappingReconcilesLoseAPod` is a run on which a live pod goes uncounted for that
  reason, and `OverlappingReconciles.ExclusionKeepsPodsCovered` the condition that excludes it. The large step machine is
  therefore about Throttle.
- The second look under the write lock when an inner map is made (reserved_resource_amounts.go:60) never finds one, because
  the key mutex is held; it follows from the invariant behind `CacheProtocol.InnerMapsAreNeverReplaced`.

## Model

| member | source | states |
|---|---|---|
| ProtocolResults.QuotaIsNeverExceeded | pkg/controllers/throttle_controller.go:84-211 | on every run of the step machine that starts within the quota, with unchanged thresholds and live pods' labels, the reserved-or-running pods of each throttle stay within its threshold on the count and on every thresholded resource |
| SampleRuns.AQuotaIsUsedUp | pkg/scheduler_plugin/plugin.go:148-238 | there is such a run on which a pod is admitted and is the whole demand of a quota of one |
| SampleRuns.APodInFlightMayLiveAndLeave | pkg/controllers/throttle_controller.go:432-532 | a pod in flight may be bound, listed, finish and be deleted, and then holds no reservation |
| SampleRuns.APodInFlightMayStartOver | pkg/scheduler_plugin/plugin.go:240-257 | or its bind fails, it is un-reserved everywhere, and is pending again |
| SampleRuns.AWakeUpMayRing | pkg/controllers/controller.go:64-72 | a pending wake-up comes due and enqueues its throttle |
| SampleRuns.ASpecMayBeEdited | pkg/controllers/throttle_controller.go:410-417 | an edit between reconciles is an event whose handler makes the throttle due |
| SampleRuns.AFailedKeyMayBeRetried | pkg/controllers/controller.go:106-109 | a failed key is queued again |
| SampleRuns.ACycleMayEndEarly | pkg/scheduler_plugin/plugin.go:148-257 | a cycle may end before any reservation, or after some, which are then to be taken back |
| SampleRuns.APendingPodMayChange | pkg/controllers/throttle_controller.go:432-532 | a pending pod may be deleted or relabelled outside its cycle |
| SampleRuns.DemandLastsUntilFinished | pkg/controllers/throttle_controller.go:217-246 | a pod is demand from the end of its scheduling cycle until the lister shows that it has finished, and at no other time |
| ProtocolResults.AdmittedOnlyWhereItFits | pkg/scheduler_plugin/plugin.go:148-180 | a pod becomes live only when, at that very moment, it fits on top of the demand of every throttle that affects it |
| ProtocolResults.DueOrConsistent | pkg/controllers/throttle_controller.go:400-532 | in every reachable state a throttle is queued, waiting for a retry, named by an undelivered event or being reconciled, or else its status equals the usage of the pods listed now with the flags that follow |
| ProtocolResults.ThresholdIsCurrentOrAWakeUpIsSet | pkg/controllers/throttle_controller.go:201-208 | in every reachable state a throttle is due or being reconciled, or its threshold and messages are those of the present time, or the wake-up for their change is set, except after a reconcile at the very instant an override ends |
| ProtocolResults.PassingLeavesRoom | pkg/apis/schedule/v1alpha1/throttle_types.go:128-153 | a not-throttled verdict on a reservation read earlier and a status read later leaves room over the real demand |
| ProtocolResults.FittingPodKeepsQuota | pkg/apis/schedule/v1alpha1/throttle_types.go:147-150 | letting in a pod that fits keeps the whole quota, also on resources it does not ask for |
| ProtocolResults.ListChangesMakeDue | pkg/controllers/throttle_controller.go:450-532 | no step changes the pods a throttle would list without making the throttle due |
| ProtocolResults.DueUntilTaken | pkg/controllers/controller.go:64-122 | a due throttle stays due, over failures and retries, until a worker takes it |
| Protocol.NoPodIsUncounted | pkg/controllers/throttle_controller.go:135-175 | in every reachable state, relabels included, each live matching pod is behind the status or among the reservations, and together these cover the demand on every resource and the count |
| Protocol.CheckNeverSeesLess | pkg/controllers/throttle_controller.go:370-375 | a check that read the reservation first and reads the status now sees at least the demand that was there at the read and still is, whatever reconcile steps came in between |
| Protocol.StepKeepsInv | pkg/controllers/throttle_controller.go:135-211 | every step keeps the invariant: statuses are sums over seen pods, every live pod is covered also by a pending snapshot, and what is about to be dropped is counted or no longer live |
| Protocol.SnapshotKeepsThrInv | pkg/controllers/throttle_controller.go:104-119 | a snapshot takes every live pod the lister shows, and the ones it misses hold a reservation |
| Protocol.RelabelKeepsThrInv | pkg/controllers/throttle_controller.go:497-506 | the relabel handler keeps every throttle covered, at whatever stage its reconcile stands |
| Protocol.CyclePodStaysReserved | pkg/controllers/throttle_controller.go:271-308 | nothing running beside a scheduling cycle takes away a reservation the cycle has made |
| SequentialRuns.EveryUndisturbedReconcile | pkg/controllers/throttle_controller.go:84-211 | whatever steps a reconcile takes by itself, in whatever order it un-reserves, once idle again it has written the status of the pods listed and dropped exactly what its snapshot chose |
| SequentialRuns.UndisturbedReconcile | pkg/controllers/throttle_controller.go:84-211 | and every such outcome can be reached: some steps of a due, undisturbed reconcile lead to it |
| ControllerRuns.ProcessAsARun | pkg/controllers/controller.go:89-122 | from states that mirror each other, whatever the controller does with one work item (a failed lookup, a failed write, success, or a key whose throttle is gone or another throttler's) the machine can do in steps of that throttle's reconcile alone, to states that mirror each other, asking for the same wake-up |
| HandlerRuns.CheckAsARun | pkg/controllers/throttle_controller.go:349-397 | a check admits a pod exactly when the machine finds room on all its throttles, and is a run of reads and judgements past all of them, or up to one that refuses |
| HandlerRuns.ReserveAsARun | pkg/controllers/throttle_controller.go:271-308 | reserving is a run of single reservations |
| HandlerRuns.UnreserveAsARun | pkg/controllers/throttle_controller.go:310-347 | un-reserving is a run of single un-reservations, after which the pod is pending and holds none |
| HandlerRuns.StoreAsAStep | pkg/controllers/throttle_controller.go:221-246 | the lister showing a bound pod, or that it has finished, is one step |
| HandlerRuns.RemoveAsAStep | pkg/controllers/throttle_controller.go:221-246 | so is the pod's disappearance |
| HandlerRuns.PodAddAsAStep | pkg/controllers/throttle_controller.go:432-449 | the handler of a pod's addition delivers the machine's event |
| HandlerRuns.PodUpdateAsAStep | pkg/controllers/throttle_controller.go:450-507 | so does the handler of an update that leaves the labels alone |
| HandlerRuns.PodDeleteAsAStep | pkg/controllers/throttle_controller.go:508-532 | and the handler of a deletion, which also takes the reservations away |
| HandlerRuns.RelabelAsAStep | pkg/controllers/throttle_controller.go:450-507 | storing a pod's new labels and running the update handler is one relabel step of the machine |
| HandlerRuns.ThrottleEventAsAStep | pkg/controllers/throttle_controller.go:401-426 | the handler of a throttle's event is one step of the machine, after which the throttle is due, and none for another throttler's |
| OverlappingReconciles.TwoKeysOneObject | pkg/controllers/clusterthrottle_controller.go:537-540 | the two keys differ and split to the same object |
| OverlappingReconciles.OverlappingReconcilesLoseAPod | pkg/controllers/clusterthrottle_controller.go:106-202 | a run of two overlapping reconciles after which a live pod is neither counted nor reserved |
| OverlappingReconciles.ExclusionKeepsPodsCovered | pkg/controllers/throttle_controller.go:135-175 | on runs without overlap no pod is ever uncounted, for any number of workers |
| SequentialRuns.UsagesAgree | pkg/controllers/throttle_controller.go:116-119 | the machine's usage of pod names is the controller's usage of the pods |
| SequentialRuns.PodWithRoomGetsIn | pkg/scheduler_plugin/plugin.go:148-238 | safety is not bought by refusing: a pending pod for which every matching throttle finds room can go all the way to being reserved on all of them |
| CacheProtocol.CacheIsAtomic | pkg/controllers/reserved_resource_amounts.go:50-126 | any interleaving of lock steps by any number of threads refines an atomic map of maps, with the atomic outcomes returned |
| CacheProtocol.CacheHoldsWhatWasAddedLast | pkg/controllers/reserved_resource_amounts.go:66-156 | in every reachable state a pod is held on a throttle, with an amount, if and only if the last event about it there reserved it with that amount, and every answer given was true of the events before it |
| CacheProtocol.InnerMapsAreNeverReplaced | pkg/controllers/reserved_resource_amounts.go:50-64 | over a whole run an inner map, once made, stays the map of its key and of no other key |
| CacheProtocol.AccessesNeverOverlap | pkg/controllers/reserved_resource_amounts.go:66-126 | two threads never have one inner map in hand, and nobody reads the outer map while it is written |
| CacheProtocol.SomeThreadCanMove | pkg/controllers/reserved_resource_amounts.go:113-121 | no deadlock, even when a waiting writer holds readers back: while an operation is under way some thread can step |
| Throttles.AdmitsExactlyWhatFits | pkg/apis/schedule/v1alpha1/throttle_types.go:128-153 | on a reconciled status the four ordered checks admit exactly the pods for which one inequality holds, and both kinds of throttle admit the same pods |
| Throttles.ThresholdInForce | pkg/apis/schedule/v1alpha1/throttle_types.go:129-136 | both checks go by the spec's threshold while no threshold is dated, and by the calculated one from then on |
| Throttles.ChecksInOrder | pkg/apis/schedule/v1alpha1/throttle_types.go:128-153 | the verdict of both kinds on any status whatever: the pod alone, then the status's flags, then what is used and reserved, then all together |
| Throttles.LastCheckIsFits | pkg/apis/schedule/v1alpha1/throttle_types.go:147-150 | the last check alone, on partial maps and nil counts, is that inequality |
| Throttles.RefusalsAreClassified | pkg/apis/schedule/v1alpha1/throttle_types.go:134-150 | each kind of refusal is characterised by whether the pod fits alone and whether the load is below the threshold |
| Throttles.VerdictsDifferExactlyAtTheThreshold | pkg/apis/schedule/v1alpha1/clusterthrottle_types.go:30-55 | the exact condition under which Throttle says active and ClusterThrottle insufficient, the only way they differ |
| Throttles.VerdictsDiffer | pkg/apis/schedule/v1alpha1/clusterthrottle_types.go:44-47 | an instance: a threshold of one pod, and one pod reserved |
| Throttles.VerdictIsMonotone | pkg/apis/schedule/v1alpha1/throttle_types.go:128-153 | more used or reserved only moves the verdict from not-throttled over insufficient to active, and never from or to exceeds |
| Throttles.ClusterVerdictIsMonotone | pkg/apis/schedule/v1alpha1/clusterthrottle_types.go:30-55 | the same for ClusterThrottle |
| Throttles.ReconcileStatus | pkg/controllers/throttle_controller.go:116-133 | the status built step by step is the specified next status |
| Throttles.ReconcileLeavesReconciled | pkg/controllers/throttle_controller.go:116-133 | the flags of every reconciled status follow from its own threshold and usage, and only an empty threshold is undated |
| Throttles.ChangedStatusIsDatedNow | pkg/controllers/throttle_controller.go:122-132 | the written threshold and messages are today's; if they changed, the date is the reconcile's own time, and otherwise the old one |
| Throttles.ReconcileReachesFixpoint | pkg/controllers/throttle_controller.go:116-133 | on values: with the same pods and an equal calculated threshold, the status computed again is the very status that is there, date included |
| Fixpoints.ReconcileClusterThrottleTwice | pkg/controllers/clusterthrottle_controller.go:119-202 | a second reconcile with the same pods and an equal calculated threshold writes no status, cannot fail, and changes no reservation that the first, successful one left; after a failed first write it does the rest without writing |
| Fixpoints.ReconcileThrottleTwice | pkg/controllers/throttle_controller.go:116-199 | for Throttle the second reconcile writes no status and cannot fail either, and it changes no reservation if the first left no finished pod reserved |
| FailedWrites.RetryThrottle | pkg/controllers/throttle_controller.go:157-175 | after a refused write and any change of the pods, the retry, refused too, fails if and only if it cannot list the pods or computes another status than the refused one |
| FailedWrites.RetryClusterThrottle | pkg/controllers/clusterthrottle_controller.go:160-178 | the same for ClusterThrottle |
| FailedWrites.ThrottleStatusIsNeverWritten | pkg/controllers/throttle_controller.go:157-175 | an instance: a new throttle, one running pod, a refused write, and a retry that reports success |
| FailedWrites.ClusterThrottleStatusIsNeverWritten | pkg/controllers/clusterthrottle_controller.go:160-178 | the same for ClusterThrottle |
| Scans.DroppingAgainChangesNothing | pkg/controllers/throttle_controller.go:135-155 | with no running pod reserved, dropping again changes nothing in whatever order the pods are listed, if and only if no finished pod is still reserved |
| Scans.SecondDropMayDropMore | pkg/controllers/throttle_controller.go:227-246 | an instance in which the second of two reconciles drops what the first one missed |
| Throttles.CheckUsesTheCalculatedThreshold | pkg/apis/schedule/v1alpha1/throttle_types.go:129-132 | exactly when the check uses the threshold just calculated |
| Throttles.AnEmptyOverrideIsIgnoredAtFirst | pkg/apis/schedule/v1alpha1/throttle_types.go:129-132 | a spec for which it does not |
| Throttles.AdmitsMeansNoRefusal | pkg/scheduler_plugin/plugin.go:177-180 | the six lists are empty exactly when no affected throttle refuses |
| Overrides.CalculateThreshold | pkg/apis/schedule/v1alpha1/throttle_types.go:65-106 | the loop computes the declarative threshold, date and messages |
| Overrides.ThresholdByStamps | pkg/apis/schedule/v1alpha1/temporary_threshold_override.go:33-70 | the calculated threshold in terms of the begin and end stamps: the spec's when no override has begun and not ended, and otherwise each value is that of the first such override to define it |
| Overrides.MessagesByStamps | pkg/apis/schedule/v1alpha1/throttle_types.go:77-81 | a message for exactly the overrides with a garbled stamp, with the first garbled stamp's error |
| Overrides.MergeInto | pkg/apis/schedule/v1alpha1/throttle_types.go:86-93 | one active override fills in only what earlier ones left open, for every key order |
| Overrides.MergeIsFirstWins | pkg/apis/schedule/v1alpha1/throttle_types.go:84-94 | each resource has the value of the lowest-index active override that defines it, and no other resource occurs |
| Overrides.CountMergeIsFirstWins | pkg/apis/schedule/v1alpha1/throttle_types.go:86-88 | the same for the pod count |
| Overrides.MessagesAreTheUnparsableOverrides | pkg/apis/schedule/v1alpha1/throttle_types.go:77-81 | the messages name exactly the unparsable overrides, once each, in index order, with their own error |
| Overrides.DocumentedMergeHoldsOnlyIf | README.md:190-198 | the code agrees with the active overrides laid over the spec, as one reads the text, exactly when no override is active or the active ones redefine all the spec defines |
| Overrides.DocumentedExampleFails | README.md:190-198 | an instance in which it does not |
| Overrides.NextOverrideHappensIn | pkg/apis/schedule/v1alpha1/throttle_types.go:37-63 | the result is the shortest duration to an instant ahead, and nil exactly when none is ahead |
| Overrides.WakeUpIsExact | pkg/apis/schedule/v1alpha1/throttle_types.go:49-59 | that duration is the exact distance to the nearest instant when it is below 2^63 nanoseconds, and the longest duration when it is not |
| Overrides.AheadByStamps | pkg/apis/schedule/v1alpha1/throttle_types.go:44-60 | the instants ahead are the begins, and the ends of overrides with a readable begin, that lie after now |
| Overrides.TimerIsSound | pkg/apis/schedule/v1alpha1/temporary_threshold_override.go:57-70 | no override switches before the timer fires, if and only if no active override ends at this very instant or something else begins or ends right after |
| Overrides.ThresholdIsConstantUntilTheTimer | pkg/apis/schedule/v1alpha1/throttle_types.go:37-106 | until the timer fires, recalculating gives the same threshold and messages |
| Overrides.EndInstantIsMissed | pkg/apis/schedule/v1alpha1/throttle_types.go:57-59 | an instance in which the threshold changes with no wake-up to come |
| Overrides.WakeUpMakesProgress | pkg/controllers/throttle_controller.go:201-208 | a wake-up never adds to the instants ahead, and strictly shrinks them or comes later by the longest duration |
| Overrides.WakeUpShrinksExactlyWhen | pkg/apis/schedule/v1alpha1/throttle_types.go:49-59 | every wake-up at or after the timer strictly shrinks the instants ahead, if and only if one of them is within the longest duration |
| Overrides.DistantInstantTakesTwoWakeUps | pkg/apis/schedule/v1alpha1/throttle_types.go:49-51 | an override more than 292 years ahead for which the first wake-up shrinks nothing |
| Overrides.InstantsAreFew | pkg/apis/schedule/v1alpha1/throttle_types.go:44-60 | at most two instants per override |
| Overrides.ChainsAreShort | pkg/controllers/throttle_controller.go:201-208 | one chain of timed reconciles has at most two wake-ups per override, plus one per longest duration to the last instant |
| Overrides.PunctualChainsVisitEveryInstant | pkg/controllers/throttle_controller.go:201-208 | a punctual chain passes no begin or end instant without a wake-up at it |
| PodRequests.PodRequestResourceList | pkg/resourcelist/resourcelist.go:27-46 | the in-place loops compute the request in a fresh list, from the lists' values on entry |
| PodRequests.RequestFormula | pkg/resourcelist/resourcelist.go:27-46 | per resource the request is the larger of the containers' sum and the init containers' peak, plus overhead, over the union of keys |
| PodRequests.RequestIgnoresContainerOrder | pkg/resourcelist/resourcelist.go:28-42 | permuting containers or init containers does not change it |
| PodRequests.RequestIsMonotone | pkg/resourcelist/resourcelist.go:27-46 | raising or adding containers, init containers or overhead never lowers the request |
| ResourceLists.ResourceList.Add | pkg/resourcelist/resourcelist.go:48-54 | the receiver holds the sum, for every key order, also when the argument is the receiver |
| ResourceLists.ResourceList.Sub | pkg/resourcelist/resourcelist.go:56-62 | the receiver holds the difference over the union of keys |
| ResourceLists.ResourceList.GreaterOrEqual | pkg/resourcelist/resourcelist.go:64-74 | true exactly when every key of the argument is there and at least as large |
| ResourceLists.ResourceList.SetMax | pkg/resourcelist/resourcelist.go:76-84 | the receiver holds the pointwise maximum over the union of keys |
| ResourceLists.ResourceList.SetMin | pkg/resourcelist/resourcelist.go:86-98 | the receiver holds the pointwise minimum over the common keys |
| ResourceLists.ResourceList.EqualTo | pkg/resourcelist/resourcelist.go:100-111 | true exactly when both hold equal amounts, an absent key meaning zero |
| ResourceLists.JoinAndMeetAreTheBoundsOfGeq | pkg/resourcelist/resourcelist.go:64-98 | SetMax and SetMin are least upper and greatest lower bounds of the order GreaterOrEqual, and each determines it |
| ResourceLists.GeqIsPartialOrder | pkg/resourcelist/resourcelist.go:64-74 | that order is reflexive, transitive and antisymmetric |
| ResourceLists.JoinAndMeetAreCommutativeAndAbsorbing | pkg/resourcelist/resourcelist.go:76-98 | lattice laws: commutativity and absorption |
| ResourceLists.JoinIsAssociative | pkg/resourcelist/resourcelist.go:76-84 | lattice law |
| ResourceLists.MeetIsAssociative | pkg/resourcelist/resourcelist.go:86-98 | lattice law |
| ResourceLists.JoinDistributesOverMeet | pkg/resourcelist/resourcelist.go:76-98 | the lattice is distributive |
| ResourceLists.MeetDistributesOverJoin | pkg/resourcelist/resourcelist.go:76-98 | the lattice is distributive |
| ResourceLists.SameAmountsIsEquivalence | pkg/resourcelist/resourcelist.go:100-111 | EqualTo is an equivalence |
| ResourceLists.SameAmountsMeansEqualQuantities | pkg/resourcelist/resourcelist.go:100-111 | it compares the quantities of all resources there are |
| ResourceLists.SubUndoesAdd | pkg/resourcelist/resourcelist.go:48-62 | Add then Sub gives back the list up to EqualTo, and the very list exactly when no key was new |
| ResourceLists.PlusIsCommutativeMonoid | pkg/resourcelist/resourcelist.go:48-54 | sums do not depend on order or grouping |
| ResourceAmounts.Add | pkg/apis/schedule/v1alpha1/resource_amount.go:91-110 | the result is the sum in the receiver's own list, or in a fresh one when it had none, and nothing else is written |
| ResourceAmounts.Sub | pkg/apis/schedule/v1alpha1/resource_amount.go:112-125 | the same for the difference, with counts clamped at zero |
| ResourceAmounts.AlreadyUsed | pkg/apis/schedule/v1alpha1/throttle_types.go:142 | the check's in-place sums end in a list of their own: neither the status nor the reservation is written |
| ResourceAmounts.UsedWithPod | pkg/apis/schedule/v1alpha1/throttle_types.go:147 | the same with the pod's amount in between, which is not written either |
| ResourceAmounts.DiffUndoesSum | pkg/apis/schedule/v1alpha1/resource_amount.go:78-125 | Sub undoes Add, on the count exactly when the receiver had one or the argument had none |
| ResourceAmounts.AtOfDiff | pkg/apis/schedule/v1alpha1/resource_amount.go:83-125 | what a difference holds of each resource, and its count, which stops at zero and stays as it is when either is nil |
| ResourceAmounts.SumIsCommutativeMonoid | pkg/apis/schedule/v1alpha1/resource_amount.go:91-110 | sums of amounts with nil counts do not depend on order or grouping |
| ResourceAmounts.IsThrottled | pkg/apis/schedule/v1alpha1/resource_amount.go:127-159 | one flag per thresholded key, for every key order, unset when the amount lacks the key |
| ResourceAmounts.IsThrottledFor | pkg/apis/schedule/v1alpha1/resource_amount.go:46-65 | true exactly when the count flag or a flag of a resource requested in a non-zero amount is set |
| ResourceAmounts.TotalTakesOut | pkg/controllers/reserved_resource_amounts.go:148-156 | the total is the same for every order: any entry can be the last one added |
| ResourceAmounts.TotalCountsPods | pkg/controllers/reserved_resource_amounts.go:148-156 | the pod count of a total is the number of entries, and nil when there are none |
| ResourceAmounts.TotalIsCovered | pkg/apis/schedule/v1alpha1/throttle_types.go:142-147 | two maps that cover a third between them hold at least as much of every resource |
| Usage.SumUsage | pkg/controllers/throttle_controller.go:116-119 | the sum over a list without duplicates is the usage of its set of pods, whatever the order |
| Usage.UsageCountsPods | pkg/controllers/throttle_controller.go:116-119 | its pod count is the number of pods, and nil when there are none |
| Usage.UsedAndReservedCountEachPodOnce | pkg/controllers/clusterthrottle_controller.go:136-158 | when none of the summed pods is still reserved, used plus reserved is the total over all of them, each once |
| ReservedAmounts.PodAmounts.Add | pkg/controllers/reserved_resource_amounts.go:131-136 | the pod's entry is its amount, every other entry stays, and the answer says whether it was new |
| ReservedAmounts.PodAmounts.Remove | pkg/controllers/reserved_resource_amounts.go:138-146 | the pod's entry is gone, every other stays, and the answer says whether it was there |
| ReservedAmounts.PodAmounts.TotalResourceAmount | pkg/controllers/reserved_resource_amounts.go:148-156 | the total in a list of its own for every iteration order; no entry of the cache is written |
| ReservedAmounts.ReservedResourceAmounts.GetPodAmounts | pkg/controllers/reserved_resource_amounts.go:50-64 | the key's inner map, made when missing and never replaced |
| ReservedAmounts.ReservedResourceAmounts.AddPod | pkg/controllers/reserved_resource_amounts.go:66-77 | exactly this pod's reservation on this throttle changes |
| ReservedAmounts.ReservedResourceAmounts.RemovePod | pkg/controllers/reserved_resource_amounts.go:79-90 | exactly this pod's reservation on this throttle goes |
| ReservedAmounts.ReservedResourceAmounts.MoveThrottleAssignmentForPods | pkg/controllers/reserved_resource_amounts.go:92-111 | the pod is un-reserved on every throttle left and reserved with its new amount on every one joined, in any order, and no other entry changes |
| ReservedAmounts.ReservedResourceAmounts.ReservedResourceAmount | pkg/controllers/reserved_resource_amounts.go:113-126 | the total and the names of the pods reserved on the key, none when it has no map |
| Selectors.ThrottleSelectorIsAnOr | pkg/apis/schedule/v1alpha1/throttle_selector.go:30-54 | exactly when a selector matches, rejects and fails, in terms of its terms |
| Selectors.ClusterSelectorIsAnOr | pkg/apis/schedule/v1alpha1/clusterthrottle_selector.go:44-87 | the same over the terms whose namespace selector holds |
| Selectors.NamespacePrefilterLosesNothing | pkg/controllers/clusterthrottle_controller.go:232-247 | a namespace that the prefilter drops holds no matching pod and no failing one |
| Selectors.LookupsAreConverses | pkg/controllers/clusterthrottle_controller.go:224-298 | a pod to be counted is found from a throttle exactly as the throttle is found from the pod, errors included |
| InTermsOfFields.MatchingByFields | pkg/controllers/throttle_controller.go:248-269 | the throttles a pod is up against are those of this throttler, in its namespace, that select it; the lookup fails if and only if one of them has a malformed term before any that selects it |
| InTermsOfFields.ClusterMatchingByFields | pkg/controllers/clusterthrottle_controller.go:272-298 | the same for cluster throttles, whose terms look at the pod's namespace too |
| InTermsOfFields.ReconcileThrottle | pkg/controllers/throttle_controller.go:84-246 | after a reconcile the usage is the total of exactly the listed pods of the namespace with the right scheduler, on a node, selected, and neither succeeded nor failed; on success none of them is still reserved, and the next override instant has its wake-up |
| InTermsOfFields.ReconcileClusterThrottle | pkg/controllers/clusterthrottle_controller.go:87-270 | the same for ClusterThrottle, where ended pods are not reserved any more either |
| ClusterThrottleControllers.ClusterThrottleController.AffectedPods | pkg/controllers/clusterthrottle_controller.go:224-270 | every listed pod to be counted, each exactly once, split by whether it finished; an error exactly when the selector fails on one |
| ClusterThrottleControllers.ClusterThrottleController.AffectedClusterThrottles | pkg/controllers/clusterthrottle_controller.go:272-298 | exactly the responsible throttles that match; an error exactly when the namespace is unknown or a selector fails |
| ClusterThrottleControllers.ClusterThrottleController.CheckThrottled | pkg/controllers/clusterthrottle_controller.go:378-425 | every affected throttle is listed under its own verdict and no other |
| ClusterThrottleControllers.ClusterThrottleController.Reserve | pkg/controllers/clusterthrottle_controller.go:300-337 | the pod is reserved on exactly the matching throttles, or nowhere on an error |
| ClusterThrottleControllers.ClusterThrottleController.UnReserve | pkg/controllers/clusterthrottle_controller.go:339-376 | and un-reserved likewise |
| ClusterThrottleControllers.ClusterThrottleController.Reconcile | pkg/controllers/clusterthrottle_controller.go:87-214 | status, reservations, failure and timer after one undisturbed reconcile: on success no pod that counts, running or finished, is still reserved; on a failed write none is dropped |
| ClusterThrottleControllers.ClusterThrottleController.ReconcileCountsEachPodOnce | pkg/controllers/clusterthrottle_controller.go:136-202 | after a successful reconcile the status's usage plus the reserved total is the total over the reserved pods and the pods in use, each counted once |
| Slices.Append | pkg/controllers/throttle_controller.go:239-241 | what append returns, and what a slice over the same array sees of it |
| Scans.Split | pkg/controllers/throttle_controller.go:227-246 | the two slices hold what a scan of the pods gives, for every way the runtime may grow the running slice |
| Scans.TerminatedIs | pkg/controllers/throttle_controller.go:241 | the terminated list is the running pods before the last finished one, and then that pod, or the running pod that overwrote it |
| Scans.CompleteExactlyWhen | pkg/controllers/throttle_controller.go:227-246 | every finished pod is in the list if and only if there is none, or just one, which either no running pod follows or which found the running slice full |
| Scans.AlwaysCompleteExactlyWhen | pkg/controllers/throttle_controller.go:227-246 | whatever the growth, the list is complete if and only if no pod has finished, or just one, listed first or last |
| Scans.FinishedPodIsLost | pkg/controllers/throttle_controller.go:241 | an instance in which the only finished pod is overwritten, with the doubling growth that slices have in practice |
| Scans.DroppedExactly | pkg/controllers/throttle_controller.go:135-155 | exactly the sets of pods that one reconcile may un-reserve, over all lister orders and growths |
| ThrottleControllers.SymmetricDifference | pkg/controllers/throttle_controller.go:469-496 | the map loops compute the union and the two differences |
| ThrottleControllers.ThrottleController.AffectedPods | pkg/controllers/throttle_controller.go:221-246 | the two lists are the scan of the pods to be counted, each once, in some order; an error exactly when the selector fails on one of them |
| ThrottleControllers.ThrottleController.AffectedThrottles | pkg/controllers/throttle_controller.go:248-269 | exactly the responsible throttles of the namespace that match; an error exactly when a selector fails |
| ThrottleControllers.ThrottleController.CheckThrottled | pkg/controllers/throttle_controller.go:349-397 | every affected throttle is listed under its own verdict and no other |
| ThrottleControllers.ThrottleController.Reserve | pkg/controllers/throttle_controller.go:271-308 | the pod is reserved on exactly the matching throttles, or nowhere on an error |
| ThrottleControllers.ThrottleController.UnReserve | pkg/controllers/throttle_controller.go:310-347 | and un-reserved likewise |
| ThrottleControllers.ThrottleController.OnPodAdd | pkg/controllers/throttle_controller.go:432-449 | exactly the matching throttles are enqueued, if the pod counts |
| ThrottleControllers.ThrottleController.OnPodUpdate | pkg/controllers/throttle_controller.go:450-507 | after a relabel the pod is reserved no more on exactly old without new, reserved with its new amount on exactly new without old, untouched elsewhere, and exactly old and new are enqueued |
| ThrottleControllers.ThrottleController.OnPodDelete | pkg/controllers/throttle_controller.go:508-532 | the pod loses its reservation on every matching throttle, and these are enqueued |
| ThrottleControllers.ThrottleController.Reconcile | pkg/controllers/throttle_controller.go:84-211 | status, reservations, failure and timer after one undisturbed reconcile: what is dropped is one of the possible scans of the pods that count, and nothing on a failed write |
| ThrottleControllers.ThrottleController.ProcessNextWorkItem | pkg/controllers/controller.go:89-122 | one due key is taken and reconciled, and a failed one waits to be retried |
| Plugin.KubeThrottler.PreFilter | pkg/scheduler_plugin/plugin.go:148-215 | success exactly when every throttle and cluster throttle that matches gives way, which on reconciled statuses is when used, reserved and the pod together exceed no threshold in force, reaching it being allowed; an error exactly when a lookup fails, and otherwise reasons in order of severity that name exactly the refusing throttles under their verdicts |
| Plugin.ReasonsExplain | pkg/scheduler_plugin/plugin.go:182-214 | no refusal is unnamed, none is invented, no reason is empty |
| Plugin.KubeThrottler.Reserve | pkg/scheduler_plugin/plugin.go:217-238 | both controllers are asked though the first fails; each reserves on exactly what matches |
| Plugin.KubeThrottler.Unreserve | pkg/scheduler_plugin/plugin.go:240-257 | and un-reserves likewise |
| Plugin.KubeThrottler.ReserveThenUnreserve | pkg/scheduler_plugin/plugin.go:217-257 | the two calls in a row leave every reservation of both controllers as it was, if and only if the pod held none on the throttles it matches |

## Left out

- The Kubernetes client, informers, listers and generated code: listers are maps, and a status write may fail.
- Metrics, logging, event recording, argument decoding, command line and manifests: no property of the algorithm depends on them.
- Rate limiting and back-off of the work queue: a failed key is put in a set of keys to be retried, and may fire at any time.
- The arithmetic of `resource.Quantity`: quantities are integers. Parsing of RFC 3339 timestamps and evaluation of label selectors: each is its outcome.
- The textual form of reasons and messages: a message is an index and an error, a reason a kind, a verdict and names.
- Parsing of work queue keys in the controllers: a key is a name there; `OverlappingReconciles.TwoKeysOneObject` is about the strings.
- Pod and throttle event handlers of ClusterThrottle: they do what Throttle's do, except for the key they enqueue.
- The whole interleaved protocol for ClusterThrottle: its reconciles of one object are not kept apart, as said above, and `OverlappingReconciles` models the part of it that goes wrong.
- Throttles created or deleted, and selectors or namespaces edited, during a run of the step machine: the code does not look again at running pods.
- Status reads that see half of a write: a read or a write of a status is one step.
- Amounts in the controllers are values; that their in-place sums write nothing shared is stated on references, by `ResourceAmounts.AlreadyUsed`, `ResourceAmounts.UsedWithPod` and `ReservedAmounts.PodAmounts.TotalResourceAmount`.
- The slices of ClusterThrottle's lookup: it appends to each list only on itself, so they are values.
- ThrottleControllers.ThrottleController.Reconcile: does not promise that every finished pod is dropped, because the code does not; `Scans.DroppedExactly` says what it may drop instead.
- Pods in the controllers carry their request as a value; module PodRequests computes it from the containers.
