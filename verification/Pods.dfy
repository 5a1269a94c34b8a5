/** Pods and the predicates on them (pkg/controllers/pod_util.go, throttle_controller.go:213-219). */
module PodModel {
  import opened Names
  import opened ResourceLists

  type Labels = map<string, string>

  datatype PodPhase = PhasePending | PhaseRunning | PhaseSucceeded | PhaseFailed | PhaseUnknown

  /** `request` is the pod's request as module PodRequests computes it. */
  datatype Pod = Pod(
    name: Name, labels: Labels, schedulerName: string, nodeName: string, phase: PodPhase, request: Quantities)

  predicate IsScheduled(pod: Pod) {
    pod.nodeName != ""
  }

  predicate IsNotFinished(pod: Pod) {
    !pod.phase.PhaseSucceeded? && !pod.phase.PhaseFailed?
  }

  predicate ShouldCountIn(targetSchedulerName: string, pod: Pod) {
    pod.schedulerName == targetSchedulerName && IsScheduled(pod)
  }
}
