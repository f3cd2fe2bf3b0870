/** Exactly when a pass that has created pods fails to record them. */
module ScenarioRecording {
  import opened Common
  import opened ScenarioModel
  import opened ScenarioJobs
  import opened ScenarioHistory
  import opened ScenarioFinality

  /**
   Nothing new about the job, in terms of what is recorded, the pod's answer and the clock: it is
   skipped, or its pod is unreadable, missing within the grace period or already recorded missing at
   that very time, in the recorded phase, or already recorded failed with a retry still waiting.
   */
  predicate Unseen(spec: Spec, job: Job, check: JobCheck) {
    Skipped(job) ||
    match check.pod
    case LookupError => true
    case NotFound =>
      || (job.phase == Pending && job.startTime.Some? && check.now - job.startTime.value < POD_GRACE)
      || (job.phase == Failed && job.message == PodNotFoundMessage && job.failureReason == PodNotFoundReason
          && job.completionTime == Some(check.now))
    case Found(phase, _, text, reason) =>
      match phase
      case PodPending => job.phase == Pending
      case PodRunning => job.phase == Running
      case PodSucceeded => false
      case PodFailed =>
        && job.phase == Failed && job.message == Text(text) && job.failureReason == PodReason(reason)
        && job.completionTime.Some? && job.maxRetries != 0
        && ShouldRetry(job, job.maxRetries) && Waiting(spec, job, check.now)
      case PodUnknown =>
        && job.phase == Failed && job.message == PodUnknownMessage && job.failureReason == PodUnknownReason
        && job.completionTime.Some?
      case PodOther => true
  }

  ghost predicate AllUnseen(spec: Spec, jobs: seq<Job>, checks: seq<JobCheck>) {
    forall k :: 0 <= k < |jobs| ==> Unseen(spec, jobs[k], CheckAt(checks, k))
  }

  /** A check leaves everything that is compared as it was exactly when there is nothing new about the job. */
  lemma UnseenIff(spec: Spec, job: Job, check: JobCheck)
    requires JobOk(job)
    ensures SameJob(job, NextJob(spec, job, check)) <==> Unseen(spec, job, check)
  {
    if !Skipped(job) && check.pod.Found? && check.pod.phase == PodFailed {
      UnseenFailureIff(spec, job, check);
    }
  }

  lemma UnseenFailureIff(spec: Spec, job: Job, check: JobCheck)
    requires JobOk(job) && !Skipped(job) && check.pod.Found? && check.pod.phase == PodFailed
    ensures SameJob(job, NextJob(spec, job, check)) <==> Unseen(spec, job, check)
  {
    var failed := FailedPod(spec, Backfilled(job, check.pod), check.pod, check.now);
    var waits := ShouldRetry(failed, failed.maxRetries) && Waiting(spec, failed, check.now);
    assert failed.maxRetries != 0 && (failed.maxRetries == job.maxRetries <==> job.maxRetries != 0);
    assert NextJob(spec, job, check) == NextAfterFailure(spec, failed, check);
    if !waits {
      assert !SameJob(job, NextAfterFailure(spec, failed, check));
    }
  }

  lemma {:induction false} PendingUncounted(p: JobPhase -> bool, jobs: seq<Job>, after: seq<Job>)
    requires !p(Pending) && jobs <= after && forall k :: |jobs| <= k < |after| ==> after[k].phase == Pending
    ensures CountJobs(p, after) == CountJobs(p, jobs)
    decreases |after|
  {
    if |after| > |jobs| {
      PendingUncounted(p, jobs, after[..|after| - 1]);
    } else {
      assert after == jobs;
    }
  }

  /** Newly created jobs are in no counter. */
  lemma CreatedUncounted(jobs: seq<Job>, after: seq<Job>)
    requires jobs <= after && forall k :: |jobs| <= k < |after| ==> after[k].phase == Pending
    ensures SuccessCount(after) == SuccessCount(jobs) && FailureCount(after) == FailureCount(jobs)
    ensures RunningCount(after) == RunningCount(jobs)
  {
    PendingUncounted(p => p == Succeeded, jobs, after);
    PendingUncounted(p => IsFailure(p), jobs, after);
    PendingUncounted(p => p == Running || p == Retrying, jobs, after);
  }

  lemma SameJobsSameSummary(a: Status, b: Status)
    requires |a.jobs| == |b.jobs| && forall k :: 0 <= k < |a.jobs| ==> SameJob(a.jobs[k], b.jobs[k])
    ensures SuccessCount(a.jobs) == SuccessCount(b.jobs) && FailureCount(a.jobs) == FailureCount(b.jobs)
    ensures RunningCount(a.jobs) == RunningCount(b.jobs)
  {
    SamePhasesSameSummary(a, b);
  }

  /** Snapshot and result agree exactly when the checks change nothing and the run counts as running already. */
  lemma CreatedSameStatusIff(s: Status, snapshot: Status, after: Status)
    requires Consistent(s) && snapshot == s.(jobs := snapshot.jobs) && after == Summarized(s.(jobs := after.jobs))
    requires s.jobs < snapshot.jobs && |after.jobs| == |snapshot.jobs|
    requires forall k :: |s.jobs| <= k < |snapshot.jobs| ==> snapshot.jobs[k].phase == Pending
    ensures SameStatus(snapshot, after) <==>
              s.phase == OverallRunning && forall k :: 0 <= k < |after.jobs| ==>
                  SameJob(snapshot.jobs[k], after.jobs[k])
  {
    if forall k :: 0 <= k < |after.jobs| ==> SameJob(snapshot.jobs[k], after.jobs[k]) {
      CreatedUncounted(s.jobs, snapshot.jobs);
      SameJobsSameSummary(snapshot, after);
      OverallMeaning(after.jobs);
      assert SameJob(snapshot.jobs[|s.jobs|], after.jobs[|s.jobs|]);
      assert Active(after.jobs[|s.jobs|].phase);
    }
  }

  /**
   A pass that has created pods records them unless the run already counts as running and there is
   nothing new about any job: the result is compared with a snapshot taken after the creation loop.
   */
  lemma CreatedUnrecordedIff(spec: Spec, s: Status, world: World)
    requires StatusOk(spec, s) && s.phase != OverallUnset
    requires |Snapshot(s, world).jobs| > |s.jobs|
    ensures !PassWrites(spec, s, world, Passed(spec, s, world)) <==>
              s.phase == OverallRunning && AllUnseen(spec, Snapshot(s, world).jobs, world.checks)
  {
    var snapshot, after := Snapshot(s, world), Passed(spec, s, world);
    PassedJobs(spec, s, world);
    CreatedSameStatusIff(s, snapshot, after);
    assert forall k :: 0 <= k < |s.jobs| ==> snapshot.jobs[k] == s.jobs[k];
    AllUnseenIff(spec, snapshot.jobs, world.checks, after.jobs);
  }

  lemma AllUnseenIff(spec: Spec, jobs: seq<Job>, checks: seq<JobCheck>, after: seq<Job>)
    requires |after| == |jobs| && forall k :: 0 <= k < |jobs| ==> JobOk(jobs[k])
    requires forall k :: 0 <= k < |jobs| ==> after[k] == NextJob(spec, jobs[k], CheckAt(checks, k))
    ensures AllUnseen(spec, jobs, checks) <==> forall k :: 0 <= k < |jobs| ==> SameJob(jobs[k], after[k])
  {
    forall k | 0 <= k < |jobs| ensures SameJob(jobs[k], after[k]) <==> Unseen(spec, jobs[k], CheckAt(checks, k)) {
      UnseenIff(spec, jobs[k], CheckAt(checks, k));
    }
  }

  /** It happens: while other jobs run, a target's pod can be created and forgotten. */
  lemma CreatedAndForgotten(spec: Spec, s: Status, cluster: string) returns (world: World)
    requires StatusOk(spec, s) && s.phase == OverallRunning && IsTarget(spec, cluster) && !HasJob(s.jobs, cluster)
    ensures IsFlattening(spec, world.targets) && HasJob(Snapshot(s, world).jobs, cluster)
    ensures !PassWrites(spec, s, world, Passed(spec, s, world))
  {
    var targets := AnyFlattening(spec);
    world := World(targets, CreatesFor(targets, cluster), []);
    FlatteningTargets(spec, targets, cluster);
    OneJobCreated(s.jobs, targets, world.creates, cluster);
    var jobs := Snapshot(s, world).jobs;
    assert jobs[|s.jobs|].cluster == cluster;
    CreatedUnrecordedIff(spec, s, world);
  }
}
