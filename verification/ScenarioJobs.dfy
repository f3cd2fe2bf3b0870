/** What one pass does to a single job, and to the job list as a whole. */
module ScenarioJobs {
  import opened Common
  import opened Backoff
  import opened ScenarioModel

  ghost predicate NoRetrying(jobs: seq<Job>) {
    forall i :: 0 <= i < |jobs| ==> jobs[i].phase != Retrying
  }

  // ---------------------------------------------------------------------------------------
  // A check is local: job `i` after the check depends on job `i` alone

  ghost function NextAfterFailure(spec: Spec, job: Job, check: JobCheck): Job {
    if ShouldRetry(job, job.maxRetries) then
      if Waiting(spec, job, check.now) then job
      else
        var retried := Retried(job, check.now);
        if job.provider == "" then
          Completed(retried.(phase := Failed, message := NoProviderMessage, failureReason := InvalidJobState),
              check.now)
        else if job.cluster == "" then
          Completed(retried.(phase := Failed, message := NoClusterMessage, failureReason := InvalidJobState), check.now)
        else if check.retry.CreateFailed? then RetryFailed(retried, check.retry.error, check.now)
        else Restarted(retried, check.retry)
    else if job.cancelRequested then job.(phase := Cancelled)
    else job.(phase := MaxRetriesExceeded)
  }

  ghost function NextJob(spec: Spec, job: Job, check: JobCheck): Job {
    if Skipped(job) then job
    else match check.pod
      case NotFound => Missing(job, check.now)
      case LookupError => job
      case Found(phase, _, _, _) =>
        var seen := Backfilled(job, check.pod);
        match phase
        case PodPending => seen.(phase := Pending)
        case PodRunning => seen.(phase := Running)
        case PodSucceeded => Completed(seen.(phase := Succeeded), check.now)
        case PodFailed => NextAfterFailure(spec, FailedPod(spec, seen, check.pod, check.now), check)
        case PodUnknown =>
          Completed(seen.(phase := Failed, message := PodUnknownMessage, failureReason := PodUnknownReason), check.now)
        case PodOther => seen
  }

  lemma FailureInPlace(spec: Spec, jobs: seq<Job>, i: nat, check: JobCheck)
    requires i < |jobs| && NoRetrying(jobs)
    ensures AfterFailure(spec, jobs, i, check) == jobs[i := NextAfterFailure(spec, jobs[i], check)]
  {
    var job := jobs[i];
    if ShouldRetry(job, job.maxRetries) && !Waiting(spec, job, check.now) && check.retry.Created? {
      var marked := jobs[i := Retried(job, check.now)];
      assert marked[i].phase == Retrying;
      assert RetryIndex(marked, job.cluster) == Some(i);
    }
  }

  /** A retry rewrites its own entry and nothing else; in particular it never appends. */
  lemma CheckInPlace(spec: Spec, jobs: seq<Job>, i: nat, check: JobCheck)
    requires i < |jobs| && NoRetrying(jobs)
    ensures CheckJob(spec, jobs, i, check) == jobs[i := NextJob(spec, jobs[i], check)]
    ensures NextJob(spec, jobs[i], check).phase != Retrying
  {
    var job := jobs[i];
    if !Skipped(job) && check.pod.Found? && check.pod.phase == PodFailed {
      var seen := FailedPod(spec, Backfilled(job, check.pod), check.pod, check.now);
      FailureInPlace(spec, jobs[i := seen], i, check);
    }
  }

  ghost function Nexts(spec: Spec, jobs: seq<Job>, checks: seq<JobCheck>): seq<Job> {
    seq(|jobs|, k requires 0 <= k < |jobs| => NextJob(spec, jobs[k], CheckAt(checks, k)))
  }

  lemma NextCheck(spec: Spec, jobs: seq<Job>, checks: seq<JobCheck>, n: nat)
    requires n < |jobs| && NoRetrying(CheckJobs(spec, jobs, checks, n))
    requires CheckJobs(spec, jobs, checks, n)[n] == jobs[n]
    ensures CheckJobs(spec, jobs, checks, n + 1) == CheckJobs(spec, jobs, checks, n)[n := Nexts(spec, jobs, checks)[n]]
    ensures Nexts(spec, jobs, checks)[n].phase != Retrying
  {
    CheckInPlace(spec, CheckJobs(spec, jobs, checks, n), n, CheckAt(checks, n));
  }

  lemma {:induction false} ChecksInOrder(spec: Spec, jobs: seq<Job>, checks: seq<JobCheck>, n: nat)
    requires n <= |jobs| && NoRetrying(jobs)
    ensures NoRetrying(CheckJobs(spec, jobs, checks, n))
    ensures CheckJobs(spec, jobs, checks, n) == Nexts(spec, jobs, checks)[..n] + jobs[n..]
  {
    if n > 0 {
      var nexts := Nexts(spec, jobs, checks);
      ChecksInOrder(spec, jobs, checks, n - 1);
      NotYetChecked(nexts, jobs, n - 1);
      NextCheck(spec, jobs, checks, n - 1);
      OneMoreChecked(CheckJobs(spec, jobs, checks, n - 1), CheckJobs(spec, jobs, checks, n), nexts, jobs, n - 1);
    }
  }

  lemma NotYetChecked(nexts: seq<Job>, jobs: seq<Job>, n: nat)
    requires n < |jobs| == |nexts|
    ensures (nexts[..n] + jobs[n..])[n] == jobs[n]
  {
  }

  lemma OneMoreChecked(before: seq<Job>, after: seq<Job>, nexts: seq<Job>, jobs: seq<Job>, n: nat)
    requires n < |jobs| == |nexts| && before == nexts[..n] + jobs[n..] && after == before[n := nexts[n]]
    requires NoRetrying(before) && nexts[n].phase != Retrying
    ensures after == nexts[..n + 1] + jobs[n + 1..] && NoRetrying(after)
  {
  }

  lemma ChecksPointwise(spec: Spec, jobs: seq<Job>, checks: seq<JobCheck>, n: nat)
    requires n <= |jobs| && NoRetrying(jobs)
    ensures var after := CheckJobs(spec, jobs, checks, n);
            && |after| == |jobs| && NoRetrying(after)
            && (forall k :: 0 <= k < n ==> after[k] == NextJob(spec, jobs[k], CheckAt(checks, k)))
            && (forall k :: n <= k < |jobs| ==> after[k] == jobs[k])
  {
    ChecksInOrder(spec, jobs, checks, n);
  }

  // ---------------------------------------------------------------------------------------
  // One job over time

  /** What holds of every stored job. */
  ghost predicate JobOk(job: Job) {
    && job.phase != Retrying
    && 0 <= job.retryCount
    && (job.retryCount > 0 ==> job.retryCount <= job.maxRetries)
    && (job.retryCount > 0 <==> job.lastRetryTime.Some?)
  }

  ghost predicate SameAttempt(a: Job, b: Job) {
    a.jobId == b.jobId && a.podName == b.podName && a.retryCount == b.retryCount && a.lastRetryTime == b.lastRetryTime
  }

  /** What one step may do to a stored job. */
  ghost predicate JobStep(a: Job, b: Job) {
    && b.cluster == a.cluster && b.provider == a.provider
    && (a.cancelRequested ==> b.cancelRequested && SameAttempt(a, b))
    && (Closed(a.phase) ==> b == a || b == a.(cancelRequested := true))
    && (a.maxRetries != 0 ==> b.maxRetries == a.maxRetries)
    && (SameAttempt(a, b) || (b.retryCount == a.retryCount + 1 && b.lastRetryTime.Some?))
  }

  /** A further retry does not come before the backoff delay since the last one has passed. */
  ghost predicate Spaced(spec: Spec, a: Job, b: Job) {
    b.retryCount == a.retryCount + 1 && a.lastRetryTime.Some? && b.lastRetryTime.Some? ==>
      b.lastRetryTime.value - a.lastRetryTime.value >= spec.delayAfter(a.retryCount)
  }

  lemma FailureStep(spec: Spec, job: Job, pod: PodLookup, check: JobCheck)
    requires JobOk(job) && pod.Found? && !Closed(job.phase)
    ensures var next := NextAfterFailure(spec, FailedPod(spec, job, pod, check.now), check);
            JobOk(next) && JobStep(job, next) && Spaced(spec, job, next)
  {
    var failed := FailedPod(spec, job, pod, check.now);
    if ShouldRetry(failed, failed.maxRetries) && !Waiting(spec, failed, check.now) {
      RetryStep(spec, job, failed, check);
    } else {
      var next := NextAfterFailure(spec, failed, check);
      assert SameAttempt(job, next) && next.maxRetries == failed.maxRetries;
    }
  }

  /** A retry, whether or not its pod can be created, counts once and keeps its distance. */
  lemma RetryStep(spec: Spec, job: Job, failed: Job, check: JobCheck)
    requires JobOk(job) && !Closed(job.phase) && failed.phase == Failed && failed.maxRetries != 0
    requires SameAttempt(job, failed) && failed.cluster == job.cluster && failed.provider == job.provider
    requires failed.cancelRequested == job.cancelRequested && (job.maxRetries != 0 ==>
        failed.maxRetries == job.maxRetries)
    requires ShouldRetry(failed, failed.maxRetries) && !Waiting(spec, failed, check.now)
    ensures var next := NextAfterFailure(spec, failed, check);
            JobOk(next) && JobStep(job, next) && Spaced(spec, job, next)
  {
    var next := NextAfterFailure(spec, failed, check);
    assert next.retryCount == job.retryCount + 1 && next.lastRetryTime == Some(check.now)
        && next.maxRetries == failed.maxRetries;
  }

  lemma SameAttemptStep(spec: Spec, job: Job, next: Job)
    requires JobOk(job) && SameAttempt(job, next) && next.phase != Retrying && !Closed(job.phase)
    requires next.cluster == job.cluster && next.provider == job.provider
    requires next.cancelRequested == job.cancelRequested && next.maxRetries == job.maxRetries
    ensures JobOk(next) && JobStep(job, next) && Spaced(spec, job, next)
  {
  }

  lemma NextJobStep(spec: Spec, job: Job, check: JobCheck)
    requires JobOk(job)
    ensures var next := NextJob(spec, job, check); JobOk(next) && JobStep(job, next) && Spaced(spec, job, next)
  {
    if Skipped(job) {
      assert JobStep(job, job) && Spaced(spec, job, job);
    } else if check.pod.Found? && check.pod.phase == PodFailed {
      FailureStep(spec, Backfilled(job, check.pod), check.pod, check);
    } else {
      OtherPodStep(spec, job, check);
    }
  }

  lemma OtherPodStep(spec: Spec, job: Job, check: JobCheck)
    requires JobOk(job) && !Skipped(job) && !(check.pod.Found? && check.pod.phase == PodFailed)
    ensures var next := NextJob(spec, job, check); JobOk(next) && JobStep(job, next) && Spaced(spec, job, next)
  {
    match check.pod
    case NotFound => SameAttemptStep(spec, job, Missing(job, check.now));
    case LookupError => SameAttemptStep(spec, job, job);
    case Found(phase, _, _, _) =>
      var seen := Backfilled(job, check.pod);
      assert SameAttempt(job, seen);
      match phase
      case PodPending => SameAttemptStep(spec, job, seen.(phase := Pending));
      case PodRunning => SameAttemptStep(spec, job, seen.(phase := Running));
      case PodSucceeded => SameAttemptStep(spec, job, Completed(seen.(phase := Succeeded), check.now));
      case PodUnknown =>
        SameAttemptStep(spec, job,
          Completed(seen.(phase := Failed, message := PodUnknownMessage, failureReason := PodUnknownReason),
              check.now));
      case PodOther => SameAttemptStep(spec, job, seen);
  }

  // ---------------------------------------------------------------------------------------
  // The creation loop

  ghost predicate DistinctClusters(jobs: seq<Job>) {
    forall i, j :: 0 <= i < j < |jobs| ==> jobs[i].cluster != jobs[j].cluster
  }

  lemma {:induction false} JobExistsIsHasJob(jobs: seq<Job>, cluster: string)
    requires NoRetrying(jobs)
    ensures JobExists(jobs, cluster) <==> HasJob(jobs, cluster)
  {
    if jobs != [] {
      JobExistsIsHasJob(jobs[1..], cluster);
      if HasJob(jobs[1..], cluster) {
        var i :| 0 <= i < |jobs[1..]| && jobs[1..][i].cluster == cluster;
        assert jobs[i + 1].cluster == cluster;
      }
    }
  }

  ghost predicate FreshJob(job: Job) {
    JobOk(job) && job.phase == Pending && job.retryCount == 0
  }

  /** The loop only appends: fresh jobs of target clusters that had none. */
  ghost predicate Appends(jobs: seq<Job>, after: seq<Job>, targets: seq<Target>) {
    && jobs <= after
    && NoRetrying(after)
    && (DistinctClusters(jobs) ==> DistinctClusters(after))
    && forall k :: |jobs| <= k < |after| ==>
         FreshJob(after[k]) && exists t :: 0 <= t < |targets| && after[k].cluster == targets[t].cluster
  }

  lemma {:induction false} CreationAppends(jobs: seq<Job>, targets: seq<Target>, creates: seq<CreateResult>)
    requires NoRetrying(jobs)
    ensures Appends(jobs, CreateMissing(jobs, targets, creates), targets)
  {
    if targets != [] {
      var n := |targets| - 1;
      var before := CreateMissing(jobs, targets[..n], creates);
      CreationAppends(jobs, targets[..n], creates);
      var after := CreateMissing(jobs, targets, creates);
      JobExistsIsHasJob(before, targets[n].cluster);
      assert RetryIndex(before, targets[n].cluster).None?;
      forall k | |jobs| <= k < |after|
        ensures FreshJob(after[k]) && exists t :: 0 <= t < |targets| && after[k].cluster == targets[t].cluster
      {
        if k < |before| {
          var t :| 0 <= t < n && after[k].cluster == targets[..n][t].cluster;
          assert after[k].cluster == targets[t].cluster;
        }
      }
    }
  }

  /** When every target cluster has a job the creation loop does nothing. */
  lemma {:induction false} NothingToCreate(jobs: seq<Job>, targets: seq<Target>, creates: seq<CreateResult>)
    requires NoRetrying(jobs) && forall t :: 0 <= t < |targets| ==> HasJob(jobs, targets[t].cluster)
    ensures CreateMissing(jobs, targets, creates) == jobs
  {
    if targets != [] {
      NothingToCreate(jobs, targets[..|targets| - 1], creates);
      JobExistsIsHasJob(jobs, targets[|targets| - 1].cluster);
    }
  }
}
