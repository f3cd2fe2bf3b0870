/**
 The scenario-run controller and the cancel handler in their own form: the job list of a status
 is rewritten in place. Each method is proved against the functions of `ScenarioModel`.
 */
module ScenarioReconciler {
  import opened Common
  import opened Backoff
  import opened ScenarioModel

  function Block(targets: map<string, seq<string>>, provider: string): seq<Target>
    requires provider in targets
  {
    seq(|targets[provider]|, i requires 0 <= i < |targets[provider]| => Target(provider, targets[provider][i]))
  }

  /** The creation loop's next turn. */
  lemma CreateMissingNext(jobs: seq<Job>, targets: seq<Target>, k: nat, creates: seq<CreateResult>)
    requires k < |targets|
    ensures CreateMissing(jobs, targets[..k + 1], creates) ==
      var before := CreateMissing(jobs, targets[..k], creates);
      if JobExists(before, targets[k].cluster) then before
      else AfterCreate(before, targets[k].provider, targets[k].cluster, AnswerAt(creates, k))
  {
    assert targets[..k + 1][..k] == targets[..k];
  }

  lemma {:induction false} FlattenAppend(targets: map<string, seq<string>>, order: seq<string>, provider: string)
    requires provider in targets && forall p :: p in order ==> p in targets
    ensures Flatten(targets, order + [provider]) == Flatten(targets, order) + Block(targets, provider)
  {
    if order == [] {
      assert [provider][1..] == [];
    } else {
      assert (order + [provider])[1..] == order[1..] + [provider];
      FlattenAppend(targets, order[1..], provider);
    }
  }

  class ScenarioRun {
    const spec: Spec
    var status: Status

    constructor (spec: Spec, status: Status)
      ensures this.spec == spec && this.status == status
    {
      this.spec := spec;
      this.status := status;
    }

    method JobExistsForCluster(cluster: string) returns (exists': bool)
      ensures exists' == JobExists(status.jobs, cluster)
      ensures exists' <==>
          exists i :: 0 <= i < |status.jobs| && status.jobs[i].cluster == cluster && status.jobs[i].phase != Retrying
              && forall j :: 0 <= j < i ==> status.jobs[j].cluster != cluster
    {
      for i := 0 to |status.jobs|
        invariant JobExists(status.jobs, cluster) == JobExists(status.jobs[i..], cluster)
        invariant forall j :: 0 <= j < i ==> status.jobs[j].cluster != cluster
      {
        if status.jobs[i].cluster == cluster {
          if status.jobs[i].phase == Retrying {
            return false;
          }
          return true;
        }
        assert status.jobs[i..][1..] == status.jobs[i + 1..];
      }
      return false;
    }

    /** Creates the pod of a job: the entry being retried is rewritten, otherwise one is appended. */
    method CreateClusterJob(provider: string, cluster: string, res: CreateResult) returns (ok: bool)
      modifies this
      ensures ok == res.Created?
      ensures status == old(status).(jobs := AfterCreate(old(status.jobs), provider, cluster, res))
    {
      var existingJobIndex: int := -1;
      for i := 0 to |status.jobs|
        invariant existingJobIndex == -1
        invariant status == old(status)
        invariant forall j :: 0 <= j < i ==> !(status.jobs[j].cluster == cluster && status.jobs[j].phase == Retrying)
      {
        if status.jobs[i].cluster == cluster && status.jobs[i].phase == Retrying {
          existingJobIndex := i;
          break;
        }
      }
      if res.CreateFailed? {
        return false;
      }
      if existingJobIndex >= 0 {
        var job := status.jobs[existingJobIndex];
        job := job.(jobId := res.jobId, podName := "krkn-job-" + res.jobId, image := res.image, phase := Pending);
        job := job.(startTime := Some(res.now), completionTime := None, message := NoMessage);
        status := status.(jobs := status.jobs[existingJobIndex := job]);
      } else {
        status := status.(jobs := status.jobs + [NewJob(provider, cluster, res)]);
      }
      return true;
    }

    /** The body of the creation loop, for the target at position `k`. */
    method CreateTurn(provider: string, cluster: string, k: nat, creates: seq<CreateResult>, ghost jobs: seq<Job>,
        ghost targets: seq<Target>)
      requires k < |targets| && targets[k] == Target(provider, cluster)
      requires status.jobs == CreateMissing(jobs, targets[..k], creates)
      modifies this
      ensures status == old(status).(jobs := CreateMissing(jobs, targets[..k + 1], creates))
    {
      CreateMissingNext(jobs, targets, k, creates);
      var exists' := JobExistsForCluster(cluster);
      if !exists' {
        var _ := CreateClusterJob(provider, cluster, AnswerAt(creates, k));
      }
    }

    /** The inner creation loop: one provider's clusters, after the targets in `before`. */
    method CreateForProvider(provider: string, visited: nat, creates: seq<CreateResult>, ghost jobs: seq<Job>,
        ghost before: seq<Target>)
      requires provider in spec.targets && visited == |before|
      requires status.jobs == CreateMissing(jobs, before, creates)
      modifies this
      ensures status == old(status).(jobs := CreateMissing(jobs, before + Block(spec.targets, provider), creates))
    {
      var clusters := spec.targets[provider];
      ghost var all := before + Block(spec.targets, provider);
      assert all[..visited] == before;
      for i := 0 to |clusters|
        invariant status == old(status).(jobs := CreateMissing(jobs, all[..visited + i], creates))
      {
        CreateTurn(provider, clusters[i], visited + i, creates, jobs, all);
      }
      assert all[..visited + |clusters|] == all;
    }

    /** The creation loop over providers and their clusters, best effort. */
    method CreateMissingJobs(creates: seq<CreateResult>) returns (ghost targets: seq<Target>)
      modifies this
      ensures IsFlattening(spec, targets)
      ensures status == old(status).(jobs := CreateMissing(old(status.jobs), targets, creates))
    {
      targets := [];
      ghost var order: seq<string> := [];
      var visited := 0;
      var remaining := spec.targets.Keys;
      while remaining != {}
        invariant remaining <= spec.targets.Keys
        invariant Enumerates(order, spec.targets.Keys - remaining)
        invariant targets == Flatten(spec.targets, order) && visited == |targets|
        invariant status == old(status).(jobs := status.jobs)
        invariant status.jobs == CreateMissing(old(status.jobs), targets, creates)
      {
        var provider :| provider in remaining;
        remaining := remaining - {provider};
        CreateForProvider(provider, visited, creates, old(status.jobs), targets);
        FlattenAppend(spec.targets, order, provider);
        order := order + [provider];
        targets := Flatten(spec.targets, order);
        visited := visited + |spec.targets[provider]|;
      }
      assert spec.targets.Keys - {} == spec.targets.Keys;
    }

    method RetryOrSettle(i: nat, check: JobCheck)
      requires i < |status.jobs|
      modifies this
      ensures status == old(status).(jobs := AfterFailure(spec, old(status.jobs), i, check))
    {
      var job := status.jobs[i];
      if ShouldRetry(job, job.maxRetries) {
        var delay := spec.delayAfter(job.retryCount);
        if job.lastRetryTime.Some? {
          var elapsed := check.now - job.lastRetryTime.value;
          if elapsed < delay {
            return;
          }
        }
        job := job.(phase := Retrying, retryCount := job.retryCount + 1, lastRetryTime := Some(check.now));
        status := status.(jobs := status.jobs[i := job]);
        if job.provider == "" {
          job := Completed(job.(phase := Failed, message := NoProviderMessage, failureReason := InvalidJobState),
              check.now);
          status := status.(jobs := status.jobs[i := job]);
          return;
        }
        if job.cluster == "" {
          job := Completed(job.(phase := Failed, message := NoClusterMessage, failureReason := InvalidJobState),
              check.now);
          status := status.(jobs := status.jobs[i := job]);
          return;
        }
        var ok := CreateClusterJob(job.provider, job.cluster, check.retry);
        if !ok {
          status := status.(jobs := status.jobs[i := RetryFailed(job, check.retry.error, check.now)]);
        }
      } else if job.cancelRequested {
        status := status.(jobs := status.jobs[i := job.(phase := Cancelled)]);
      } else {
        status := status.(jobs := status.jobs[i := job.(phase := MaxRetriesExceeded)]);
      }
    }

    /** Checks every job that was in the list when the loop started. */
    method UpdateClusterJobStatuses(checks: seq<JobCheck>)
      modifies this
      ensures status == old(status).(jobs := CheckJobs(spec, old(status.jobs), checks, |old(status.jobs)|))
    {
      var n := |status.jobs|;
      for i := 0 to n
        invariant |status.jobs| >= n == |old(status.jobs)|
        invariant status == old(status).(jobs := CheckJobs(spec, old(status.jobs), checks, i))
      {
        CheckJobGrows(spec, status.jobs, i, CheckAt(checks, i));
        CheckClusterJob(i, CheckAt(checks, i));
      }
    }

    /** The body of that loop, for one job. */
    method CheckClusterJob(i: nat, check: JobCheck)
      requires i < |status.jobs|
      modifies this
      ensures status == old(status).(jobs := CheckJob(spec, old(status.jobs), i, check))
    {
      var job := status.jobs[i];
      if job.phase == Succeeded || job.phase == Cancelled || job.phase == MaxRetriesExceeded {
        return;
      }
      if job.phase == Failed && job.retryCount >= job.maxRetries && !job.cancelRequested {
        return;
      }
      match check.pod {
        case LookupError =>
        case NotFound =>
          if job.phase == Pending && job.startTime.Some? {
            var timeSinceStart := check.now - job.startTime.value;
            if timeSinceStart < POD_GRACE {
              return;
            }
          }
          job := job.(phase := Failed, message := PodNotFoundMessage, failureReason := PodNotFoundReason,
              completionTime := Some(check.now));
          status := status.(jobs := status.jobs[i := job]);
        case Found(podPhase, image, text, reason) =>
          if job.image == "" && image.Some? {
            job := job.(image := image.value);
          }
          match podPhase {
            case PodPending => job := job.(phase := Pending);
            case PodRunning => job := job.(phase := Running);
            case PodSucceeded => job := Completed(job.(phase := Succeeded), check.now);
            case PodFailed =>
              job := Completed(job.(phase := Failed, message := Text(text), failureReason := PodReason(reason)),
                  check.now);
              if job.maxRetries == 0 {
                job := job.(maxRetries := if spec.maxRetries == 0 then DEFAULT_MAX_RETRIES else spec.maxRetries);
              }
            case PodUnknown =>
              job := Completed(job.(phase := Failed, message := PodUnknownMessage,
                  failureReason := PodUnknownReason), check.now);
            case PodOther =>
          }
          status := status.(jobs := status.jobs[i := job]);
          if podPhase == PodFailed {
            RetryOrSettle(i, check);
          }
      }
    }

    method CalculateOverallStatus()
      modifies this
      ensures status == Summarized(old(status))
    {
      var successful, failed, running, pending := 0, 0, 0, 0;
      for i := 0 to |status.jobs|
        invariant status == old(status)
        invariant successful == SuccessCount(status.jobs[..i])
        invariant failed == FailureCount(status.jobs[..i])
        invariant running == RunningCount(status.jobs[..i])
        invariant pending == PendingCount(status.jobs[..i])
      {
        assert status.jobs[..i + 1][..i] == status.jobs[..i];
        match status.jobs[i].phase {
          case Succeeded => successful := successful + 1;
          case Failed => failed := failed + 1;
          case Cancelled => failed := failed + 1;
          case MaxRetriesExceeded => failed := failed + 1;
          case Running => running := running + 1;
          case Retrying => running := running + 1;
          case Pending => pending := pending + 1;
        }
      }
      assert status.jobs[..|status.jobs|] == status.jobs;
      var totalJobs := |status.jobs|;
      var phase := OverallPartiallyFailed;
      if totalJobs == 0 {
        phase := OverallPending;
      } else if running > 0 || pending > 0 {
        phase := OverallRunning;
      } else if failed == totalJobs {
        phase := OverallFailed;
      } else if successful == totalJobs {
        phase := OverallSucceeded;
      }
      status := status.(phase := phase, successfulJobs := successful, failedJobs := failed, runningJobs := running);
    }

    method InitializeStatus() returns (ghost targets: seq<Target>)
      modifies this
      ensures IsFlattening(spec, targets) && status == Started(old(status), targets)
      ensures status == old(status).(phase := OverallPending, totalTargets := |targets|, jobs := [])
    {
      var total := 0;
      targets := [];
      ghost var order: seq<string> := [];
      var remaining := spec.targets.Keys;
      while remaining != {}
        invariant remaining <= spec.targets.Keys
        invariant Enumerates(order, spec.targets.Keys - remaining)
        invariant targets == Flatten(spec.targets, order) && total == |targets|
        invariant status == old(status)
      {
        var provider :| provider in remaining;
        remaining := remaining - {provider};
        total := total + |spec.targets[provider]|;
        FlattenAppend(spec.targets, order, provider);
        order := order + [provider];
        targets := Flatten(spec.targets, order);
      }
      assert spec.targets.Keys - {} == spec.targets.Keys;
      status := status.(phase := OverallPending, totalTargets := total, jobs := []);
    }

    /**
     A whole reconcile: an uninitialised status is written first, then the pass proper runs on the
     result and is written only when it differs from the snapshot taken after the creation loop.
     */
    method Reconcile(creates: seq<CreateResult>, checks: seq<JobCheck>, initWriteOk: bool)
      returns (writes: seq<Status>, ghost init: seq<Target>, ghost world: World)
      modifies this
      ensures IsFlattening(spec, init) && IsFlattening(spec, world.targets)
      ensures world.creates == creates && world.checks == checks
      ensures var started := if old(status.phase) == OverallUnset then Started(old(status), init) else old(status);
              var first := if old(status.phase) == OverallUnset then [started] else [];
              if old(status.phase) == OverallUnset && !initWriteOk then writes == first && status == started
              else
                && status == Passed(spec, started, world)
                && writes == first + (if PassWrites(spec, started, world, status) then [status] else [])
    {
      writes := [];
      ghost var anyOrder := EnumerationOf(spec.targets.Keys);
      init := Flatten(spec.targets, anyOrder);
      world := World(init, creates, checks);
      if status.phase == OverallUnset {
        init := InitializeStatus();
        writes := [status];
        if !initWriteOk {
          return;
        }
      }
      ghost var targets := CreateMissingJobs(creates);
      world := World(targets, creates, checks);
      var originalStatus := status;
      UpdateClusterJobStatuses(checks);
      CalculateOverallStatus();
      if !SameStatus(originalStatus, status) {
        writes := writes + [status];
      }
    }
  }

  datatype CancelAnswer = NoSuchJob | Forbidden | UpdateFailed | Requested(run: nat)

  /** The first run with the job, and where. */
  ghost predicate FoundAt(runs: seq<ScenarioRun>, jobId: string, i: nat)
    reads runs
  {
    && i < |runs| && JobIndex(runs[i].status.jobs, jobId).Some?
    && forall j :: 0 <= j < i ==> JobIndex(runs[j].status.jobs, jobId).None?
  }

  method FindJob(runs: seq<ScenarioRun>, jobId: string) returns (found: Option<(nat, nat)>)
    ensures found.None? <==> forall i :: 0 <= i < |runs| ==> JobIndex(runs[i].status.jobs, jobId).None?
    ensures found.Some? ==> FoundAt(runs, jobId, found.value.0)
    ensures found.Some? ==> JobIndex(runs[found.value.0].status.jobs, jobId) == Some(found.value.1)
  {
    for i := 0 to |runs|
      invariant forall j :: 0 <= j < i ==> JobIndex(runs[j].status.jobs, jobId).None?
    {
      var jobs := runs[i].status.jobs;
      for j := 0 to |jobs|
        invariant forall k :: 0 <= k < j ==> jobs[k].jobId != jobId
      {
        if jobs[j].jobId == jobId {
          assert JobIndex(jobs, jobId) == Some(j);
          return Some((i, j));
        }
      }
    }
    return None;
  }

  /**
   Searches all runs for the job and requests its cancellation in the first run that has it, when
   the caller may cancel that job and the API server accepts the write.
   */
  method DeleteSingleJob(runs: seq<ScenarioRun>, jobId: string, mayCancel: Job -> bool, updateOk: bool)
    returns (r: CancelAnswer)
    modifies runs
    ensures r.NoSuchJob? <==> forall i :: 0 <= i < |runs| ==> JobIndex(old(runs[i].status).jobs, jobId).None?
    ensures r.Forbidden? || r.UpdateFailed? || r.Requested? ==>
              exists i: nat :: old(FoundAt(runs, jobId, i))
                && (r.Forbidden? <==> !mayCancel(old(runs[i].status.jobs[JobIndex(runs[i].status.jobs, jobId).value])))
                && (r.Requested? ==> r.run == i && updateOk) && (r.UpdateFailed? ==> !updateOk)
    ensures !r.Requested? ==> forall run :: run in runs ==> run.status == old(run.status)
    ensures r.Requested? ==> r.run < |runs| && CancelWrites(old(runs[r.run].status), jobId, runs[r.run].status)
    ensures r.Requested? ==>
        var a, b := old(runs[r.run].status), runs[r.run].status;
        exists j :: 0 <= j < |a.jobs| && a.jobs[j].jobId == jobId
            && (forall i :: 0 <= i < j ==> a.jobs[i].jobId != jobId)
            && b == a.(jobs := a.jobs[j := a.jobs[j].(cancelRequested := true)])
    ensures r.Requested? ==> forall run :: run in runs && run != runs[r.run] ==> run.status == old(run.status)
  {
    var found := FindJob(runs, jobId);
    if found.None? {
      return NoSuchJob;
    }
    var (i, j) := found.value;
    var run := runs[i];
    assert old(FoundAt(runs, jobId, i));
    if !mayCancel(run.status.jobs[j]) {
      return Forbidden;
    }
    if !updateOk {
      return UpdateFailed;
    }
    var job := run.status.jobs[j].(cancelRequested := true);
    run.status := run.status.(jobs := run.status.jobs[j := job]);
    return Requested(i);
  }
}
