/**
 The creation loop and the check of one job spelled out, and what they mean for every stored status:
 who is retried, how often and how late, in the values the specification gives.
 */
module ScenarioChecks {
  import opened Common
  import opened Backoff
  import opened ScenarioModel
  import opened ScenarioJobs
  import opened ScenarioHistory

  // ---------------------------------------------------------------------------------------
  // One check

  /** The job is over, or it has failed and used up its recorded maximum, and no cancellation is asked for. */
  ghost predicate LeftAlone(job: Job) {
    || job.phase == Succeeded || job.phase == Cancelled || job.phase == MaxRetriesExceeded
    || (job.phase == Failed && job.retryCount >= job.maxRetries && !job.cancelRequested)
  }

  /** A pending job that was started less than thirty seconds ago. */
  ghost predicate JustStarted(job: Job, now: int) {
    job.phase == Pending && job.startTime.Some? && now - job.startTime.value < 30_000_000_000
  }

  /** The job's own maximum once it has one, else the specification's, else three. */
  ghost predicate Maximum(spec: Spec, job: Job, limit: int) {
    && (job.maxRetries != 0 ==> limit == job.maxRetries)
    && (job.maxRetries == 0 && spec.maxRetries != 0 ==> limit == spec.maxRetries)
    && (job.maxRetries == 0 && spec.maxRetries == 0 ==> limit == 3)
  }

  /** A finished job keeps its completion time and otherwise gets one. */
  ghost predicate Ended(before: Job, now: int, after: Job) {
    after.completionTime == if before.completionTime == None then Some(now) else before.completionTime
  }

  /** The image is taken over from the pod when none is recorded. */
  ghost predicate ImageFrom(before: Job, pod: PodLookup, after: Job)
    requires pod.Found?
  {
    after.image == if before.image == "" && pod.image.Some? then pod.image.value else before.image
  }

  /** The failed pod is recorded, and with it the maximum. */
  ghost predicate RecordsFailure(spec: Spec, a: Job, pod: PodLookup, now: int, failed: Job)
    requires pod.Found?
  {
    && failed == a.(image := failed.image, phase := Failed, message := Text(pod.text),
         failureReason := PodReason(pod.reason), completionTime := failed.completionTime,
         maxRetries := failed.maxRetries)
    && ImageFrom(a, pod, failed) && Ended(a, now, failed) && Maximum(spec, a, failed.maxRetries)
  }

  /** A retry is counted and dated; then it starts a new pod, or says why it could not. */
  ghost predicate Retries(failed: Job, check: JobCheck, b: Job) {
    var counted := failed.(retryCount := failed.retryCount + 1, lastRetryTime := Some(check.now));
    if failed.provider == "" then b == counted.(message := NoProviderMessage, failureReason := InvalidJobState)
    else if failed.cluster == "" then b == counted.(message := NoClusterMessage, failureReason := InvalidJobState)
    else match check.retry
      case CreateFailed(error) => b == counted.(message := RetryError(error))
      case Created(jobId, _, image, now) =>
        b == counted.(jobId := jobId, podName := "krkn-job-" + jobId, image := image, phase := Pending,
               startTime := Some(now), completionTime := None, message := NoMessage)
  }

  /** After a failed pod: cancelled, given up, waiting for the backoff, or retried. */
  ghost predicate Decides(spec: Spec, failed: Job, check: JobCheck, b: Job) {
    if failed.cancelRequested then b == failed.(phase := Cancelled)
    else if failed.retryCount >= failed.maxRetries then b == failed.(phase := MaxRetriesExceeded)
    else if failed.lastRetryTime.Some? && check.now - failed.lastRetryTime.value < spec.delayAfter(failed.retryCount)
    then b == failed
    else Retries(failed, check, b)
  }

  /** Everything one check does to a job. */
  ghost predicate Outcome(spec: Spec, a: Job, check: JobCheck, b: Job) {
    if LeftAlone(a) then b == a
    else match check.pod
      case LookupError => b == a
      case NotFound =>
        b == if JustStarted(a, check.now) then a
             else a.(phase := Failed, message := PodNotFoundMessage, failureReason := PodNotFoundReason,
                 completionTime := Some(check.now))
      case Found(phase, _, _, _) =>
        match phase
        case PodPending => b == a.(image := b.image, phase := Pending) && ImageFrom(a, check.pod, b)
        case PodRunning => b == a.(image := b.image, phase := Running) && ImageFrom(a, check.pod, b)
        case PodOther => b == a.(image := b.image) && ImageFrom(a, check.pod, b)
        case PodSucceeded =>
          && b == a.(image := b.image, phase := Succeeded, completionTime := b.completionTime)
          && ImageFrom(a, check.pod, b) && Ended(a, check.now, b)
        case PodUnknown =>
          && b == a.(image := b.image, phase := Failed, message := PodUnknownMessage,
               failureReason := PodUnknownReason, completionTime := b.completionTime)
          && ImageFrom(a, check.pod, b) && Ended(a, check.now, b)
        case PodFailed =>
          exists failed :: RecordsFailure(spec, a, check.pod, check.now, failed) && Decides(spec, failed, check, b)
  }

  lemma FailureOutcome(spec: Spec, a: Job, check: JobCheck)
    requires !LeftAlone(a) && check.pod.Found? && check.pod.phase == PodFailed
    ensures Outcome(spec, a, check, NextJob(spec, a, check))
  {
    var failed := FailedPod(spec, Backfilled(a, check.pod), check.pod, check.now);
    assert RecordsFailure(spec, a, check.pod, check.now, failed);
    assert failed.maxRetries != 0;
    assert Decides(spec, failed, check, NextJob(spec, a, check));
  }

  /** One check rewrites its own entry, and how. */
  lemma CheckOutcome(spec: Spec, jobs: seq<Job>, i: nat, check: JobCheck)
    requires i < |jobs| && NoRetrying(jobs)
    ensures var after := CheckJob(spec, jobs, i, check);
            && |after| == |jobs| && Outcome(spec, jobs[i], check, after[i])
            && forall k :: 0 <= k < |jobs| && k != i ==> after[k] == jobs[k]
  {
    CheckInPlace(spec, jobs, i, check);
    if !LeftAlone(jobs[i]) && check.pod.Found? && check.pod.phase == PodFailed {
      FailureOutcome(spec, jobs[i], check);
    }
  }

  // ---------------------------------------------------------------------------------------
  // The creation loop

  /** The entry of a first attempt. */
  ghost predicate FirstAttempt(target: Target, res: CreateResult, job: Job) {
    && res.Created?
    && job == Job(target.provider, target.cluster, res.apiUrl, res.jobId, "krkn-job-" + res.jobId, res.image, Pending,
         NoMessage, NoReason, Some(res.now), None, 0, 0, false, None)
  }

  /** `added` are first attempts at the targets at positions `from`, in target order. */
  ghost predicate AddedAt(targets: seq<Target>, creates: seq<CreateResult>, added: seq<Job>, from: seq<nat>) {
    && |from| == |added|
    && (forall k :: 0 <= k < |added| ==>
         from[k] < |targets| && from[k] < |creates| && FirstAttempt(targets[from[k]], creates[from[k]], added[k]))
    && (forall k, l :: 0 <= k < l < |from| ==> from[k] < from[l])
  }

  /** Every target whose creation would be answered well has a job. */
  ghost predicate ServesAll(targets: seq<Target>, creates: seq<CreateResult>, after: seq<Job>) {
    forall t :: 0 <= t < |targets| && t < |creates| && creates[t].Created? ==> HasJob(after, targets[t].cluster)
  }

  /**
   The loop appends first attempts, in target order and one for each target cluster that had no job and
   whose creation succeeds; no cluster gets two.
   */
  lemma {:induction false} CreationOutcome(jobs: seq<Job>, targets: seq<Target>, creates: seq<CreateResult>)
    returns (from: seq<nat>)
    requires NoRetrying(jobs)
    ensures var after := CreateMissing(jobs, targets, creates);
            && jobs <= after && AddedAt(targets, creates, after[|jobs|..], from)
            && ServesAll(targets, creates, after)
            && (DistinctClusters(jobs) ==> DistinctClusters(after))
  {
    from := [];
    CreationAppends(jobs, targets, creates);
    if targets != [] {
      var n := |targets| - 1;
      var before := CreateMissing(jobs, targets[..n], creates);
      from := CreationOutcome(jobs, targets[..n], creates);
      CreationAppends(jobs, targets[..n], creates);
      CreationTurn(before, targets[n], AnswerAt(creates, n));
      var after := CreateMissing(jobs, targets, creates);
      HasJobKept(before, after);
      if |after| > |before| {
        AddedMore(targets, creates, before[|jobs|..], from, after[|before|]);
        assert after[|jobs|..] == before[|jobs|..] + [after[|before|]];
        from := from + [n];
      } else {
        AddedAmongMore(targets, creates, before[|jobs|..], from);
      }
      ServesMore(targets, creates, before, after);
    }
  }

  /** One turn of the loop: nothing, or one more first attempt. */
  lemma CreationTurn(before: seq<Job>, target: Target, res: CreateResult)
    requires NoRetrying(before)
    ensures var after := if JobExists(before, target.cluster) then before
                         else AfterCreate(before, target.provider, target.cluster, res);
            && (after == before || (|after| == |before| + 1 && before <= after
                && FirstAttempt(target, res, after[|before|])))
            && (res.Created? ==> HasJob(after, target.cluster))
  {
    JobExistsIsHasJob(before, target.cluster);
    if !JobExists(before, target.cluster) && res.Created? {
      assert RetryIndex(before, target.cluster).None?;
      assert (before + [NewJob(target.provider, target.cluster, res)])[|before|].cluster == target.cluster;
    }
  }

  lemma AddedMore(targets: seq<Target>, creates: seq<CreateResult>, added: seq<Job>, from: seq<nat>, job: Job)
    requires targets != [] && AddedAt(targets[..|targets| - 1], creates, added, from)
    requires |targets| <= |creates| && FirstAttempt(targets[|targets| - 1], creates[|targets| - 1], job)
    ensures AddedAt(targets, creates, added + [job], from + [|targets| - 1])
  {
    AddedAmongMore(targets, creates, added, from);
  }

  lemma AddedAmongMore(targets: seq<Target>, creates: seq<CreateResult>, added: seq<Job>, from: seq<nat>)
    requires targets != [] && AddedAt(targets[..|targets| - 1], creates, added, from)
    ensures AddedAt(targets, creates, added, from)
  {
    assert forall k :: 0 <= k < |from| ==> targets[..|targets| - 1][from[k]] == targets[from[k]];
  }

  lemma ServesMore(targets: seq<Target>, creates: seq<CreateResult>, before: seq<Job>,
      after: seq<Job>)
    requires targets != [] && ServesAll(targets[..|targets| - 1], creates, before)
    requires forall c :: HasJob(before, c) ==> HasJob(after, c)
    requires AnswerAt(creates, |targets| - 1).Created? ==> HasJob(after, targets[|targets| - 1].cluster)
    ensures ServesAll(targets, creates, after)
  {
    var n := |targets| - 1;
    forall t | 0 <= t < |targets| && t < |creates| && creates[t].Created? ensures HasJob(after, targets[t].cluster) {
      if t < n {
        assert targets[..n][t] == targets[t];
      }
    }
  }

  lemma HasJobKept(before: seq<Job>, after: seq<Job>)
    requires before <= after
    ensures forall c :: HasJob(before, c) ==> HasJob(after, c)
  {
    forall c | HasJob(before, c) ensures HasJob(after, c) {
      var i :| 0 <= i < |before| && before[i].cluster == c;
      assert after[i].cluster == c;
    }
  }

  /** The targets are the selected clusters, each under its own provider. */
  lemma {:induction false} FlattenPairs(targets: map<string, seq<string>>, order: seq<string>, p: string, c: string)
    requires forall q :: q in order ==> q in targets
    ensures Target(p, c) in Flatten(targets, order) <==> p in order && c in targets[p]
  {
    if order != [] {
      var q := order[0];
      FlattenPairs(targets, order[1..], p, c);
      var here := seq(|targets[q]|, i requires 0 <= i < |targets[q]| => Target(q, targets[q][i]));
      assert Flatten(targets, order) == here + Flatten(targets, order[1..]);
      assert Target(p, c) in here <==> p == q && c in targets[q] by {
        if p == q && c in targets[q] {
          var i :| 0 <= i < |targets[q]| && targets[q][i] == c;
          assert here[i] == Target(p, c);
        }
      }
      assert p in order <==> p == q || p in order[1..];
    }
  }

  // ---------------------------------------------------------------------------------------
  // Every stored job

  /** The maximum a run's specification gives. */
  ghost predicate RunMaximum(maxRetries: int, limit: int) {
    limit == if maxRetries == 0 then 3 else maxRetries
  }

  /** What the limit means for a stored job. */
  ghost predicate WithinLimit(limit: int, job: Job) {
    && (job.maxRetries == 0 || job.maxRetries == limit)
    && (job.retryCount > 0 ==> job.maxRetries == limit && job.retryCount <= limit)
    && (job.phase == MaxRetriesExceeded ==> job.maxRetries == limit && job.retryCount >= limit)
    && (job.phase == Cancelled ==> job.cancelRequested)
  }

  lemma CheckWithinLimit(spec: Spec, limit: int, job: Job, check: JobCheck)
    requires JobOk(job) && RunMaximum(spec.maxRetries, limit) && WithinLimit(limit, job)
    ensures WithinLimit(limit, NextJob(spec, job, check))
  {
    if !LeftAlone(job) && check.pod.Found? && check.pod.phase == PodFailed {
      FailureOutcome(spec, job, check);
      var failed :| RecordsFailure(spec, job, check.pod, check.now, failed)
          && Decides(spec, failed, check, NextJob(spec, job, check));
      DecisionWithinLimit(spec, limit, failed, check, NextJob(spec, job, check));
    } else {
      OtherChecksKeepLimit(spec, job, check);
    }
  }

  lemma DecisionWithinLimit(spec: Spec, limit: int, failed: Job, check: JobCheck, next: Job)
    requires failed.maxRetries == limit && failed.phase == Failed && Decides(spec, failed, check, next)
    requires 0 <= failed.retryCount && (failed.retryCount > 0 ==> failed.retryCount <= limit)
    ensures WithinLimit(limit, next)
  {
  }

  lemma OtherChecksKeepLimit(spec: Spec, job: Job, check: JobCheck)
    requires LeftAlone(job) || !check.pod.Found? || check.pod.phase != PodFailed
    ensures var next := NextJob(spec, job, check);
            && next.maxRetries == job.maxRetries && next.retryCount == job.retryCount
            && next.cancelRequested == job.cancelRequested
            && (next.phase == job.phase || (next.phase != MaxRetriesExceeded && next.phase != Cancelled))
  {
    if !LeftAlone(job) && check.pod.Found? {
      var seen := Backfilled(job, check.pod);
      assert seen == job.(image := seen.image);
      match check.pod.phase
      case PodPending =>
      case PodRunning =>
      case PodSucceeded =>
      case PodUnknown =>
      case PodOther =>
    }
  }

  ghost predicate AllWithinLimit(spec: Spec, limit: int, s: Status) {
    StoredOk(spec, s) && forall k :: 0 <= k < |s.jobs| ==> WithinLimit(limit, s.jobs[k])
  }

  lemma PassWithinLimit(spec: Spec, limit: int, a: Status, world: World)
    requires AllWithinLimit(spec, limit, a) && a.phase != OverallUnset && RunMaximum(spec.maxRetries, limit)
    ensures forall k :: 0 <= k < |Passed(spec, a, world).jobs| ==> WithinLimit(limit, Passed(spec, a, world).jobs[k])
  {
    var snapshot, b := Snapshot(a, world).jobs, Passed(spec, a, world).jobs;
    PassedJobs(spec, a, world);
    var from := CreationOutcome(a.jobs, world.targets, world.creates);
    forall k | 0 <= k < |b| ensures WithinLimit(limit, b[k]) {
      assert JobOk(snapshot[k]) && WithinLimit(limit, snapshot[k]) by {
        if k >= |a.jobs| {
          assert snapshot[k] == snapshot[|a.jobs|..][k - |a.jobs|];
        }
      }
      CheckWithinLimit(spec, limit, snapshot[k], CheckAt(world.checks, k));
    }
  }

  lemma ChangeWithinLimit(spec: Spec, limit: int, a: Status, b: Status)
    requires AllWithinLimit(spec, limit, a) && Changes(spec, a, b) && RunMaximum(spec.maxRetries, limit)
    ensures AllWithinLimit(spec, limit, b)
  {
    ChangeKeepsOk(spec, a, b);
    if jobId :| CancelWrites(a, jobId, b) {
      CancelWithinLimit(spec, limit, a, jobId, b);
    } else if a.phase != OverallUnset {
      var world: World :| IsFlattening(spec, world.targets) && PassWrites(spec, a, world, b);
      PassWithinLimit(spec, limit, a, world);
    } else {
      var targets :| IsFlattening(spec, targets) && b == Started(a, targets);
      assert b.jobs == [];
    }
  }

  lemma CancelWithinLimit(spec: Spec, limit: int, a: Status, jobId: string, b: Status)
    requires AllWithinLimit(spec, limit, a) && CancelWrites(a, jobId, b)
    ensures forall k :: 0 <= k < |b.jobs| ==> WithinLimit(limit, b.jobs[k])
  {
    var i := JobIndex(a.jobs, jobId).value;
    forall k | 0 <= k < |b.jobs| ensures WithinLimit(limit, b.jobs[k]) {
      assert WithinLimit(limit, a.jobs[k]);
      assert b.jobs[k] == if k == i then a.jobs[k].(cancelRequested := true) else a.jobs[k];
    }
  }

  /**
   In every stored version a job's maximum is not set yet or the one the run asks for, three when it
   asks for none; a job is given up only after that many retries and cancelled only on request.
   */
  lemma EveryStoredJob(targets: map<string, seq<string>>, maxRetries: int, exponential: bool, delay: Option<int>,
      h: seq<Status>, v: nat, k: nat)
    requires History(RunSpec(targets, maxRetries, exponential, delay), h) && v < |h| && k < |h[v].jobs|
    ensures var job := h[v].jobs[k]; var limit := if maxRetries == 0 then 3 else maxRetries;
            && (job.maxRetries == 0 || job.maxRetries == limit)
            && (job.retryCount > 0 ==> job.retryCount <= limit)
            && (job.phase == MaxRetriesExceeded ==> job.retryCount >= limit)
            && (job.phase == Cancelled ==> job.cancelRequested)
  {
    var spec := RunSpec(targets, maxRetries, exponential, delay);
    var limit := if maxRetries == 0 then 3 else maxRetries;
    HistoryOk(spec, h, 0);
    forall a, b | AllWithinLimit(spec, limit, a) && Changes(spec, a, b) ensures AllWithinLimit(spec, limit, b) {
      ChangeWithinLimit(spec, limit, a, b);
    }
    ChainKeeps(spec, s => AllWithinLimit(spec, limit, s), h, 0, v);
    assert WithinLimit(limit, h[v].jobs[k]);
  }

  lemma {:induction false} FixedTrack(spec: Spec, track: seq<Job>, delay: int)
    requires forall r: nat :: spec.delayAfter(r) == delay
    requires track != [] && track[0].retryCount > 0
    requires forall i :: 0 <= i < |track| ==> JobOk(track[i])
    requires forall i :: 0 < i < |track| ==> JobStep(track[i - 1], track[i]) && Spaced(spec, track[i - 1], track[i])
    ensures var first, last := track[0], track[|track| - 1];
            && first.lastRetryTime.Some? && last.lastRetryTime.Some? && last.retryCount > 0
            && last.lastRetryTime.value - first.lastRetryTime.value >= (last.retryCount - first.retryCount) * delay
  {
    var n := |track| - 1;
    assert JobOk(track[n]) && JobOk(track[0]);
    if n > 0 {
      FixedTrack(spec, track[..n], delay);
      var a, b := track[n - 1], track[n];
      assert JobStep(a, b) && Spaced(spec, a, b);
      assert (a.retryCount + 1 - track[0].retryCount) * delay == (a.retryCount - track[0].retryCount) * delay + delay;
    }
  }

  /** Under fixed backoff each retry after the first comes at least the given delay, or ten seconds, after the last. */
  lemma FixedSpacing(targets: map<string, seq<string>>, maxRetries: int, delay: Option<int>, h: seq<Status>, k: nat,
      u: nat, v: nat)
    requires History(RunSpec(targets, maxRetries, false, delay), h) && u <= v < |h|
    requires k < |h[u].jobs| && k < |h[v].jobs| && h[u].jobs[k].retryCount > 0
    ensures var a, b := h[u].jobs[k], h[v].jobs[k];
            && a.lastRetryTime.Some? && b.lastRetryTime.Some?
            && b.lastRetryTime.value - a.lastRetryTime.value >=
                 (b.retryCount - a.retryCount) * (if delay.Some? then delay.value else 10_000_000_000)
  {
    var spec := RunSpec(targets, maxRetries, false, delay);
    var track := TrackExists(spec, h, k, u, v);
    assert h[u].jobs[k] == track[0] && h[v].jobs[k] == track[v - u];
    FixedTrack(spec, track, if delay.Some? then delay.value else 10_000_000_000);
  }
}
