/**
 Every stored status of a scenario run. Controller passes and cancel requests race, each a
 compare-and-set on the status it fetched; `Store.CompareAndSetSerialises` turns any such run
 into a chain of single operations, and everything here is proved of such chains.
 */
module ScenarioHistory {
  import opened Common
  import opened Backoff
  import opened ScenarioModel
  import opened ScenarioJobs
  import Store

  /** Stored statuses, one change at a time. */
  ghost predicate Chain(spec: Spec, c: seq<Status>) {
    c != [] && forall v :: 0 < v < |c| ==> Changes(spec, c[v - 1], c[v])
  }

  /** The stored statuses, from a fresh object on. */
  ghost predicate History(spec: Spec, h: seq<Status>) {
    Chain(spec, h) && Blank(h[0])
  }

  /** What every change keeps holds from one version on. */
  lemma {:induction false} ChainKeeps(spec: Spec, keeps: Status -> bool, c: seq<Status>, u: nat, v: nat)
    requires Chain(spec, c) && u <= v < |c| && keeps(c[u])
    requires forall s, s' :: keeps(s) && Changes(spec, s, s') ==> keeps(s')
    ensures keeps(c[v])
    decreases v
  {
    if u < v {
      ChainKeeps(spec, keeps, c, u, v - 1);
      assert Changes(spec, c[v - 1], c[v]);
    }
  }

  ghost predicate Blank(status: Status) {
    status == Status(OverallUnset, 0, 0, 0, 0, [])
  }

  /** Any interleaving of clients with compare-and-set writes stores such a history. */
  lemma InterleavingsAreHistories(spec: Spec, blank: Status, run: seq<Store.Object<Status>>)
    requires Blank(blank)
    requires Store.Run((a, b) => Changes(spec, a, b), blank, run)
    ensures History(spec, run[|run| - 1].history)
  {
    var change := (a, b) => Changes(spec, a, b);
    Store.CompareAndSetSerialises(change, blank, run);
    var h := run[|run| - 1].history;
    forall v | 0 < v < |h| ensures Changes(spec, h[v - 1], h[v]) {
      assert change(h[v - 1], h[v]);
    }
  }

  // ---------------------------------------------------------------------------------------
  // What every stored status satisfies

  lemma {:induction false} FlattenMembers(targets: map<string, seq<string>>, order: seq<string>, cluster: string)
    requires forall p :: p in order ==> p in targets
    ensures (exists t :: 0 <= t < |Flatten(targets, order)| && Flatten(targets, order)[t].cluster == cluster)
       <==> (exists p :: p in order && cluster in targets[p])
  {
    if order != [] {
      var provider := order[0];
      var rest := Flatten(targets, order[1..]);
      FlattenMembers(targets, order[1..], cluster);
      var all := Flatten(targets, order);
      var n := |targets[provider]|;
      assert forall t :: n <= t < |all| ==> all[t] == rest[t - n];
      assert forall t :: 0 <= t < n ==> all[t].cluster == targets[provider][t];
      assert forall t :: 0 <= t < |rest| ==> rest[t] == all[t + n];
      assert forall p :: p in order <==> p == provider || p in order[1..];
    }
  }

  lemma FlatteningTargets(spec: Spec, targets: seq<Target>, cluster: string)
    requires IsFlattening(spec, targets)
    ensures (exists t :: 0 <= t < |targets| && targets[t].cluster == cluster) <==> IsTarget(spec, cluster)
  {
    var order :| Enumerates(order, spec.targets.Keys) && targets == Flatten(spec.targets, order);
    FlattenMembers(spec.targets, order, cluster);
  }

  ghost predicate StatusOk(spec: Spec, s: Status) {
    && (forall k :: 0 <= k < |s.jobs| ==> JobOk(s.jobs[k]) && IsTarget(spec, s.jobs[k].cluster))
    && DistinctClusters(s.jobs)
    && (s.phase == OverallUnset ==> s.jobs == [])
    && (s.phase != OverallUnset ==> Consistent(s) && exists targets ::
        IsFlattening(spec, targets)
        && s.totalTargets == |targets|)
  }

  /** Counters and overall phase are those of the jobs. */
  ghost predicate Consistent(s: Status) {
    Summarized(s) == s
  }

  ghost predicate StatusStep(spec: Spec, a: Status, b: Status) {
    && |a.jobs| <= |b.jobs|
    && forall k :: 0 <= k < |a.jobs| ==> JobStep(a.jobs[k], b.jobs[k]) && Spaced(spec, a.jobs[k], b.jobs[k])
  }

  /** A pass appends to the stored list, then moves each job by one check. */
  ghost predicate PassMoves(spec: Spec, snapshot: seq<Job>, after: seq<Job>) {
    && |after| == |snapshot|
    && forall k :: 0 <= k < |snapshot| ==>
         JobOk(after[k]) && JobStep(snapshot[k], after[k]) && Spaced(spec, snapshot[k], after[k])
  }

  lemma PassedJobs(spec: Spec, a: Status, world: World)
    requires forall k :: 0 <= k < |a.jobs| ==> JobOk(a.jobs[k])
    ensures Appends(a.jobs, Snapshot(a, world).jobs, world.targets)
    ensures PassMoves(spec, Snapshot(a, world).jobs, Passed(spec, a, world).jobs)
    ensures forall k :: 0 <= k < |Snapshot(a, world).jobs| ==>
              Passed(spec, a, world).jobs[k] == NextJob(spec, Snapshot(a, world).jobs[k], CheckAt(world.checks, k))
  {
    var snapshot := Snapshot(a, world).jobs;
    CreationAppends(a.jobs, world.targets, world.creates);
    ChecksPointwise(spec, snapshot, world.checks, |snapshot|);
    forall k | 0 <= k < |snapshot|
      ensures var next := NextJob(spec, snapshot[k], CheckAt(world.checks, k));
              JobOk(next) && JobStep(snapshot[k], next) && Spaced(spec, snapshot[k], next)
    {
      assert JobOk(snapshot[k]);
      NextJobStep(spec, snapshot[k], CheckAt(world.checks, k));
    }
  }

  lemma MovedListOk(spec: Spec, jobs: seq<Job>, snapshot: seq<Job>, after: seq<Job>, targets: seq<Target>)
    requires Appends(jobs, snapshot, targets) && PassMoves(spec, snapshot, after) && IsFlattening(spec, targets)
    requires DistinctClusters(jobs) && forall k :: 0 <= k < |jobs| ==> IsTarget(spec, jobs[k].cluster)
    ensures DistinctClusters(after)
    ensures forall k :: 0 <= k < |after| ==> JobOk(after[k]) && IsTarget(spec, after[k].cluster)
  {
    forall k | 0 <= k < |after| ensures JobOk(after[k]) && IsTarget(spec, after[k].cluster) {
      assert JobStep(snapshot[k], after[k]);
      if k >= |jobs| {
        FlatteningTargets(spec, targets, snapshot[k].cluster);
      }
    }
    assert forall k :: 0 <= k < |after| ==> after[k].cluster == snapshot[k].cluster;
  }

  lemma PassKeepsOk(spec: Spec, a: Status, world: World)
    requires StatusOk(spec, a) && a.phase != OverallUnset && IsFlattening(spec, world.targets)
    ensures StatusOk(spec, Passed(spec, a, world)) && StatusStep(spec, a, Passed(spec, a, world))
  {
    var snapshot := Snapshot(a, world).jobs;
    var b := Passed(spec, a, world);
    PassedJobs(spec, a, world);
    MovedListOk(spec, a.jobs, snapshot, b.jobs, world.targets);
    PassMovesStored(spec, a, snapshot, b);
    PassedStatusOk(spec, a, b);
  }

  lemma PassedStatusOk(spec: Spec, a: Status, b: Status)
    requires StatusOk(spec, a) && a.phase != OverallUnset && b.totalTargets == a.totalTargets && Consistent(b)
    requires forall k :: 0 <= k < |b.jobs| ==> JobOk(b.jobs[k]) && IsTarget(spec, b.jobs[k].cluster)
    requires DistinctClusters(b.jobs)
    ensures StatusOk(spec, b)
  {
  }

  lemma PassMovesStored(spec: Spec, a: Status, snapshot: seq<Job>, b: Status)
    requires a.jobs <= snapshot && PassMoves(spec, snapshot, b.jobs)
    ensures StatusStep(spec, a, b)
  {
    assert forall k :: 0 <= k < |a.jobs| ==> snapshot[k] == a.jobs[k];
  }

  /** Requesting a cancellation changes no phase, so counters and overall phase stay right. */
  lemma {:induction false} CountIgnoresCancel(p: JobPhase -> bool, a: seq<Job>, b: seq<Job>)
    requires |a| == |b| && forall k :: 0 <= k < |a| ==> a[k].phase == b[k].phase
    ensures CountJobs(p, a) == CountJobs(p, b)
  {
    if a != [] {
      CountIgnoresCancel(p, a[..|a| - 1], b[..|b| - 1]);
    }
  }

  lemma SamePhasesSameSummary(a: Status, b: Status)
    requires |a.jobs| == |b.jobs| && forall k :: 0 <= k < |a.jobs| ==> a.jobs[k].phase == b.jobs[k].phase
    ensures SuccessCount(a.jobs) == SuccessCount(b.jobs) && FailureCount(a.jobs) == FailureCount(b.jobs)
    ensures RunningCount(a.jobs) == RunningCount(b.jobs) && PendingCount(a.jobs) == PendingCount(b.jobs)
    ensures OverallOf(a.jobs) == OverallOf(b.jobs)
  {
    CountIgnoresCancel(p => p == Succeeded, a.jobs, b.jobs);
    CountIgnoresCancel(p => IsFailure(p), a.jobs, b.jobs);
    CountIgnoresCancel(p => p == Running || p == Retrying, a.jobs, b.jobs);
    CountIgnoresCancel(p => p == Pending, a.jobs, b.jobs);
  }

  lemma CancelKeepsOk(spec: Spec, a: Status, i: nat)
    requires StatusOk(spec, a) && i < |a.jobs|
    ensures StatusOk(spec, CancelledAt(a, i)) && StatusStep(spec, a, CancelledAt(a, i))
  {
    var b := CancelledAt(a, i);
    SamePhasesSameSummary(a, b);
    forall k | 0 <= k < |a.jobs|
      ensures b.jobs[k].cluster == a.jobs[k].cluster && JobOk(b.jobs[k]) && JobStep(a.jobs[k], b.jobs[k])
          && Spaced(spec, a.jobs[k], b.jobs[k])
    {
      assert JobOk(a.jobs[k]) && b.jobs[k] == if k == i then a.jobs[k].(cancelRequested := true) else a.jobs[k];
      CancelStep(spec, a.jobs[k]);
    }
  }

  lemma CancelStep(spec: Spec, job: Job)
    requires JobOk(job)
    ensures JobStep(job, job) && Spaced(spec, job, job)
    ensures var c := job.(cancelRequested := true); JobOk(c) && JobStep(job, c) && Spaced(spec, job, c)
  {
  }

  lemma StartKeepsOk(spec: Spec, a: Status, targets: seq<Target>)
    requires StatusOk(spec, a) && a.phase == OverallUnset && IsFlattening(spec, targets)
    requires a.successfulJobs == 0 && a.failedJobs == 0 && a.runningJobs == 0
    ensures StatusOk(spec, Started(a, targets)) && StatusStep(spec, a, Started(a, targets))
  {
  }

  ghost predicate StoredOk(spec: Spec, s: Status) {
    StatusOk(spec, s) && (s.phase == OverallUnset ==> Blank(s))
  }

  lemma ChangeKeepsOk(spec: Spec, a: Status, b: Status)
    requires StoredOk(spec, a) && Changes(spec, a, b)
    ensures StoredOk(spec, b) && StatusStep(spec, a, b)
  {
    if jobId :| CancelWrites(a, jobId, b) {
      CancelKeepsOk(spec, a, JobIndex(a.jobs, jobId).value);
    } else if a.phase == OverallUnset {
      var targets :| IsFlattening(spec, targets) && b == Started(a, targets);
      StartKeepsOk(spec, a, targets);
    } else {
      var world: World :| IsFlattening(spec, world.targets) && PassWrites(spec, a, world, b);
      PassKeepsOk(spec, a, world);
    }
  }

  lemma {:induction false} HistoryOk(spec: Spec, h: seq<Status>, v: nat)
    requires History(spec, h) && v < |h|
    ensures StoredOk(spec, h[v])
  {
    if v > 0 {
      HistoryOk(spec, h, v - 1);
      assert Changes(spec, h[v - 1], h[v]);
      ChangeKeepsOk(spec, h[v - 1], h[v]);
    }
  }

  lemma StepAt(spec: Spec, h: seq<Status>, v: nat)
    requires History(spec, h) && 0 < v < |h|
    ensures StatusStep(spec, h[v - 1], h[v])
  {
    HistoryOk(spec, h, v - 1);
    assert Changes(spec, h[v - 1], h[v]);
    ChangeKeepsOk(spec, h[v - 1], h[v]);
  }

  // ---------------------------------------------------------------------------------------
  // The job list

  ghost function ClustersOf(jobs: seq<Job>): set<string> {
    set k | 0 <= k < |jobs| :: jobs[k].cluster
  }

  lemma {:induction false} DistinctClustersCount(jobs: seq<Job>)
    requires DistinctClusters(jobs)
    ensures |ClustersOf(jobs)| == |jobs|
  {
    if jobs != [] {
      var front := jobs[..|jobs| - 1];
      DistinctClustersCount(front);
      assert ClustersOf(jobs) == ClustersOf(front) + {jobs[|jobs| - 1].cluster};
      assert jobs[|jobs| - 1].cluster !in ClustersOf(front);
    } else {
      assert ClustersOf(jobs) == {};
    }
  }

  ghost function TargetClusters(targets: seq<Target>): set<string> {
    set t | 0 <= t < |targets| :: targets[t].cluster
  }

  lemma {:induction false} TargetClustersCount(targets: seq<Target>)
    ensures |TargetClusters(targets)| <= |targets|
  {
    if targets != [] {
      TargetClustersCount(targets[..|targets| - 1]);
      assert TargetClusters(targets) == TargetClusters(targets[..|targets| - 1]) + {targets[|targets| - 1].cluster};
    } else {
      assert TargetClusters(targets) == {};
    }
  }

  /**
   In every stored status the jobs' clusters are pairwise distinct targets, there are never more
   jobs than targets, and no job is marked as being retried.
   */
  lemma JobListInvariant(spec: Spec, h: seq<Status>, v: nat)
    requires History(spec, h) && v < |h|
    ensures DistinctClusters(h[v].jobs) && NoRetrying(h[v].jobs)
    ensures forall k :: 0 <= k < |h[v].jobs| ==> IsTarget(spec, h[v].jobs[k].cluster)
    ensures |h[v].jobs| <= h[v].totalTargets
  {
    HistoryOk(spec, h, v);
    if h[v].phase != OverallUnset {
      var jobs := h[v].jobs;
      var targets :| IsFlattening(spec, targets) && h[v].totalTargets == |targets|;
      DistinctClustersCount(jobs);
      TargetClustersCount(targets);
      forall c | c in ClustersOf(jobs) ensures c in TargetClusters(targets) {
        FlatteningTargets(spec, targets, c);
      }
      SubsetSize(ClustersOf(jobs), TargetClusters(targets));
    }
  }

  // ---------------------------------------------------------------------------------------
  // One job across versions

  lemma JobStepAt(spec: Spec, h: seq<Status>, v: nat, k: nat)
    requires History(spec, h) && 0 < v < |h| && k < |h[v - 1].jobs|
    ensures k < |h[v].jobs|
    ensures JobOk(h[v].jobs[k]) && JobStep(h[v - 1].jobs[k], h[v].jobs[k])
        && Spaced(spec, h[v - 1].jobs[k], h[v].jobs[k])
  {
    StepAt(spec, h, v);
    HistoryOk(spec, h, v);
  }

  ghost predicate KeepsJob(spec: Spec, k: nat, cluster: string, s: Status) {
    StoredOk(spec, s) && k < |s.jobs| && s.jobs[k].cluster == cluster
  }

  lemma ChangeKeepsJob(spec: Spec, k: nat, cluster: string, a: Status, b: Status)
    requires KeepsJob(spec, k, cluster, a) && Changes(spec, a, b)
    ensures KeepsJob(spec, k, cluster, b)
  {
    ChangeKeepsOk(spec, a, b);
    assert JobStep(a.jobs[k], b.jobs[k]);
  }

  /** Later versions keep every job at its position. */
  lemma JobsStay(spec: Spec, h: seq<Status>, u: nat, v: nat, k: nat)
    requires History(spec, h) && u <= v < |h| && k < |h[u].jobs|
    ensures k < |h[v].jobs| && h[v].jobs[k].cluster == h[u].jobs[k].cluster
  {
    HistoryOk(spec, h, u);
    var cluster := h[u].jobs[k].cluster;
    forall a, b | KeepsJob(spec, k, cluster, a) && Changes(spec, a, b) ensures KeepsJob(spec, k, cluster, b) {
      ChangeKeepsJob(spec, k, cluster, a, b);
    }
    ChainKeeps(spec, s => KeepsJob(spec, k, cluster, s), h, u, v);
  }

  /** Once a stored status requests a job's cancellation, the job never gets another attempt. */
  lemma CancelledJobFrozen(spec: Spec, h: seq<Status>, u: nat, v: nat, k: nat)
    requires History(spec, h) && u <= v < |h| && k < |h[u].jobs| && h[u].jobs[k].cancelRequested
    ensures k < |h[v].jobs| && h[v].jobs[k].cancelRequested
    ensures h[v].jobs[k].jobId == h[u].jobs[k].jobId && h[v].jobs[k].podName == h[u].jobs[k].podName
    ensures h[v].jobs[k].retryCount == h[u].jobs[k].retryCount
  {
    var track := TrackExists(spec, h, k, u, v);
    FrozenTrack(track);
    assert h[u].jobs[k] == track[0] && h[v].jobs[k] == track[v - u];
  }

  lemma {:induction false} FrozenTrack(track: seq<Job>)
    requires track != [] && track[0].cancelRequested
    requires forall i :: 0 < i < |track| ==> JobStep(track[i - 1], track[i])
    ensures track[|track| - 1].cancelRequested && SameAttempt(track[0], track[|track| - 1])
  {
    if |track| > 1 {
      FrozenTrack(track[..|track| - 1]);
      assert JobStep(track[|track| - 2], track[|track| - 1]);
    }
  }

  /** A succeeded, cancelled or given-up job never changes again, except for the cancel flag. */
  lemma ClosedJobStays(spec: Spec, h: seq<Status>, u: nat, v: nat, k: nat)
    requires History(spec, h) && u <= v < |h| && k < |h[u].jobs| && Closed(h[u].jobs[k].phase)
    ensures k < |h[v].jobs|
    ensures h[v].jobs[k] == h[u].jobs[k] || h[v].jobs[k] == h[u].jobs[k].(cancelRequested := true)
  {
    var track := TrackExists(spec, h, k, u, v);
    ClosedTrack(track);
    assert h[u].jobs[k] == track[0] && h[v].jobs[k] == track[v - u];
  }

  lemma {:induction false} ClosedTrack(track: seq<Job>)
    requires track != [] && Closed(track[0].phase)
    requires forall i :: 0 < i < |track| ==> JobStep(track[i - 1], track[i])
    ensures track[|track| - 1] == track[0] || track[|track| - 1] == track[0].(cancelRequested := true)
  {
    if |track| > 1 {
      ClosedTrack(track[..|track| - 1]);
      assert JobStep(track[|track| - 2], track[|track| - 1]);
    }
  }

  /** Job `k` in the versions from `u` to `v`. */
  ghost predicate Track(spec: Spec, h: seq<Status>, k: nat, u: nat, v: nat, track: seq<Job>) {
    && u <= v < |h| && |track| == v - u + 1
    && (forall w :: u <= w <= v ==> k < |h[w].jobs| && h[w].jobs[k] == track[w - u])
    && (forall i :: 0 <= i < |track| ==> JobOk(track[i]))
    && (forall i :: 0 < i < |track| ==> JobStep(track[i - 1], track[i]) && Spaced(spec, track[i - 1], track[i]))
  }

  lemma TrackExtended(spec: Spec, h: seq<Status>, k: nat, u: nat, v: nat, before: seq<Job>)
    requires u < v < |h| && Track(spec, h, k, u, v - 1, before) && k < |h[v].jobs|
    requires JobOk(h[v].jobs[k]) && JobStep(h[v - 1].jobs[k], h[v].jobs[k])
        && Spaced(spec, h[v - 1].jobs[k], h[v].jobs[k])
    ensures Track(spec, h, k, u, v, before + [h[v].jobs[k]])
  {
  }

  lemma {:induction false} TrackExists(spec: Spec, h: seq<Status>, k: nat, u: nat, v: nat) returns (track: seq<Job>)
    requires History(spec, h) && u <= v < |h| && k < |h[u].jobs|
    ensures Track(spec, h, k, u, v, track)
    decreases v
  {
    if u == v {
      track := [h[v].jobs[k]];
      HistoryOk(spec, h, v);
    } else {
      var before := TrackExists(spec, h, k, u, v - 1);
      JobStepAt(spec, h, v, k);
      TrackExtended(spec, h, k, u, v, before);
      track := before + [h[v].jobs[k]];
    }
  }

  /** How often the attempt of a job (its ID or pod) changes along a track. */
  ghost function NewAttempts(track: seq<Job>): nat {
    if |track| <= 1 then 0
    else
      var a, b := track[|track| - 2], track[|track| - 1];
      NewAttempts(track[..|track| - 1]) + (if b.jobId != a.jobId || b.podName != a.podName then 1 else 0)
  }

  lemma {:induction false} AttemptsPaid(track: seq<Job>)
    requires track != []
    requires forall i :: 0 < i < |track| ==> JobStep(track[i - 1], track[i])
    ensures track[|track| - 1].retryCount >= track[0].retryCount + NewAttempts(track)
    ensures track[0].maxRetries != 0 ==> track[|track| - 1].maxRetries == track[0].maxRetries
  {
    if |track| > 1 {
      AttemptsPaid(track[..|track| - 1]);
      assert JobStep(track[|track| - 2], track[|track| - 1]);
    }
  }

  /**
   Retries are bounded: the retry count never exceeds the job's maximum, which never changes once
   set, and every change of attempt is paid for by an increment of the retry count. So from any
   version on, at most `maxRetries - retryCount` further attempts are ever made.
   */
  lemma RetriesBounded(spec: Spec, h: seq<Status>, k: nat, u: nat, v: nat) returns (track: seq<Job>)
    requires History(spec, h) && u <= v < |h| && k < |h[u].jobs|
    ensures Track(spec, h, k, u, v, track)
    ensures h[u].jobs[k].maxRetries != 0 ==> h[v].jobs[k].maxRetries == h[u].jobs[k].maxRetries
    ensures h[u].jobs[k].retryCount + NewAttempts(track) <= h[v].jobs[k].retryCount
    ensures h[v].jobs[k].retryCount <= (if h[v].jobs[k].maxRetries > 0 then h[v].jobs[k].maxRetries else 0)
  {
    track := TrackExists(spec, h, k, u, v);
    AttemptsPaid(track);
    assert h[u].jobs[k] == track[0] && h[v].jobs[k] == track[v - u];
    assert JobOk(track[v - u]);
  }

  // ---------------------------------------------------------------------------------------
  // Backoff over runs

  /** The delays are the exponential ones of a base delay, given in the specification or left to the default. */
  ghost predicate Exponential(spec: Spec, base: int) {
    exists delay :: base == BaseDelay(delay) && forall r: nat :: spec.delayAfter(r) == RetryDelay(r, true, delay)
  }

  lemma RunSpecExponential(targets: map<string, seq<string>>, maxRetries: int, delay: Option<int>)
    ensures Exponential(RunSpec(targets, maxRetries, true, delay), BaseDelay(delay))
  {
    var spec := RunSpec(targets, maxRetries, true, delay);
    assert forall r: nat :: spec.delayAfter(r) == RetryDelay(r, true, delay);
  }

  lemma ExponentialDelay(spec: Spec, base: int, r: nat)
    requires Exponential(spec, base)
    ensures spec.delayAfter(r) == RetryDelay(r, true, Some(base))
  {
    var delay :| base == BaseDelay(delay) && forall r: nat :: spec.delayAfter(r) == RetryDelay(r, true, delay);
  }

  lemma GapSum(base: int, p: int)
    ensures base * (p - 2) + base * p == base * (2 * p - 2)
  {
  }

  /** Between two versions of a retried job nothing happened, or one more retry after its delay. */
  ghost predicate Gap(base: int, a: Job, b: Job) {
    && a.retryCount > 0 && b.retryCount > 0 && a.lastRetryTime.Some? && b.lastRetryTime.Some?
    && (|| (b.retryCount == a.retryCount && b.lastRetryTime == a.lastRetryTime)
        || (b.retryCount == a.retryCount + 1
            && b.lastRetryTime.value - a.lastRetryTime.value >= base * Pow2(a.retryCount)))
  }

  lemma {:induction false} GapsAddUp(base: int, track: seq<Job>)
    requires 0 <= base && track != [] && track[0].retryCount == 1 && track[0].lastRetryTime.Some?
    requires forall i :: 0 < i < |track| ==> Gap(base, track[i - 1], track[i])
    ensures var last := track[|track| - 1];
            && last.retryCount > 0 && last.lastRetryTime.Some?
            && last.lastRetryTime.value - track[0].lastRetryTime.value >= base * (Pow2(last.retryCount) - 2)
  {
    var n := |track| - 1;
    if n > 0 {
      GapsAddUp(base, track[..n]);
      assert Gap(base, track[n - 1], track[n]);
      GapSum(base, Pow2(track[n - 1].retryCount));
    }
  }

  lemma RetryStepWaits(spec: Spec, a: Job, b: Job, base: int)
    requires Exponential(spec, base) && 0 <= base < TWO_63
    requires a.retryCount > 0 && JobOk(a) && JobOk(b) && JobStep(a, b) && Spaced(spec, a, b)
    requires b.retryCount == a.retryCount + 1 ==> base * Pow2(a.retryCount) < TWO_63
    ensures Gap(base, a, b)
  {
    if b.retryCount == a.retryCount + 1 {
      ExponentialDelay(spec, base, a.retryCount);
      DelayExactIff(a.retryCount, base);
    }
  }

  lemma {:induction false} CountsGrow(track: seq<Job>, i: nat, j: nat)
    requires i <= j < |track| && forall n :: 0 < n < |track| ==> JobStep(track[n - 1], track[n])
    ensures track[i].retryCount <= track[j].retryCount
    decreases j
  {
    if i < j {
      CountsGrow(track, i, j - 1);
      assert JobStep(track[j - 1], track[j]);
    }
  }

  lemma EarlierDelayFits(base: int, r: nat, m: nat)
    requires 0 <= base && r < m && base * Pow2(m) < 2 * TWO_63
    ensures base * Pow2(r) < TWO_63
  {
    Pow2Monotone(r + 1, m);
    ProductMonotone(base, Pow2(r + 1), Pow2(m));
    ProductOfDouble(base, Pow2(r));
  }

  lemma ProductMonotone(base: int, p: int, q: int)
    requires 0 <= base && p <= q
    ensures base * p <= base * q
  {
  }

  lemma ProductOfDouble(base: int, p: int)
    ensures base * (2 * p) == 2 * (base * p)
  {
  }

  /**
   Under exponential backoff the m-th retry comes at least `base * (2^m - 2)` after the first one,
   as long as the last delay used, `base * 2^(m-1)`, fits in 64 bits.
   */
  lemma BackoffSpacing(spec: Spec, h: seq<Status>, k: nat, u: nat, v: nat, base: int)
    requires History(spec, h) && u <= v < |h| && k < |h[u].jobs| && k < |h[v].jobs|
    requires Exponential(spec, base) && 0 <= base < TWO_63
    requires h[u].jobs[k].retryCount == 1
    requires h[v].jobs[k].retryCount >= 0 && base * Pow2(h[v].jobs[k].retryCount) < 2 * TWO_63
    ensures h[u].jobs[k].lastRetryTime.Some? && h[v].jobs[k].lastRetryTime.Some?
    ensures var a, b := h[u].jobs[k], h[v].jobs[k];
            b.lastRetryTime.value - a.lastRetryTime.value >= base * (Pow2(b.retryCount) - 2)
  {
    var track := TrackExists(spec, h, k, u, v);
    assert h[u].jobs[k] == track[0] && h[v].jobs[k] == track[v - u];
    TrackGaps(spec, track, base);
    GapsAddUp(base, track);
  }

  /** The versions of a retried job are spaced by its delays. */
  lemma TrackGaps(spec: Spec, track: seq<Job>, base: int)
    requires track != [] && track[0].retryCount > 0
    requires forall i :: 0 <= i < |track| ==> JobOk(track[i])
    requires forall i :: 0 < i < |track| ==> JobStep(track[i - 1], track[i]) && Spaced(spec, track[i - 1], track[i])
    requires Exponential(spec, base) && 0 <= base < TWO_63
    requires track[|track| - 1].retryCount >= 0 && base * Pow2(track[|track| - 1].retryCount) < 2 * TWO_63
    ensures forall i :: 0 < i < |track| ==> Gap(base, track[i - 1], track[i])
    ensures track[0].lastRetryTime.Some?
  {
    CountsPositive(track);
    forall i | 0 < i < |track| ensures Gap(base, track[i - 1], track[i]) {
      GapAt(spec, track, base, i);
    }
  }

  /** Equal counts mean that no retry came in between. */
  lemma {:induction false} SameCountSameTime(base: int, track: seq<Job>)
    requires track != [] && forall i :: 0 < i < |track| ==> Gap(base, track[i - 1], track[i])
    ensures track[0].retryCount <= track[|track| - 1].retryCount
    ensures track[0].retryCount == track[|track| - 1].retryCount ==>
        track[0].lastRetryTime == track[|track| - 1].lastRetryTime
  {
    if |track| > 1 {
      SameCountSameTime(base, track[..|track| - 1]);
      assert Gap(base, track[|track| - 2], track[|track| - 1]);
    }
  }

  lemma {:induction false} OneRetryGap(base: int, track: seq<Job>)
    requires |track| > 1 && forall i :: 0 < i < |track| ==> Gap(base, track[i - 1], track[i])
    requires track[|track| - 1].retryCount == track[0].retryCount + 1
    ensures var first, last := track[0], track[|track| - 1];
            && first.retryCount > 0 && first.lastRetryTime.Some? && last.lastRetryTime.Some?
            && last.lastRetryTime.value - first.lastRetryTime.value >= base * Pow2(first.retryCount)
  {
    var n := |track| - 1;
    SameCountSameTime(base, track[..n]);
    assert Gap(base, track[n - 1], track[n]) && Gap(base, track[0], track[1]);
    if track[n].retryCount == track[n - 1].retryCount {
      OneRetryGap(base, track[..n]);
    }
  }

  /**
   Between any two versions with `r` and `r + 1` retries the later retry comes at least `base * 2^r`
   after the earlier one, as long as that delay fits in 64 bits.
   */
  lemma NextRetryWaits(spec: Spec, h: seq<Status>, k: nat, u: nat, v: nat, base: int)
    requires History(spec, h) && u <= v < |h| && k < |h[u].jobs| && k < |h[v].jobs|
    requires Exponential(spec, base) && 0 <= base < TWO_63
    requires h[u].jobs[k].retryCount > 0 && h[v].jobs[k].retryCount == h[u].jobs[k].retryCount + 1
    requires base * Pow2(h[u].jobs[k].retryCount) < TWO_63
    ensures h[u].jobs[k].lastRetryTime.Some? && h[v].jobs[k].lastRetryTime.Some?
    ensures h[v].jobs[k].lastRetryTime.value - h[u].jobs[k].lastRetryTime.value >= base * Pow2(h[u].jobs[k].retryCount)
  {
    var track := TrackExists(spec, h, k, u, v);
    assert h[u].jobs[k] == track[0] && h[v].jobs[k] == track[v - u];
    ProductOfDouble(base, Pow2(track[0].retryCount));
    TrackGaps(spec, track, base);
    OneRetryGap(base, track);
  }

  lemma CountsPositive(track: seq<Job>)
    requires track != [] && track[0].retryCount > 0
    requires forall i :: 0 <= i < |track| ==> JobOk(track[i])
    requires forall i :: 0 < i < |track| ==> JobStep(track[i - 1], track[i])
    ensures forall i :: 0 <= i < |track| ==> track[i].retryCount >= 1 && track[i].lastRetryTime.Some?
  {
    forall i | 0 <= i < |track| ensures track[i].retryCount >= 1 && track[i].lastRetryTime.Some? {
      CountsGrow(track, 0, i);
      assert JobOk(track[i]);
    }
  }

  lemma GapAt(spec: Spec, track: seq<Job>, base: int, i: nat)
    requires 0 < i < |track| && track[i - 1].retryCount >= 1
    requires JobOk(track[i - 1]) && JobOk(track[i]) && Spaced(spec, track[i - 1], track[i])
    requires forall i :: 0 < i < |track| ==> JobStep(track[i - 1], track[i])
    requires Exponential(spec, base) && 0 <= base < TWO_63
    requires track[|track| - 1].retryCount >= 0 && base * Pow2(track[|track| - 1].retryCount) < 2 * TWO_63
    ensures Gap(base, track[i - 1], track[i])
  {
    CountsGrow(track, i, |track| - 1);
    if track[i].retryCount == track[i - 1].retryCount + 1 {
      EarlierDelayFits(base, track[i - 1].retryCount, track[|track| - 1].retryCount);
    }
    RetryStepWaits(spec, track[i - 1], track[i], base);
  }
}
