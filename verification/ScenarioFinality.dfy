/** What the overall phase of a scenario run means, and exactly when it is final. */
module ScenarioFinality {
  import opened Common
  import opened ScenarioModel
  import opened ScenarioJobs
  import opened ScenarioHistory

  /** The counters partition the jobs. */
  lemma {:induction false} CountsPartition(jobs: seq<Job>)
    ensures SuccessCount(jobs) + FailureCount(jobs) + RunningCount(jobs) + PendingCount(jobs) == |jobs|
  {
    if jobs != [] {
      var front, last := jobs[..|jobs| - 1], jobs[|jobs| - 1];
      CountsPartition(front);
      assert SuccessCount(jobs) == SuccessCount(front) + if last.phase == Succeeded then 1 else 0;
      assert FailureCount(jobs) == FailureCount(front) + if IsFailure(last.phase) then 1 else 0;
      assert RunningCount(jobs) == RunningCount(front) + if last.phase == Running
          || last.phase == Retrying then 1 else 0;
      assert PendingCount(jobs) == PendingCount(front) + if last.phase == Pending then 1 else 0;
    }
  }

  ghost predicate Active(phase: JobPhase) {
    phase == Running || phase == Retrying || phase == Pending
  }

  /** The number of jobs in one of these phases. */
  ghost function JobsIn(phases: set<JobPhase>, jobs: seq<Job>): nat {
    |set k | 0 <= k < |jobs| && jobs[k].phase in phases|
  }

  lemma CountedJobs(p: JobPhase -> bool, phases: set<JobPhase>, jobs: seq<Job>)
    requires forall phase :: p(phase) <==> phase in phases
    ensures CountJobs(p, jobs) == JobsIn(phases, jobs)
  {
    var q := (j: Job) => p(j.phase);
    CountIsSize(q, jobs);
    assert Where(q, jobs) == set k | 0 <= k < |jobs| && jobs[k].phase in phases;
  }

  /** What the counters count. */
  lemma CountersMeaning(status: Status)
    ensures var s := Summarized(status);
            && s.successfulJobs == JobsIn({Succeeded}, status.jobs)
            && s.failedJobs == JobsIn({Failed, Cancelled, MaxRetriesExceeded}, status.jobs)
            && s.runningJobs == JobsIn({Running, Retrying}, status.jobs)
            && s.jobs == status.jobs && s.totalTargets == status.totalTargets
  {
    CountedJobs(p => p == Succeeded, {Succeeded}, status.jobs);
    CountedJobs(p => IsFailure(p), {Failed, Cancelled, MaxRetriesExceeded}, status.jobs);
    CountedJobs(p => p == Running || p == Retrying, {Running, Retrying}, status.jobs);
  }

  /** A result counts as unchanged exactly when it differs in nothing but providers, URLs and images. */
  lemma SameStatusMeaning(a: Status, b: Status)
    ensures SameStatus(a, b) <==>
        && a == b.(jobs := a.jobs) && |a.jobs| == |b.jobs|
        && forall k :: 0 <= k < |a.jobs| ==>
             a.jobs[k] == b.jobs[k].(provider := a.jobs[k].provider, apiUrl := a.jobs[k].apiUrl,
                 image := a.jobs[k].image)
  {
    assert forall x, y: Job :: SameJob(x, y) <==> x == y.(provider := x.provider, apiUrl := x.apiUrl, image := x.image);
  }

  /** The overall phase, read off the jobs without counting. */
  lemma OverallMeaning(jobs: seq<Job>)
    ensures OverallOf(jobs) == OverallPending <==> jobs == []
    ensures OverallOf(jobs) == OverallRunning <==>
        exists k :: 0 <= k < |jobs| && (jobs[k].phase == Running || jobs[k].phase == Retrying
            || jobs[k].phase == Pending)
    ensures OverallOf(jobs) == OverallFailed <==>
        jobs != [] && forall k :: 0 <= k < |jobs| ==>
            jobs[k].phase == Failed || jobs[k].phase == Cancelled || jobs[k].phase == MaxRetriesExceeded
    ensures OverallOf(jobs) == OverallSucceeded <==>
        jobs != [] && forall k :: 0 <= k < |jobs| ==> jobs[k].phase == Succeeded
    ensures OverallOf(jobs) != OverallUnset
  {
    CountsPartition(jobs);
    SuccessAll(jobs);
    FailureAll(jobs);
    ActiveNone(jobs);
  }

  lemma {:induction false} SuccessAll(jobs: seq<Job>)
    ensures SuccessCount(jobs) == |jobs| <==> forall k :: 0 <= k < |jobs| ==> jobs[k].phase == Succeeded
    ensures SuccessCount(jobs) <= |jobs|
  {
    if jobs != [] {
      SuccessAll(jobs[..|jobs| - 1]);
    }
  }

  lemma {:induction false} FailureAll(jobs: seq<Job>)
    ensures FailureCount(jobs) == |jobs| <==> forall k :: 0 <= k < |jobs| ==> IsFailure(jobs[k].phase)
    ensures FailureCount(jobs) <= |jobs|
  {
    if jobs != [] {
      FailureAll(jobs[..|jobs| - 1]);
    }
  }

  lemma {:induction false} ActiveNone(jobs: seq<Job>)
    ensures RunningCount(jobs) + PendingCount(jobs) == 0 <==> forall k :: 0 <= k < |jobs| ==> !Active(jobs[k].phase)
  {
    if jobs != [] {
      ActiveNone(jobs[..|jobs| - 1]);
      assert forall k :: 0 <= k < |jobs| - 1 ==> jobs[..|jobs| - 1][k] == jobs[k];
    }
  }

  ghost predicate AllTargetsHaveJobs(spec: Spec, s: Status) {
    forall c :: IsTarget(spec, c) ==> HasJob(s.jobs, c)
  }

  ghost predicate AllSkipped(jobs: seq<Job>) {
    forall k :: 0 <= k < |jobs| ==> Skipped(jobs[k])
  }

  ghost predicate AllClosed(jobs: seq<Job>) {
    forall k :: 0 <= k < |jobs| ==> Closed(jobs[k].phase)
  }

  /** No pass, whatever it is told, writes anything. */
  ghost predicate Quiescent(spec: Spec, s: Status) {
    forall world: World, after :: IsFlattening(spec, world.targets) ==> !PassWrites(spec, s, world, after)
  }

  lemma NothingLeftIsQuiescent(spec: Spec, s: Status, world: World)
    requires StatusOk(spec, s) && s.phase != OverallUnset && IsFlattening(spec, world.targets)
    requires AllTargetsHaveJobs(spec, s) && AllSkipped(s.jobs)
    ensures Snapshot(s, world) == s && Passed(spec, s, world) == s
  {
    forall t | 0 <= t < |world.targets| ensures HasJob(s.jobs, world.targets[t].cluster) {
      FlatteningTargets(spec, world.targets, world.targets[t].cluster);
    }
    NothingToCreate(s.jobs, world.targets, world.creates);
    SkippedUnchanged(spec, s.jobs, world.checks);
  }

  lemma SkippedUnchanged(spec: Spec, jobs: seq<Job>, checks: seq<JobCheck>)
    requires NoRetrying(jobs) && AllSkipped(jobs)
    ensures CheckJobs(spec, jobs, checks, |jobs|) == jobs
  {
    ChecksPointwise(spec, jobs, checks, |jobs|);
  }

  lemma {:induction false} FailedCreatesDoNothing(jobs: seq<Job>, targets: seq<Target>)
    ensures CreateMissing(jobs, targets, []) == jobs
  {
    if targets != [] {
      FailedCreatesDoNothing(jobs, targets[..|targets| - 1]);
    }
  }

  ghost function AnyFlattening(spec: Spec): (targets: seq<Target>)
    ensures IsFlattening(spec, targets)
  {
    Flatten(spec.targets, EnumerationOf(spec.targets.Keys))
  }

  const POD_DONE := JobCheck(Found(PodSucceeded, None, "", ""), 0, CreateFailed(""))

  /** A world in which no create works and every pod is found succeeded. */
  ghost function AllPodsDone(spec: Spec, s: Status): World {
    World(AnyFlattening(spec), [], seq(|s.jobs|, _ => POD_DONE))
  }

  lemma PodDoneSucceeds(spec: Spec, job: Job)
    ensures NextJob(spec, job, POD_DONE).phase == if Skipped(job) then job.phase else Succeeded
  {
  }

  lemma PodsDone(spec: Spec, s: Status)
    requires StatusOk(spec, s)
    ensures var after := Passed(spec, s, AllPodsDone(spec, s));
            && Snapshot(s, AllPodsDone(spec, s)) == s
            && |after.jobs| == |s.jobs|
            && forall k :: 0 <= k < |s.jobs| ==>
                 after.jobs[k].phase == if Skipped(s.jobs[k]) then s.jobs[k].phase else Succeeded
  {
    var world := AllPodsDone(spec, s);
    var after := Passed(spec, s, world).jobs;
    assert Snapshot(s, world) == s by {
      FailedCreatesDoNothing(s.jobs, world.targets);
    }
    assert after == CheckJobs(spec, s.jobs, world.checks, |s.jobs|);
    ChecksDone(spec, s.jobs, world.checks);
  }

  lemma ChecksDone(spec: Spec, jobs: seq<Job>, checks: seq<JobCheck>)
    requires NoRetrying(jobs) && |checks| == |jobs| && forall k :: 0 <= k < |checks| ==> checks[k] == POD_DONE
    ensures var after := CheckJobs(spec, jobs, checks, |jobs|);
            && |after| == |jobs|
            && forall k :: 0 <= k < |jobs| ==> after[k].phase == if Skipped(jobs[k]) then jobs[k].phase else Succeeded
  {
    var after := CheckJobs(spec, jobs, checks, |jobs|);
    ChecksPointwise(spec, jobs, checks, |jobs|);
    forall k | 0 <= k < |jobs| ensures after[k].phase == if Skipped(jobs[k]) then jobs[k].phase else Succeeded {
      assert after[k] == NextJob(spec, jobs[k], POD_DONE);
      PodDoneSucceeds(spec, jobs[k]);
    }
  }

  lemma UnskippedJobMoves(spec: Spec, s: Status, k: nat)
    requires StatusOk(spec, s) && k < |s.jobs| && !Skipped(s.jobs[k])
    ensures PassWrites(spec, s, AllPodsDone(spec, s), Passed(spec, s, AllPodsDone(spec, s)))
  {
    PodsDone(spec, s);
    var after := Passed(spec, s, AllPodsDone(spec, s));
    assert after.jobs[k].phase != s.jobs[k].phase;
    assert !SameJob(s.jobs[k], after.jobs[k]);
  }

  /** Creates that work for one cluster only. */
  ghost function CreatesFor(targets: seq<Target>, cluster: string): seq<CreateResult> {
    seq(|targets|, i requires 0 <= i < |targets| =>
      if targets[i].cluster == cluster then Created("id", "", "", 0) else CreateFailed(""))
  }

  lemma {:induction false} OneJobCreated(jobs: seq<Job>, targets: seq<Target>, creates: seq<CreateResult>,
      cluster: string)
    requires NoRetrying(jobs) && !HasJob(jobs, cluster) && |targets| <= |creates|
    requires forall i :: 0 <= i < |targets| ==>
      if targets[i].cluster == cluster then creates[i] == Created("id", "", "", 0) else creates[i].CreateFailed?
    ensures var after := CreateMissing(jobs, targets, creates);
            if exists t :: 0 <= t < |targets| && targets[t].cluster == cluster
            then |after| == |jobs| + 1 && after[..|jobs|] == jobs && after[|jobs|].cluster == cluster
                && after[|jobs|].phase == Pending
            else after == jobs
  {
    if targets != [] {
      var n := |targets| - 1;
      var before := CreateMissing(jobs, targets[..n], creates);
      OneJobCreated(jobs, targets[..n], creates, cluster);
      CreationAppends(jobs, targets[..n], creates);
      JobExistsIsHasJob(before, targets[n].cluster);
      if t :| 0 <= t < n && targets[..n][t].cluster == cluster {
        assert targets[t].cluster == cluster;
        assert HasJob(before, cluster);
      }
      if t :| 0 <= t < n && targets[t].cluster == cluster {
        assert targets[..n][t].cluster == cluster;
      }
      assert RetryIndex(before, targets[n].cluster).None?;
    }
  }

  lemma MissingTargetStarts(spec: Spec, s: Status, cluster: string) returns (world: World)
    requires StatusOk(spec, s) && s.phase != OverallUnset && s.phase != OverallRunning
    requires IsTarget(spec, cluster) && !HasJob(s.jobs, cluster)
    ensures IsFlattening(spec, world.targets) && world.checks == []
    ensures Passed(spec, s, world).phase == OverallRunning
    ensures PassWrites(spec, s, world, Passed(spec, s, world))
  {
    var targets := AnyFlattening(spec);
    world := World(targets, CreatesFor(targets, cluster), []);
    FlatteningTargets(spec, targets, cluster);
    OneJobCreated(s.jobs, targets, world.creates, cluster);
    var jobs := Snapshot(s, world).jobs;
    CreationAppends(s.jobs, targets, world.creates);
    ChecksPointwise(spec, jobs, world.checks, |jobs|);
    var after := Passed(spec, s, world);
    assert after.jobs[|s.jobs|] == jobs[|s.jobs|];
    OverallMeaning(after.jobs);
    assert Active(after.jobs[|s.jobs|].phase);
  }

  /**
   Exactly when a scenario run is at rest: no pass can change its status if and only if every
   target cluster has a job and every job is closed, or failed with no retry left.
   */
  lemma QuiescentIff(spec: Spec, s: Status)
    requires StatusOk(spec, s) && s.phase != OverallUnset
    ensures Quiescent(spec, s) <==> AllTargetsHaveJobs(spec, s) && AllSkipped(s.jobs)
  {
    if AllTargetsHaveJobs(spec, s) && AllSkipped(s.jobs) {
      AtRestIsQuiescent(spec, s);
    } else if k :| 0 <= k < |s.jobs| && !Skipped(s.jobs[k]) {
      UnskippedJobMoves(spec, s, k);
    } else {
      var c :| IsTarget(spec, c) && !HasJob(s.jobs, c);
      AllSkippedNotRunning(s.jobs);
      var world := MissingTargetStarts(spec, s, c);
    }
  }

  lemma AtRestIsQuiescent(spec: Spec, s: Status)
    requires StatusOk(spec, s) && s.phase != OverallUnset
    requires AllTargetsHaveJobs(spec, s) && AllSkipped(s.jobs)
    ensures Quiescent(spec, s)
  {
    forall world: World, after | IsFlattening(spec, world.targets) ensures !PassWrites(spec, s, world, after) {
      NothingLeftIsQuiescent(spec, s, world);
    }
  }

  lemma AllSkippedNotRunning(jobs: seq<Job>)
    requires AllSkipped(jobs)
    ensures OverallOf(jobs) != OverallRunning
  {
    OverallMeaning(jobs);
  }

  /** Overall Succeeded is judged on the recorded jobs; it is stable exactly when every target has one. */
  lemma SucceededStaysIff(spec: Spec, s: Status)
    requires StatusOk(spec, s) && s.phase == OverallSucceeded
    ensures (forall b :: Changes(spec, s, b) ==> b.phase == OverallSucceeded) <==> AllTargetsHaveJobs(spec, s)
  {
    OverallMeaning(s.jobs);
    if AllTargetsHaveJobs(spec, s) {
      QuiescentIff(spec, s);
      forall b | Changes(spec, s, b) ensures b.phase == OverallSucceeded {
      }
    } else {
      var c :| IsTarget(spec, c) && !HasJob(s.jobs, c);
      var world := MissingTargetStarts(spec, s, c);
      assert Changes(spec, s, Passed(spec, s, world));
    }
  }

  // ---------------------------------------------------------------------------------------
  // Settled runs

  ghost predicate Settled(spec: Spec, s: Status) {
    s.phase != OverallUnset && AllTargetsHaveJobs(spec, s) && AllClosed(s.jobs)
  }

  ghost predicate SameUpToCancel(a: Status, b: Status) {
    && a.phase == b.phase && a.successfulJobs == b.successfulJobs && a.failedJobs == b.failedJobs
        && a.runningJobs == b.runningJobs
    && |a.jobs| == |b.jobs|
    && forall k :: 0 <= k < |a.jobs| ==> b.jobs[k] == a.jobs[k] || b.jobs[k] == a.jobs[k].(cancelRequested := true)
  }

  lemma SettledStep(spec: Spec, a: Status, b: Status)
    requires StatusOk(spec, a) && Settled(spec, a) && Changes(spec, a, b)
    ensures Settled(spec, b) && SameUpToCancel(a, b)
  {
    AtRestIsQuiescent(spec, a);
    var jobId := QuiescentOnlyCancels(spec, a, b);
    CancelKeepsTargets(spec, a, jobId, b);
  }

  lemma QuiescentOnlyCancels(spec: Spec, a: Status, b: Status) returns (jobId: string)
    requires a.phase != OverallUnset && Quiescent(spec, a) && Changes(spec, a, b)
    ensures CancelWrites(a, jobId, b)
  {
    jobId :| CancelWrites(a, jobId, b);
  }

  lemma CancelKeepsTargets(spec: Spec, a: Status, jobId: string, b: Status)
    requires Settled(spec, a) && CancelWrites(a, jobId, b)
    ensures Settled(spec, b) && SameUpToCancel(a, b)
  {
    forall c | IsTarget(spec, c) ensures HasJob(b.jobs, c) {
      var i :| 0 <= i < |a.jobs| && a.jobs[i].cluster == c;
      assert b.jobs[i].cluster == c;
    }
  }

  lemma SameUpToCancelTransitive(a: Status, b: Status, c: Status)
    requires SameUpToCancel(a, b) && SameUpToCancel(b, c)
    ensures SameUpToCancel(a, c)
  {
  }

  /** A settled status that differs from `a` in cancel flags only. */
  ghost predicate SettledLike(spec: Spec, a: Status, s: Status) {
    StoredOk(spec, s) && Settled(spec, s) && SameUpToCancel(a, s)
  }

  lemma ChangeKeepsSettled(spec: Spec, a: Status, s: Status, s': Status)
    requires SettledLike(spec, a, s) && Changes(spec, s, s')
    ensures SettledLike(spec, a, s')
  {
    ChangeKeepsOk(spec, s, s');
    SettledStep(spec, s, s');
    SameUpToCancelTransitive(a, s, s');
  }

  /**
   Once every target has a closed job nothing changes any more but cancel flags, in particular not the
   overall phase.
   */
  lemma SettledStays(spec: Spec, h: seq<Status>, u: nat, v: nat)
    requires History(spec, h) && u <= v < |h| && Settled(spec, h[u])
    ensures Settled(spec, h[v]) && SameUpToCancel(h[u], h[v])
  {
    HistoryOk(spec, h, u);
    forall s, s' | SettledLike(spec, h[u], s) && Changes(spec, s, s') ensures SettledLike(spec, h[u], s') {
      ChangeKeepsSettled(spec, h[u], s, s');
    }
    ChainKeeps(spec, s => SettledLike(spec, h[u], s), h, u, v);
  }
}
