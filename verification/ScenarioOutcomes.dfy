/**
 Where a failed scenario run can still go, over any number of passes and cancel requests, when a pod
 that has ended stays as it ended.
 */
module ScenarioOutcomes {
  import opened Common
  import opened ScenarioModel
  import opened ScenarioJobs
  import opened ScenarioHistory
  import opened ScenarioFinality
  import Store

  datatype PodEnd = EndedWell | EndedBadly

  /** The stored status, and the pods (by job ID) that have ended. */
  datatype Observed = Observed(status: Status, ended: map<string, PodEnd>)

  // ---------------------------------------------------------------------------------------
  // What passes are told

  /**
   A pod may be absent or unreadable at any time; when it is found, an ended one is found as it
   ended and any other is found in a phase that is not final.
   */
  predicate Told(ended: map<string, PodEnd>, jobId: string, pod: PodLookup) {
    pod.Found? ==>
      match pod.phase
      case PodSucceeded => jobId in ended && ended[jobId] == EndedWell
      case PodFailed => jobId in ended && ended[jobId] == EndedBadly
      case _ => jobId !in ended
  }

  /** Skipped jobs' pods are not looked up. */
  ghost predicate ToldAll(ended: map<string, PodEnd>, jobs: seq<Job>, checks: seq<JobCheck>) {
    forall k :: 0 <= k < |jobs| && !Skipped(jobs[k]) ==> Told(ended, jobs[k].jobId, CheckAt(checks, k).pod)
  }

  /** Each job goes through its own check. */
  ghost predicate Checked(spec: Spec, before: seq<Job>, checks: seq<JobCheck>, after: seq<Job>) {
    && |after| == |before|
    && forall k :: 0 <= k < |before| ==> after[k] == NextJob(spec, before[k], CheckAt(checks, k))
  }

  ghost predicate MoreEnded(a: map<string, PodEnd>, b: map<string, PodEnd>) {
    forall id :: id in a ==> id in b && b[id] == a[id]
  }

  ghost predicate ObservedPass(spec: Spec, a: Observed, world: World, b: Observed) {
    && a.status.phase != OverallUnset && IsFlattening(spec, world.targets)
    && ToldAll(a.ended, Snapshot(a.status, world).jobs, world.checks)
    && PassWrites(spec, a.status, world, b.status) && b.ended == a.ended
  }

  /** Pods end, the run is started, a pass writes, or a cancellation is requested. */
  datatype Move = PodsEnd | Start(targets: seq<Target>) | Pass(world: World) | Cancel(jobId: string)

  ghost predicate Does(spec: Spec, a: Observed, move: Move, b: Observed) {
    match move
    case PodsEnd => b.status == a.status && MoreEnded(a.ended, b.ended)
    case Start(targets) =>
      a.status.phase == OverallUnset && IsFlattening(spec, targets) && b == a.(status := Started(a.status, targets))
    case Pass(world) => ObservedPass(spec, a, world, b)
    case Cancel(jobId) => CancelWrites(a.status, jobId, b.status) && b.ended == a.ended
  }

  ghost predicate ObservedStep(spec: Spec, a: Observed, b: Observed) {
    exists move :: Does(spec, a, move, b)
  }

  ghost function Steps(spec: Spec): Store.Change<Observed> {
    (a, b) => ObservedStep(spec, a, b)
  }

  lemma StepBy(spec: Spec, a: Observed, move: Move, b: Observed)
    requires Does(spec, a, move, b)
    ensures Steps(spec)(a, b)
  {
  }

  /** Forgetting the pods, these are changes of the stored status, or none. */
  lemma ObservedChanges(spec: Spec, a: Observed, move: Move, b: Observed)
    requires Does(spec, a, move, b)
    ensures if move.PodsEnd? then b.status == a.status else Changes(spec, a.status, b.status)
    ensures MoreEnded(a.ended, b.ended)
  {
    if move.Pass? {
      assert IsFlattening(spec, move.world.targets) && PassWrites(spec, a.status, move.world, b.status);
    }
  }

  lemma MoveStored(spec: Spec, a: Observed, move: Move, b: Observed)
    requires StoredOk(spec, a.status) && Does(spec, a, move, b)
    ensures StoredOk(spec, b.status)
  {
    ObservedChanges(spec, a, move, b);
    if !move.PodsEnd? {
      ChangeKeepsOk(spec, a.status, b.status);
    }
  }

  // ---------------------------------------------------------------------------------------
  // What the status shows of its pods

  /** The job is recorded as failed for a reason other than a missing or unknown pod. */
  predicate ShownFailed(job: Job) {
    job.phase == Failed && job.message != PodNotFoundMessage && job.message != PodUnknownMessage
  }

  predicate KnownFailed(ended: map<string, PodEnd>, job: Job) {
    job.jobId in ended && ended[job.jobId] == EndedBadly
  }

  ghost predicate ShownIsKnown(o: Observed) {
    forall k :: 0 <= k < |o.status.jobs| && ShownFailed(o.status.jobs[k]) ==> KnownFailed(o.ended, o.status.jobs[k])
  }

  lemma CheckShowsKnown(spec: Spec, ended: map<string, PodEnd>, job: Job, check: JobCheck)
    requires ShownFailed(job) ==> KnownFailed(ended, job)
    requires !Skipped(job) ==> Told(ended, job.jobId, check.pod)
    ensures var next := NextJob(spec, job, check); ShownFailed(next) ==> KnownFailed(ended, next)
  {
  }

  lemma PassShowsKnown(spec: Spec, a: Observed, world: World, b: Observed)
    requires StoredOk(spec, a.status) && ShownIsKnown(a) && ObservedPass(spec, a, world, b)
    ensures ShownIsKnown(b)
  {
    var jobs := Snapshot(a.status, world).jobs;
    PassedJobs(spec, a.status, world);
    forall k | 0 <= k < |b.status.jobs| && ShownFailed(b.status.jobs[k]) ensures KnownFailed(b.ended,
        b.status.jobs[k]) {
      assert k < |a.status.jobs| ==> jobs[k] == a.status.jobs[k];
      CheckShowsKnown(spec, a.ended, jobs[k], CheckAt(world.checks, k));
    }
  }

  ghost predicate Shown(spec: Spec, o: Observed) {
    StoredOk(spec, o.status) && ShownIsKnown(o)
  }

  lemma StepShowsKnown(spec: Spec, a: Observed, b: Observed)
    requires Shown(spec, a) && ObservedStep(spec, a, b)
    ensures Shown(spec, b)
  {
    var move :| Does(spec, a, move, b);
    MoveStored(spec, a, move, b);
    if move.Pass? {
      PassShowsKnown(spec, a, move.world, b);
    }
  }

  /**
   From a fresh object on, a job recorded as failed by its pod, or by a retry that could not start, has
   a failed pod.
   */
  lemma RecordedFailuresAreKnown(spec: Spec, a: Observed, b: Observed)
    requires Blank(a.status) && Store.Reaches(Steps(spec), a, b)
    ensures StoredOk(spec, b.status) && ShownIsKnown(b)
  {
    forall s, s' | Shown(spec, s) && Steps(spec)(s, s') ensures Shown(spec, s') {
      StepShowsKnown(spec, s, s');
    }
    Store.ReachableKeeps(Steps(spec), o => Shown(spec, o), a, b);
  }

  // ---------------------------------------------------------------------------------------
  // Jobs that can only fail

  /** The next failure of this job's pod leads to a retry, once the backoff is over. */
  ghost predicate Retryable(spec: Spec, job: Job) {
    && job.phase == Failed && !Skipped(job) && !job.cancelRequested
    && job.retryCount < EffectiveMax(spec, job) && job.provider != "" && job.cluster != ""
  }

  /** A job that stays a failure: closed as one, or its pod has failed and no retry will follow. */
  ghost predicate Hopeless(spec: Spec, ended: map<string, PodEnd>, job: Job) {
    || (Closed(job.phase) && job.phase != Succeeded)
    || (job.phase == Failed && KnownFailed(ended, job) && !Retryable(spec, job))
  }

  lemma HopelessIsFailure(spec: Spec, ended: map<string, PodEnd>, job: Job)
    requires Hopeless(spec, ended, job)
    ensures IsFailure(job.phase)
  {
  }

  /** Whatever it is told, a check leaves such a job as hopeless, with the same attempt ID. */
  lemma CheckKeepsHopeless(spec: Spec, ended: map<string, PodEnd>, job: Job, check: JobCheck)
    requires JobOk(job) && Hopeless(spec, ended, job)
    requires !Skipped(job) ==> Told(ended, job.jobId, check.pod)
    ensures Hopeless(spec, ended, NextJob(spec, job, check)) && NextJob(spec, job, check).jobId == job.jobId
  {
    if !Skipped(job) && check.pod.Found? {
      assert check.pod.phase == PodFailed;
      HopelessFailsAgain(spec, ended, Backfilled(job, check.pod), check);
    }
  }

  lemma HopelessFailsAgain(spec: Spec, ended: map<string, PodEnd>, job: Job, check: JobCheck)
    requires JobOk(job) && Hopeless(spec, ended, job) && !Skipped(job) && check.pod.Found?
    ensures var next := NextAfterFailure(spec, FailedPod(spec, job, check.pod, check.now), check);
            Hopeless(spec, ended, next) && next.jobId == job.jobId
  {
    assert job.cancelRequested || job.provider == "" || job.cluster == "";
  }

  lemma CancelKeepsHopeless(spec: Spec, ended: map<string, PodEnd>, job: Job)
    requires Hopeless(spec, ended, job)
    ensures Hopeless(spec, ended, job.(cancelRequested := true))
  {
  }

  lemma EndsKeepHopeless(spec: Spec, a: map<string, PodEnd>, b: map<string, PodEnd>, job: Job)
    requires Hopeless(spec, a, job) && MoreEnded(a, b)
    ensures Hopeless(spec, b, job)
  {
  }

  // ---------------------------------------------------------------------------------------
  // Overall Failed stays

  /**
   The job may yet run or succeed: by a retry if its pod has failed, and otherwise unless it is skipped
   out of reach of a cancel request.
   */
  ghost predicate MayLeave(spec: Spec, ended: map<string, PodEnd>, jobs: seq<Job>, k: nat)
    requires k < |jobs|
  {
    && !Closed(jobs[k].phase)
    && if KnownFailed(ended, jobs[k]) then Retryable(spec, jobs[k])
       else !Skipped(jobs[k]) || JobIndex(jobs, jobs[k].jobId) == Some(k)
  }

  ghost predicate NoneMayLeave(spec: Spec, ended: map<string, PodEnd>, jobs: seq<Job>) {
    forall k :: 0 <= k < |jobs| ==> !MayLeave(spec, ended, jobs, k)
  }

  ghost predicate FailedForGood(spec: Spec, o: Observed) {
    && StoredOk(spec, o.status) && o.status.phase == OverallFailed
    && AllTargetsHaveJobs(spec, o.status) && NoneMayLeave(spec, o.ended, o.status.jobs)
  }

  lemma {:induction false} SameIdsSameIndex(a: seq<Job>, b: seq<Job>, jobId: string)
    requires |a| == |b| && forall k :: 0 <= k < |a| ==> a[k].jobId == b[k].jobId
    ensures JobIndex(a, jobId) == JobIndex(b, jobId)
  {
    if a != [] {
      SameIdsSameIndex(a[1..], b[1..], jobId);
    }
  }

  /** The position found for an ID is the position found for that position's own ID. */
  lemma FirstIsIndex(jobs: seq<Job>, i: nat)
    requires i < |jobs| && forall j :: 0 <= j < i ==> jobs[j].jobId != jobs[i].jobId
    ensures JobIndex(jobs, jobs[i].jobId) == Some(i)
  {
    var at := JobIndex(jobs, jobs[i].jobId);
    assert at.Some?;
  }

  /** In a failed run that no job may leave, each job is hopeless or skipped behind an earlier job with its ID. */
  ghost predicate Shadowed(jobs: seq<Job>, k: nat)
    requires k < |jobs|
  {
    Skipped(jobs[k]) && JobIndex(jobs, jobs[k].jobId) != Some(k)
  }

  lemma NoneLeavesIff(spec: Spec, ended: map<string, PodEnd>, jobs: seq<Job>)
    requires forall k :: 0 <= k < |jobs| ==> IsFailure(jobs[k].phase)
    ensures NoneMayLeave(spec, ended, jobs) <==>
      forall k :: 0 <= k < |jobs| ==> Hopeless(spec, ended, jobs[k]) || Shadowed(jobs, k)
  {
    forall k | 0 <= k < |jobs| ensures !MayLeave(spec, ended, jobs, k) <==>
        Hopeless(spec, ended, jobs[k]) || Shadowed(jobs, k) {
    }
  }

  lemma ChecksKeepNoneLeaves(spec: Spec, ended: map<string, PodEnd>, jobs: seq<Job>, checks: seq<JobCheck>,
      after: seq<Job>)
    requires IsAllFailure(jobs) && NoneMayLeave(spec, ended, jobs) && ToldAll(ended, jobs, checks)
    requires Checked(spec, jobs, checks, after) && forall k :: 0 <= k < |jobs| ==> JobOk(jobs[k])
    ensures IsAllFailure(after) && NoneMayLeave(spec, ended, after)
  {
    NoneLeavesIff(spec, ended, jobs);
    forall k | 0 <= k < |jobs|
      ensures after[k].jobId == jobs[k].jobId
      ensures Hopeless(spec, ended, after[k]) || (Shadowed(jobs, k) && after[k] == jobs[k])
    {
      assert Hopeless(spec, ended, jobs[k]) || Shadowed(jobs, k);
      if Hopeless(spec, ended, jobs[k]) {
        CheckKeepsHopeless(spec, ended, jobs[k], CheckAt(checks, k));
      }
    }
    forall k | 0 <= k < |jobs| ensures Hopeless(spec, ended, after[k]) || Shadowed(after, k) {
      SameIdsSameIndex(jobs, after, jobs[k].jobId);
    }
    NoneLeavesIff(spec, ended, after);
  }

  lemma PassKeepsFailedForGood(spec: Spec, a: Observed, world: World, b: Observed)
    requires FailedForGood(spec, a) && ObservedPass(spec, a, world, b)
    ensures IsAllFailure(b.status.jobs) && NoneMayLeave(spec, b.ended, b.status.jobs)
        && |b.status.jobs| == |a.status.jobs|
    ensures forall k :: 0 <= k < |a.status.jobs| ==> b.status.jobs[k].cluster == a.status.jobs[k].cluster
  {
    SnapshotUnchanged(spec, a.status, world);
    PassedJobs(spec, a.status, world);
    OverallMeaning(a.status.jobs);
    ChecksKeepNoneLeaves(spec, a.ended, a.status.jobs, world.checks, b.status.jobs);
  }

  ghost predicate IsAllFailure(jobs: seq<Job>) {
    forall k :: 0 <= k < |jobs| ==> IsFailure(jobs[k].phase)
  }

  lemma SnapshotUnchanged(spec: Spec, s: Status, world: World)
    requires StatusOk(spec, s) && IsFlattening(spec, world.targets) && AllTargetsHaveJobs(spec, s)
    ensures Snapshot(s, world) == s
  {
    forall t | 0 <= t < |world.targets| ensures HasJob(s.jobs, world.targets[t].cluster) {
      FlatteningTargets(spec, world.targets, world.targets[t].cluster);
    }
    NothingToCreate(s.jobs, world.targets, world.creates);
  }

  lemma CancelKeepsNoneLeaves(spec: Spec, ended: map<string, PodEnd>, s: Status, jobId: string, s': Status)
    requires IsAllFailure(s.jobs) && NoneMayLeave(spec, ended, s.jobs) && CancelWrites(s, jobId, s')
    ensures IsAllFailure(s'.jobs) && NoneMayLeave(spec, ended, s'.jobs)
  {
    var i := JobIndex(s.jobs, jobId).value;
    FirstIsIndex(s.jobs, i);
    NoneLeavesIff(spec, ended, s.jobs);
    forall k | 0 <= k < |s'.jobs| ensures Hopeless(spec, ended, s'.jobs[k]) || Shadowed(s'.jobs, k) {
      assert Hopeless(spec, ended, s.jobs[k]) || Shadowed(s.jobs, k);
      SameIdsSameIndex(s.jobs, s'.jobs, s.jobs[k].jobId);
      if k == i {
        CancelKeepsHopeless(spec, ended, s.jobs[k]);
      }
    }
    NoneLeavesIff(spec, ended, s'.jobs);
  }

  lemma EndsKeepNoneLeaves(spec: Spec, a: map<string, PodEnd>, b: map<string, PodEnd>, jobs: seq<Job>)
    requires IsAllFailure(jobs) && NoneMayLeave(spec, a, jobs) && MoreEnded(a, b)
    ensures NoneMayLeave(spec, b, jobs)
  {
    NoneLeavesIff(spec, a, jobs);
    forall k | 0 <= k < |jobs| ensures Hopeless(spec, b, jobs[k]) || Shadowed(jobs, k) {
      assert Hopeless(spec, a, jobs[k]) || Shadowed(jobs, k);
    }
    NoneLeavesIff(spec, b, jobs);
  }

  lemma SameClustersSameTargets(spec: Spec, a: Status, b: Status)
    requires AllTargetsHaveJobs(spec, a) && |b.jobs| == |a.jobs|
    requires forall k :: 0 <= k < |a.jobs| ==> b.jobs[k].cluster == a.jobs[k].cluster
    ensures AllTargetsHaveJobs(spec, b)
  {
    forall c | IsTarget(spec, c) ensures HasJob(b.jobs, c) {
      var i :| 0 <= i < |a.jobs| && a.jobs[i].cluster == c;
      assert b.jobs[i].cluster == c;
    }
  }

  /** The jobs decide the rest. */
  lemma FailedForGoodFrom(spec: Spec, a: Observed, b: Observed)
    requires FailedForGood(spec, a) && StoredOk(spec, b.status) && b.status.phase != OverallUnset
    requires IsAllFailure(b.status.jobs) && NoneMayLeave(spec, b.ended, b.status.jobs)
        && |b.status.jobs| == |a.status.jobs|
    requires forall k :: 0 <= k < |a.status.jobs| ==> b.status.jobs[k].cluster == a.status.jobs[k].cluster
    ensures FailedForGood(spec, b)
  {
    OverallMeaning(a.status.jobs);
    OverallMeaning(b.status.jobs);
    SameClustersSameTargets(spec, a.status, b.status);
  }

  lemma FailedForGoodAfterPass(spec: Spec, a: Observed, world: World, b: Observed)
    requires FailedForGood(spec, a) && ObservedPass(spec, a, world, b) && StoredOk(spec, b.status)
    ensures FailedForGood(spec, b)
  {
    PassKeepsFailedForGood(spec, a, world, b);
    FailedForGoodFrom(spec, a, b);
  }

  lemma FailedForGoodAfterCancel(spec: Spec, a: Observed, jobId: string, b: Observed)
    requires FailedForGood(spec, a) && CancelWrites(a.status, jobId, b.status) && b.ended == a.ended
        && StoredOk(spec, b.status)
    ensures FailedForGood(spec, b)
  {
    OverallMeaning(a.status.jobs);
    CancelKeepsNoneLeaves(spec, a.ended, a.status, jobId, b.status);
    CancelKeepsList(a.status, jobId, b.status);
    FailedForGoodFrom(spec, a, b);
  }

  lemma CancelKeepsList(a: Status, jobId: string, b: Status)
    requires CancelWrites(a, jobId, b)
    ensures |b.jobs| == |a.jobs| && b.phase == a.phase
    ensures forall k :: 0 <= k < |a.jobs| ==> b.jobs[k].cluster == a.jobs[k].cluster
  {
  }

  lemma FailedForGoodAfterEnds(spec: Spec, a: Observed, b: Observed)
    requires FailedForGood(spec, a) && b.status == a.status && MoreEnded(a.ended, b.ended)
    ensures FailedForGood(spec, b)
  {
    OverallMeaning(a.status.jobs);
    EndsKeepNoneLeaves(spec, a.ended, b.ended, a.status.jobs);
  }

  lemma StepKeepsFailedForGood(spec: Spec, a: Observed, b: Observed)
    requires FailedForGood(spec, a) && ObservedStep(spec, a, b)
    ensures FailedForGood(spec, b)
  {
    var move :| Does(spec, a, move, b);
    MoveStored(spec, a, move, b);
    match move
    case PodsEnd => FailedForGoodAfterEnds(spec, a, b);
    case Start(_) =>
    case Pass(world) => FailedForGoodAfterPass(spec, a, world, b);
    case Cancel(jobId) => FailedForGoodAfterCancel(spec, a, jobId, b);
  }

  ghost predicate StaysFailed(spec: Spec, o: Observed) {
    forall b :: Store.Reaches(Steps(spec), o, b) ==> b.status.phase == OverallFailed
  }

  lemma FailedForGoodStays(spec: Spec, o: Observed)
    requires FailedForGood(spec, o)
    ensures StaysFailed(spec, o)
  {
    forall b | Store.Reaches(Steps(spec), o, b) ensures b.status.phase == OverallFailed {
      forall s, s' | FailedForGood(spec, s) && Steps(spec)(s, s') ensures FailedForGood(spec, s') {
        StepKeepsFailedForGood(spec, s, s');
      }
      Store.ReachableKeeps(Steps(spec), s => FailedForGood(spec, s), o, b);
    }
  }

  // ---------------------------------------------------------------------------------------
  // Passes that are told chosen answers

  const NO_ANSWER := JobCheck(LookupError, 0, CreateFailed(""))

  /** A pass in which no creation works for a missing target. */
  ghost function WorldOf(spec: Spec, checks: seq<JobCheck>): World {
    World(AnyFlattening(spec), [], checks)
  }

  ghost function After(spec: Spec, s: Status, checks: seq<JobCheck>): Status {
    Passed(spec, s, WorldOf(spec, checks))
  }

  lemma ToldPass(spec: Spec, s: Status, checks: seq<JobCheck>)
    requires StatusOk(spec, s) && s.phase != OverallUnset
    ensures StatusOk(spec, After(spec, s, checks)) && Snapshot(s, WorldOf(spec, checks)) == s
    ensures Checked(spec, s.jobs, checks, After(spec, s, checks).jobs)
    ensures After(spec, s, checks).phase == OverallOf(After(spec, s, checks).jobs)
  {
    var world := WorldOf(spec, checks);
    FailedCreatesDoNothing(s.jobs, world.targets);
    PassKeepsOk(spec, s, world);
    PassedJobs(spec, s, world);
  }

  lemma ToldPassIsStep(spec: Spec, o: Observed, checks: seq<JobCheck>, k: nat)
    requires StatusOk(spec, o.status) && o.status.phase != OverallUnset && ToldAll(o.ended, o.status.jobs, checks)
    requires k < |o.status.jobs| && NextJob(spec, o.status.jobs[k], CheckAt(checks, k)).phase != o.status.jobs[k].phase
    ensures Steps(spec)(o, Observed(After(spec, o.status, checks), o.ended))
  {
    ToldPass(spec, o.status, checks);
    var after := After(spec, o.status, checks);
    assert !SameJob(o.status.jobs[k], after.jobs[k]);
    StepBy(spec, o, Pass(WorldOf(spec, checks)), Observed(after, o.ended));
  }

  lemma EndsStep(spec: Spec, o: Observed, ended: map<string, PodEnd>)
    requires MoreEnded(o.ended, ended)
    ensures Steps(spec)(o, Observed(o.status, ended))
  {
    StepBy(spec, o, PodsEnd, Observed(o.status, ended));
  }

  /** The pod is still found failed, the backoff is over and a new pod is created. */
  ghost function RetryCheck(spec: Spec, job: Job, jobId: string): JobCheck {
    JobCheck(Found(PodFailed, None, "", ""),
             if job.lastRetryTime.Some? then job.lastRetryTime.value + spec.delayAfter(job.retryCount) else 0,
             Created(jobId, "", "", 0))
  }

  lemma RetryableRestarts(spec: Spec, job: Job, jobId: string)
    requires Retryable(spec, job)
    ensures var next := NextJob(spec, job, RetryCheck(spec, job, jobId)); next.phase == Pending && next.jobId == jobId
  {
    var check := RetryCheck(spec, job, jobId);
    var failed := FailedPod(spec, Backfilled(job, check.pod), check.pod, check.now);
    assert failed.maxRetries == EffectiveMax(spec, job) && failed.maxRetries != 0;
    assert ShouldRetry(failed, failed.maxRetries) && !Waiting(spec, failed, check.now);
  }

  // ---------------------------------------------------------------------------------------
  // New job IDs

  ghost predicate Shorter(ids: set<string>, bound: nat) {
    forall id :: id in ids ==> |id| < bound
  }

  lemma {:induction false} LengthBound(ids: set<string>)
    ensures exists bound: nat :: Shorter(ids, bound)
  {
    if ids == {} {
      assert Shorter(ids, 0);
    } else {
      var id :| id in ids;
      LengthBound(ids - {id});
      var rest: nat :| Shorter(ids - {id}, rest);
      assert Shorter(ids, if |id| < rest then rest else |id| + 1);
    }
  }

  ghost function Bound(ids: set<string>): (bound: nat)
    ensures Shorter(ids, bound)
  {
    LengthBound(ids);
    var bound: nat :| Shorter(ids, bound);
    bound
  }

  /** IDs that are not among the given ones, a different one for each `k`. */
  ghost function NewId(ids: set<string>, k: nat): (id: string)
    ensures id !in ids && |id| == Bound(ids) + k
  {
    seq(Bound(ids) + k, _ => 'x')
  }

  // ---------------------------------------------------------------------------------------
  // Leaving overall Failed

  ghost function Only(n: nat, k: nat, check: JobCheck): seq<JobCheck> {
    seq(n, i => if i == k then check else NO_ANSWER)
  }

  /** A pass that hears of one job only, and whose answer ends the job's failure. */
  lemma OneJobLeaves(spec: Spec, o: Observed, k: nat, check: JobCheck) returns (b: Observed)
    requires StatusOk(spec, o.status) && o.status.phase == OverallFailed && k < |o.status.jobs|
    requires !Skipped(o.status.jobs[k]) && Told(o.ended, o.status.jobs[k].jobId, check.pod)
    requires !IsFailure(NextJob(spec, o.status.jobs[k], check).phase)
    ensures Store.Reaches(Steps(spec), o, b) && b.status.phase != OverallFailed
  {
    var checks := Only(|o.status.jobs|, k, check);
    OverallMeaning(o.status.jobs);
    ToldPassIsStep(spec, o, checks, k);
    ToldPass(spec, o.status, checks);
    b := Observed(After(spec, o.status, checks), o.ended);
    OverallMeaning(b.status.jobs);
    Store.ReachesSelf(Steps(spec), o);
    Store.ReachesNext(Steps(spec), o, o, b);
  }

  lemma ReachesAfter(spec: Spec, a: Observed, b: Observed, c: Observed)
    requires Steps(spec)(a, b) && Store.Reaches(Steps(spec), b, c)
    ensures Store.Reaches(Steps(spec), a, c)
  {
    Store.ReachesFrom(Steps(spec), a, b, c);
  }

  /** The pod ends well, if it has not already. */
  lemma UnskippedLeaves(spec: Spec, o: Observed, k: nat) returns (b: Observed)
    requires StatusOk(spec, o.status) && o.status.phase == OverallFailed && k < |o.status.jobs|
    requires !Skipped(o.status.jobs[k]) && MayLeave(spec, o.ended, o.status.jobs, k)
    ensures Store.Reaches(Steps(spec), o, b) && b.status.phase != OverallFailed
  {
    var job := o.status.jobs[k];
    if KnownFailed(o.ended, job) {
      var id := NewId(o.ended.Keys, 0);
      RetryableRestarts(spec, job, id);
      b := OneJobLeaves(spec, o, k, RetryCheck(spec, job, id));
    } else {
      var ended := o.ended[job.jobId := EndedWell];
      EndsStep(spec, o, ended);
      PodDoneSucceeds(spec, job);
      b := OneJobLeaves(spec, Observed(o.status, ended), k, POD_DONE);
      ReachesAfter(spec, o, Observed(o.status, ended), b);
    }
  }

  lemma CancelUnskips(spec: Spec, o: Observed, k: nat)
    requires StatusOk(spec, o.status) && k < |o.status.jobs|
        && JobIndex(o.status.jobs, o.status.jobs[k].jobId) == Some(k)
    ensures var s := CancelledAt(o.status, k);
            Steps(spec)(o, Observed(s, o.ended)) && StatusOk(spec, s) && s.phase == o.status.phase
    ensures !Closed(o.status.jobs[k].phase) ==> !Skipped(CancelledAt(o.status, k).jobs[k])
  {
    CancelKeepsOk(spec, o.status, k);
    StepBy(spec, o, Cancel(o.status.jobs[k].jobId), Observed(CancelledAt(o.status, k), o.ended));
  }

  lemma MayLeaveLeaves(spec: Spec, o: Observed, k: nat) returns (b: Observed)
    requires StatusOk(spec, o.status) && o.status.phase == OverallFailed && k < |o.status.jobs|
    requires MayLeave(spec, o.ended, o.status.jobs, k)
    ensures Store.Reaches(Steps(spec), o, b) && b.status.phase != OverallFailed
  {
    if Skipped(o.status.jobs[k]) {
      CancelUnskips(spec, o, k);
      var c := Observed(CancelledAt(o.status, k), o.ended);
      b := UnskippedLeaves(spec, c, k);
      ReachesAfter(spec, o, c, b);
    } else {
      b := UnskippedLeaves(spec, o, k);
    }
  }

  lemma MissingTargetLeaves(spec: Spec, o: Observed, cluster: string) returns (b: Observed)
    requires StatusOk(spec, o.status) && o.status.phase == OverallFailed
    requires IsTarget(spec, cluster) && !HasJob(o.status.jobs, cluster)
    ensures Store.Reaches(Steps(spec), o, b) && b.status.phase != OverallFailed
  {
    var world := MissingTargetStarts(spec, o.status, cluster);
    b := Observed(Passed(spec, o.status, world), o.ended);
    PassIsStep(spec, o, world, b);
    Store.ReachesSelf(Steps(spec), o);
    Store.ReachesNext(Steps(spec), o, o, b);
  }

  /** A pass that hears of no job at all. */
  lemma PassIsStep(spec: Spec, o: Observed, world: World, b: Observed)
    requires o.status.phase != OverallUnset && IsFlattening(spec, world.targets) && world.checks == []
    requires PassWrites(spec, o.status, world, b.status) && b.ended == o.ended
    ensures Steps(spec)(o, b)
  {
    StepBy(spec, o, Pass(world), b);
  }

  /**
   Overall Failed is final, over every later history in which ended pods stay as they ended, exactly
   when every target has a job and no job may leave its failure.
   */
  lemma FailedStaysIff(spec: Spec, o: Observed)
    requires StatusOk(spec, o.status) && o.status.phase == OverallFailed
    ensures StaysFailed(spec, o) <==> AllTargetsHaveJobs(spec, o.status) && NoneMayLeave(spec, o.ended, o.status.jobs)
  {
    if AllTargetsHaveJobs(spec, o.status) && NoneMayLeave(spec, o.ended, o.status.jobs) {
      FailedForGoodStays(spec, o);
    } else if k :| 0 <= k < |o.status.jobs| && MayLeave(spec, o.ended, o.status.jobs, k) {
      var b := MayLeaveLeaves(spec, o, k);
    } else {
      var c :| IsTarget(spec, c) && !HasJob(o.status.jobs, c);
      var b := MissingTargetLeaves(spec, o, c);
    }
  }

  ghost predicate DistinctIds(jobs: seq<Job>) {
    forall i, j :: 0 <= i < j < |jobs| ==> jobs[i].jobId != jobs[j].jobId
  }

  /** With distinct job IDs, as generated ones are: exactly when every target has a job and every job is hopeless. */
  lemma FailedStaysIffHopeless(spec: Spec, o: Observed)
    requires StatusOk(spec, o.status) && o.status.phase == OverallFailed && DistinctIds(o.status.jobs)
    ensures StaysFailed(spec, o) <==>
      && AllTargetsHaveJobs(spec, o.status)
      && forall k :: 0 <= k < |o.status.jobs| ==> Hopeless(spec, o.ended, o.status.jobs[k])
  {
    FailedStaysIff(spec, o);
    OverallMeaning(o.status.jobs);
    NoneLeavesIff(spec, o.ended, o.status.jobs);
    forall k | 0 <= k < |o.status.jobs| ensures !Shadowed(o.status.jobs, k) {
      FirstIsIndex(o.status.jobs, k);
    }
  }

  // ---------------------------------------------------------------------------------------
  // Reaching overall Succeeded

  ghost predicate CanSucceed(spec: Spec, o: Observed) {
    exists b :: Store.Reaches(Steps(spec), o, b) && b.status.phase == OverallSucceeded
  }

  lemma SucceedsThrough(spec: Spec, a: Observed, b: Observed)
    requires Steps(spec)(a, b) && CanSucceed(spec, b)
    ensures CanSucceed(spec, a)
  {
    var c :| Store.Reaches(Steps(spec), b, c) && c.status.phase == OverallSucceeded;
    Store.ReachesFrom(Steps(spec), a, b, c);
  }

  ghost predicate NoneSkipped(jobs: seq<Job>) {
    forall k :: 0 <= k < |jobs| ==> !Skipped(jobs[k])
  }

  ghost predicate NoneKnownFailed(ended: map<string, PodEnd>, jobs: seq<Job>) {
    forall k :: 0 <= k < |jobs| ==> !KnownFailed(ended, jobs[k])
  }

  /** The pods of all these jobs end well. */
  ghost function AllEndedWell(ended: map<string, PodEnd>, jobs: seq<Job>): map<string, PodEnd> {
    ended + map id | id in IdsOf(jobs) :: EndedWell
  }

  ghost function IdsOf(jobs: seq<Job>): set<string> {
    set k | 0 <= k < |jobs| :: jobs[k].jobId
  }

  lemma EndingWell(ended: map<string, PodEnd>, jobs: seq<Job>)
    requires NoneKnownFailed(ended, jobs)
    ensures MoreEnded(ended, AllEndedWell(ended, jobs))
    ensures ToldAll(AllEndedWell(ended, jobs), jobs, seq(|jobs|, _ => POD_DONE))
  {
    forall id | id in ended ensures AllEndedWell(ended, jobs)[id] == ended[id] {
      if k :| 0 <= k < |jobs| && jobs[k].jobId == id {
        assert !KnownFailed(ended, jobs[k]);
      }
    }
  }

  /** When no pod is known to have failed and no job is skipped, all pods may end well and the next pass finds that. */
  lemma AllEndWell(spec: Spec, o: Observed)
    requires StatusOk(spec, o.status) && o.status.phase != OverallUnset && o.status.jobs != []
    requires NoneSkipped(o.status.jobs) && NoneKnownFailed(o.ended, o.status.jobs)
    ensures CanSucceed(spec, o)
  {
    var jobs := o.status.jobs;
    var checks := seq(|jobs|, _ => POD_DONE);
    var well := Observed(o.status, AllEndedWell(o.ended, jobs));
    EndingWell(o.ended, jobs);
    EndsStep(spec, o, well.ended);
    assert !Skipped(jobs[0]);
    PodDoneSucceeds(spec, jobs[0]);
    ToldPassIsStep(spec, well, checks, 0);
    var done := Observed(After(spec, o.status, checks), well.ended);
    AllFoundDone(spec, o.status);
    Store.ReachesSelf(Steps(spec), done);
    assert CanSucceed(spec, done);
    SucceedsThrough(spec, well, done);
    SucceedsThrough(spec, o, well);
  }

  lemma AllFoundDone(spec: Spec, s: Status)
    requires StatusOk(spec, s) && s.phase != OverallUnset && s.jobs != [] && NoneSkipped(s.jobs)
    ensures After(spec, s, seq(|s.jobs|, _ => POD_DONE)).phase == OverallSucceeded
  {
    var checks := seq(|s.jobs|, _ => POD_DONE);
    ToldPass(spec, s, checks);
    forall k | 0 <= k < |s.jobs| ensures After(spec, s, checks).jobs[k].phase == Succeeded {
      assert !Skipped(s.jobs[k]);
      PodDoneSucceeds(spec, s.jobs[k]);
    }
    OverallMeaning(After(spec, s, checks).jobs);
  }

  /** Each failed pod can be followed by a retry. */
  ghost predicate FailuresRetryable(spec: Spec, ended: map<string, PodEnd>, jobs: seq<Job>) {
    forall k :: 0 <= k < |jobs| && KnownFailed(ended, jobs[k]) ==> Retryable(spec, jobs[k])
  }

  /** The failed pods are found failed after their delay and each gets a new attempt. */
  ghost function RetryChecks(spec: Spec, o: Observed): seq<JobCheck> {
    seq(|o.status.jobs|, k requires 0 <= k < |o.status.jobs| =>
      if KnownFailed(o.ended, o.status.jobs[k]) then RetryCheck(spec, o.status.jobs[k], NewId(o.ended.Keys, k))
      else NO_ANSWER)
  }

  lemma RetriedJob(spec: Spec, o: Observed, k: nat)
    requires k < |o.status.jobs| && FailuresRetryable(spec, o.ended, o.status.jobs)
    ensures var job := o.status.jobs[k]; var next := NextJob(spec, job, CheckAt(RetryChecks(spec, o), k));
            if KnownFailed(o.ended, job) then next.phase == Pending && next.jobId !in o.ended else next == job
    ensures Told(o.ended, o.status.jobs[k].jobId, CheckAt(RetryChecks(spec, o), k).pod)
  {
    if KnownFailed(o.ended, o.status.jobs[k]) {
      RetryableRestarts(spec, o.status.jobs[k], NewId(o.ended.Keys, k));
    }
  }

  lemma RetriedAll(spec: Spec, o: Observed, after: seq<Job>)
    requires FailuresRetryable(spec, o.ended, o.status.jobs) && NoneSkipped(o.status.jobs)
    requires Checked(spec, o.status.jobs, RetryChecks(spec, o), after)
    ensures NoneSkipped(after) && NoneKnownFailed(o.ended, after)
    ensures ToldAll(o.ended, o.status.jobs, RetryChecks(spec, o))
  {
    forall k | 0 <= k < |after|
      ensures !Skipped(after[k]) && !KnownFailed(o.ended, after[k])
      ensures Told(o.ended, o.status.jobs[k].jobId, CheckAt(RetryChecks(spec, o), k).pod)
    {
      assert !Skipped(o.status.jobs[k]);
      RetriedJob(spec, o, k);
    }
  }

  lemma RetriesStart(spec: Spec, o: Observed)
    requires StatusOk(spec, o.status) && o.status.phase == OverallFailed && NoneSkipped(o.status.jobs)
    requires FailuresRetryable(spec, o.ended, o.status.jobs)
    ensures var mid := After(spec, o.status, RetryChecks(spec, o));
            && StatusOk(spec, mid) && mid.phase != OverallUnset && |mid.jobs| == |o.status.jobs|
            && NoneSkipped(mid.jobs) && NoneKnownFailed(o.ended, mid.jobs)
    ensures ToldAll(o.ended, o.status.jobs, RetryChecks(spec, o))
  {
    ToldPass(spec, o.status, RetryChecks(spec, o));
    RetriedAll(spec, o, After(spec, o.status, RetryChecks(spec, o)).jobs);
  }

  /**
   The way jobs waiting for backoff go on: a pass that finds their failed pods after the delay starts
   new ones under new IDs, and when all pods end well the pass after that writes overall Succeeded.
   */
  lemma RetryThenSuccess(spec: Spec, o: Observed, k: nat) returns (mid: Observed)
    requires StatusOk(spec, o.status) && o.status.phase == OverallFailed && NoneSkipped(o.status.jobs)
    requires FailuresRetryable(spec, o.ended, o.status.jobs)
    requires k < |o.status.jobs| && KnownFailed(o.ended, o.status.jobs[k])
    ensures Steps(spec)(o, mid) && mid.ended == o.ended && |mid.status.jobs| == |o.status.jobs|
    ensures NoneKnownFailed(mid.ended, mid.status.jobs) && CanSucceed(spec, mid)
  {
    mid := Observed(After(spec, o.status, RetryChecks(spec, o)), o.ended);
    RetriesStart(spec, o);
    RetriedJob(spec, o, k);
    ToldPassIsStep(spec, o, RetryChecks(spec, o), k);
    AllEndWell(spec, mid);
  }

  lemma UnskippedSucceeds(spec: Spec, o: Observed)
    requires StatusOk(spec, o.status) && o.status.phase == OverallFailed && NoneSkipped(o.status.jobs)
    requires FailuresRetryable(spec, o.ended, o.status.jobs)
    ensures CanSucceed(spec, o)
  {
    OverallMeaning(o.status.jobs);
    if k :| 0 <= k < |o.status.jobs| && KnownFailed(o.ended, o.status.jobs[k]) {
      var mid := RetryThenSuccess(spec, o, k);
      SucceedsThrough(spec, o, mid);
    } else {
      AllEndWell(spec, o);
    }
  }

  ghost predicate NoneClosed(jobs: seq<Job>) {
    forall k :: 0 <= k < |jobs| ==> !Closed(jobs[k].phase)
  }

  ghost predicate Recoverable(spec: Spec, o: Observed) {
    && StatusOk(spec, o.status) && o.status.phase == OverallFailed && DistinctIds(o.status.jobs)
    && NoneClosed(o.status.jobs) && FailuresRetryable(spec, o.ended, o.status.jobs)
  }

  ghost predicate UnskippedUpTo(jobs: seq<Job>, k: nat) {
    k <= |jobs| && forall j :: 0 <= j < k ==> !Skipped(jobs[j])
  }

  lemma CancelFlagged(spec: Spec, ended: map<string, PodEnd>, jobs: seq<Job>, k: nat)
    requires NoneClosed(jobs) && DistinctIds(jobs) && FailuresRetryable(spec, ended, jobs)
    requires k < |jobs| && UnskippedUpTo(jobs, k) && Skipped(jobs[k])
    ensures var after := jobs[k := jobs[k].(cancelRequested := true)];
            && NoneClosed(after) && DistinctIds(after) && UnskippedUpTo(after, k + 1)
            && FailuresRetryable(spec, ended, after)
  {
    assert !Closed(jobs[k].phase) && !KnownFailed(ended, jobs[k]);
  }

  lemma CancelRecovers(spec: Spec, o: Observed, k: nat)
    requires Recoverable(spec, o) && k < |o.status.jobs| && UnskippedUpTo(o.status.jobs, k) && Skipped(o.status.jobs[k])
    ensures var c := Observed(CancelledAt(o.status, k), o.ended);
            Steps(spec)(o, c) && Recoverable(spec, c) && UnskippedUpTo(c.status.jobs, k + 1)
  {
    FirstIsIndex(o.status.jobs, k);
    CancelUnskips(spec, o, k);
    CancelFlagged(spec, o.ended, o.status.jobs, k);
  }

  /** Cancel requests bring back the jobs a pass would skip, one by one. */
  lemma {:induction false} UnclosedSucceeds(spec: Spec, o: Observed, k: nat)
    requires Recoverable(spec, o) && UnskippedUpTo(o.status.jobs, k)
    ensures CanSucceed(spec, o)
    decreases |o.status.jobs| - k
  {
    if k == |o.status.jobs| {
      UnskippedSucceeds(spec, o);
    } else if !Skipped(o.status.jobs[k]) {
      UnclosedSucceeds(spec, o, k + 1);
    } else {
      CancelRecovers(spec, o, k);
      UnclosedSucceeds(spec, Observed(CancelledAt(o.status, k), o.ended), k + 1);
      SucceedsThrough(spec, o, Observed(CancelledAt(o.status, k), o.ended));
    }
  }

  // ---------------------------------------------------------------------------------------
  // One hopeless job keeps a run from succeeding

  ghost predicate HopelessAt(spec: Spec, k: nat, o: Observed) {
    && StoredOk(spec, o.status) && o.status.phase != OverallUnset
    && k < |o.status.jobs| && Hopeless(spec, o.ended, o.status.jobs[k])
  }

  lemma PassKeepsHopelessAt(spec: Spec, k: nat, a: Observed, world: World, b: Observed)
    requires HopelessAt(spec, k, a) && ObservedPass(spec, a, world, b) && StoredOk(spec, b.status)
    ensures HopelessAt(spec, k, b)
  {
    PassedJobs(spec, a.status, world);
    var jobs := Snapshot(a.status, world).jobs;
    assert jobs[k] == a.status.jobs[k];
    CheckKeepsHopeless(spec, a.ended, jobs[k], CheckAt(world.checks, k));
  }

  lemma StepKeepsHopelessAt(spec: Spec, k: nat, a: Observed, b: Observed)
    requires HopelessAt(spec, k, a) && ObservedStep(spec, a, b)
    ensures HopelessAt(spec, k, b)
  {
    var move :| Does(spec, a, move, b);
    MoveStored(spec, a, move, b);
    match move
    case PodsEnd => EndsKeepHopeless(spec, a.ended, b.ended, a.status.jobs[k]);
    case Start(_) =>
    case Pass(world) => PassKeepsHopelessAt(spec, k, a, world, b);
    case Cancel(jobId) => CancelKeepsHopeless(spec, a.ended, a.status.jobs[k]);
  }

  lemma HopelessNeverSucceeds(spec: Spec, k: nat, o: Observed)
    requires HopelessAt(spec, k, o)
    ensures !CanSucceed(spec, o)
  {
    forall b | Store.Reaches(Steps(spec), o, b) ensures b.status.phase != OverallSucceeded {
      forall s, s' | HopelessAt(spec, k, s) && Steps(spec)(s, s') ensures HopelessAt(spec, k, s') {
        StepKeepsHopelessAt(spec, k, s, s');
      }
      Store.ReachableKeeps(Steps(spec), s => HopelessAt(spec, k, s), o, b);
      OverallMeaning(b.status.jobs);
      HopelessIsFailure(spec, b.ended, b.status.jobs[k]);
    }
  }

  /** From overall Failed, overall Succeeded can be reached exactly when no job is hopeless. */
  lemma SucceededReachableIff(spec: Spec, o: Observed)
    requires StatusOk(spec, o.status) && o.status.phase == OverallFailed && DistinctIds(o.status.jobs)
    ensures CanSucceed(spec, o) <==> forall k :: 0 <= k < |o.status.jobs| ==> !Hopeless(spec, o.ended, o.status.jobs[k])
  {
    OverallMeaning(o.status.jobs);
    if k :| 0 <= k < |o.status.jobs| && Hopeless(spec, o.ended, o.status.jobs[k]) {
      HopelessNeverSucceeds(spec, k, o);
    } else {
      forall k | 0 <= k < |o.status.jobs|
        ensures !Closed(o.status.jobs[k].phase)
        ensures KnownFailed(o.ended, o.status.jobs[k]) ==> Retryable(spec, o.status.jobs[k])
      {
        assert !Hopeless(spec, o.ended, o.status.jobs[k]);
      }
      UnclosedSucceeds(spec, o, 0);
    }
  }

  // ---------------------------------------------------------------------------------------
  // A run that is Failed and later Succeeded

  /** One cluster, the default number of retries and no delay. */
  function OneTarget(): Spec {
    Spec(map["p" := ["c"]], 0, r => 0)
  }

  const ONE_TARGET: seq<Target> := [Target("p", "c")]

  const NEW_STATUS := Status(OverallUnset, 0, 0, 0, 0, [])

  const FIRST_POD := Created("i", "", "", 0)

  /** The pod has failed and the retry cannot be created. */
  const FAILED_RETRY := JobCheck(Found(PodFailed, None, "", ""), 0, CreateFailed(""))

  function CreatedJob(): Job {
    NewJob("p", "c", FIRST_POD)
  }

  ghost function FailedJob(): Job {
    NextJob(OneTarget(), CreatedJob(), FAILED_RETRY)
  }

  lemma OneTargetFlattens()
    ensures IsFlattening(OneTarget(), ONE_TARGET)
  {
    var order := ["p"];
    assert order[1..] == [];
    assert Flatten(OneTarget().targets, []) == [];
    assert Enumerates(order, OneTarget().targets.Keys) && Flatten(OneTarget().targets, order) == ONE_TARGET;
  }

  lemma FailedJobIs()
    ensures FailedJob().phase == Failed && FailedJob().jobId == "i" && FailedJob().retryCount == 1
        && FailedJob().maxRetries == 3
    ensures !FailedJob().cancelRequested && FailedJob().provider == "p" && FailedJob().cluster == "c"
    ensures Retryable(OneTarget(), FailedJob())
  {
  }

  /** The only pass that finds no job creates one. */
  lemma PodCreated(s: Status)
    requires s.jobs == [] && s.phase == OverallPending
    ensures var world := World(ONE_TARGET, [FIRST_POD], []); var after := Passed(OneTarget(), s, world);
            && after.jobs == [CreatedJob()] && after.phase == OverallRunning
            && PassWrites(OneTarget(), s, world, after) && ToldAll(map[], Snapshot(s, world).jobs, [])
  {
    var world := World(ONE_TARGET, [FIRST_POD], []);
    assert ONE_TARGET[..0] == [] && CreateMissing([], [], [FIRST_POD]) == [];
    assert ONE_TARGET[0] == Target("p", "c") && AfterCreate([], "p", "c", FIRST_POD) == [CreatedJob()];
    assert CreateMissing([], ONE_TARGET, [FIRST_POD]) == [CreatedJob()];
    ChecksPointwise(OneTarget(), [CreatedJob()], [], 1);
    var after := Passed(OneTarget(), s, world);
    assert after.jobs == [CreatedJob()];
    OverallMeaning(after.jobs);
    assert Active(after.jobs[0].phase);
  }

  lemma RetryFails(s: Status)
    requires s.jobs == [CreatedJob()] && s.phase == OverallRunning
    ensures var world := World(ONE_TARGET, [], [FAILED_RETRY]); var after := Passed(OneTarget(), s, world);
            && after.jobs == [FailedJob()] && after.phase == OverallFailed
            && PassWrites(OneTarget(), s, world, after) && ToldAll(map["i" := EndedBadly], Snapshot(s, world).jobs,
                [FAILED_RETRY])
  {
    var world := World(ONE_TARGET, [], [FAILED_RETRY]);
    FailedCreatesDoNothing(s.jobs, ONE_TARGET);
    ChecksPointwise(OneTarget(), [CreatedJob()], [FAILED_RETRY], 1);
    FailedJobIs();
    var after := Passed(OneTarget(), s, world);
    assert after.jobs == [FailedJob()];
    OverallMeaning(after.jobs);
  }

  lemma FirstPodStored() returns (o: Observed)
    ensures Store.Reaches(Steps(OneTarget()), Observed(NEW_STATUS, map[]), o)
    ensures o.status.jobs == [CreatedJob()] && o.status.phase == OverallRunning && o.ended == map[]
  {
    var steps := Steps(OneTarget());
    var first := Observed(NEW_STATUS, map[]);
    Store.ReachesSelf(steps, first);
    OneTargetFlattens();
    var started := Observed(Started(NEW_STATUS, ONE_TARGET), map[]);
    StepBy(OneTarget(), first, Start(ONE_TARGET), started);
    Store.ReachesNext(steps, first, first, started);
    var creating := World(ONE_TARGET, [FIRST_POD], []);
    PodCreated(started.status);
    o := Observed(Passed(OneTarget(), started.status, creating), map[]);
    StepBy(OneTarget(), started, Pass(creating), o);
    Store.ReachesNext(steps, first, started, o);
  }

  lemma FailureStored(first: Observed, created: Observed) returns (o: Observed)
    requires Store.Reaches(Steps(OneTarget()), first, created)
    requires created.status.jobs == [CreatedJob()] && created.status.phase == OverallRunning && created.ended == map[]
    ensures Store.Reaches(Steps(OneTarget()), first, o)
    ensures o.status.jobs == [FailedJob()] && o.status.phase == OverallFailed
  {
    var steps := Steps(OneTarget());
    var ended := Observed(created.status, map["i" := EndedBadly]);
    StepBy(OneTarget(), created, PodsEnd, ended);
    Store.ReachesNext(steps, first, created, ended);
    OneTargetFlattens();
    var failing := World(ONE_TARGET, [], [FAILED_RETRY]);
    RetryFails(ended.status);
    o := Observed(Passed(OneTarget(), ended.status, failing), ended.ended);
    StepBy(OneTarget(), ended, Pass(failing), o);
    Store.ReachesNext(steps, first, ended, o);
  }

  /**
   From a new object on: started, a pod created, the pod failed and its retry not created; and from
   there Succeeded.
   */
  lemma FailedThenSucceeded() returns (o: Observed)
    ensures Blank(NEW_STATUS) && Store.Reaches(Steps(OneTarget()), Observed(NEW_STATUS, map[]), o)
    ensures o.status.phase == OverallFailed && CanSucceed(OneTarget(), o)
  {
    var first := Observed(NEW_STATUS, map[]);
    var created := FirstPodStored();
    o := FailureStored(first, created);
    RecordedFailuresAreKnown(OneTarget(), first, o);
    FailedJobIs();
    SucceededReachableIff(OneTarget(), o);
  }
}
