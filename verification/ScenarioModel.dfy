/** A scenario run's status, its per-cluster jobs, and one reconcile pass as a function. */
module ScenarioModel {
  import opened Common
  import opened Backoff

  /** `Retrying` exists only inside a pass. */
  datatype JobPhase = Pending | Running | Succeeded | Failed | Cancelled | MaxRetriesExceeded | Retrying

  /** The messages and failure reasons a pass writes; `Text` is one taken over from the pod. */
  datatype Message =
    | NoMessage
    | Text(text: string)
    | PodNotFoundMessage
    | PodUnknownMessage
    | NoProviderMessage
    | NoClusterMessage
    | RetryError(error: string)

  datatype Reason = NoReason | PodReason(text: string) | PodNotFoundReason | PodUnknownReason | InvalidJobState

  datatype Job = Job(
    provider: string,
    cluster: string,
    apiUrl: string,
    jobId: string,
    podName: string,
    image: string,
    phase: JobPhase,
    message: Message,
    failureReason: Reason,
    startTime: Option<int>,
    completionTime: Option<int>,
    retryCount: int,
    maxRetries: int,
    cancelRequested: bool,
    lastRetryTime: Option<int>)

  datatype OverallPhase =
    | OverallUnset
    | OverallPending
    | OverallRunning
    | OverallSucceeded
    | OverallPartiallyFailed
    | OverallFailed

  datatype Status = Status(
    phase: OverallPhase,
    totalTargets: int,
    successfulJobs: int,
    failedJobs: int,
    runningJobs: int,
    jobs: seq<Job>)

  /** `maxRetries` is zero when not given; `delayAfter` is the backoff these settings ask for, see `RunSpec`. */
  datatype Spec = Spec(targets: map<string, seq<string>>, maxRetries: int, delayAfter: int -> int)

  /** The specification of a run: its delays are those of `Backoff.RetryDelay`; retry counts are never negative. */
  function RunSpec(targets: map<string, seq<string>>, maxRetries: int, exponential: bool, delay: Option<int>): Spec {
    Spec(targets, maxRetries, (r: int) => if r >= 0 then RetryDelay(r, exponential, delay) else 0)
  }

  datatype Target = Target(provider: string, cluster: string)

  datatype PodPhase = PodPending | PodRunning | PodSucceeded | PodFailed | PodUnknown | PodOther

  datatype PodLookup =
    | NotFound
    | LookupError
    | Found(phase: PodPhase, image: Option<string>, text: string, reason: string)

  /** The outcome of preparing resources and creating a pod. */
  datatype CreateResult = CreateFailed(error: string) | Created(jobId: string, apiUrl: string, image: string, now: int)

  /** What a pass is told while it checks one job. */
  datatype JobCheck = JobCheck(pod: PodLookup, now: int, retry: CreateResult)

  const POD_GRACE := 30 * SECOND
  const DEFAULT_MAX_RETRIES := 3

  predicate Closed(phase: JobPhase) {
    phase == Succeeded || phase == Cancelled || phase == MaxRetriesExceeded
  }

  function PodName(jobId: string): string {
    "krkn-job-" + jobId
  }

  // ---------------------------------------------------------------------------------------
  // Targets

  /** The clusters to run on, provider by provider in the given map iteration order. */
  function Flatten(targets: map<string, seq<string>>, order: seq<string>): seq<Target>
    requires forall p :: p in order ==> p in targets
  {
    if order == [] then []
    else
      var provider := order[0];
      seq(|targets[provider]|, i requires 0 <= i < |targets[provider]| => Target(provider, targets[provider][i]))
      + Flatten(targets, order[1..])
  }

  ghost predicate IsFlattening(spec: Spec, targets: seq<Target>) {
    exists order :: Enumerates(order, spec.targets.Keys) && targets == Flatten(spec.targets, order)
  }

  ghost predicate IsTarget(spec: Spec, cluster: string) {
    exists p :: p in spec.targets && cluster in spec.targets[p]
  }

  // ---------------------------------------------------------------------------------------
  // Creating jobs

  predicate HasJob(jobs: seq<Job>, cluster: string) {
    exists i | 0 <= i < |jobs| :: jobs[i].cluster == cluster
  }

  /** The first job of the cluster decides; one that is being retried does not count. */
  predicate JobExists(jobs: seq<Job>, cluster: string) {
    if jobs == [] then false
    else if jobs[0].cluster == cluster then jobs[0].phase != Retrying
    else JobExists(jobs[1..], cluster)
  }

  /** The first entry of the cluster that is being retried. */
  function RetryIndex(jobs: seq<Job>, cluster: string): (r: Option<nat>)
    ensures r.Some? ==> r.value < |jobs| && jobs[r.value].cluster == cluster && jobs[r.value].phase == Retrying
    ensures r.Some? ==> forall j :: 0 <= j < r.value ==> !(jobs[j].cluster == cluster && jobs[j].phase == Retrying)
    ensures r.None? ==> forall j :: 0 <= j < |jobs| ==> !(jobs[j].cluster == cluster && jobs[j].phase == Retrying)
  {
    FirstWhere((j: Job) => j.cluster == cluster && j.phase == Retrying, jobs)
  }

  function Restarted(job: Job, res: CreateResult): Job
    requires res.Created?
  {
    job.(jobId := res.jobId, podName := PodName(res.jobId), image := res.image, phase := Pending,
         startTime := Some(res.now), completionTime := None, message := NoMessage)
  }

  function NewJob(provider: string, cluster: string, res: CreateResult): Job
    requires res.Created?
  {
    Job(provider, cluster, res.apiUrl, res.jobId, PodName(res.jobId), res.image, Pending, NoMessage, NoReason,
        Some(res.now), None, 0, 0, false, None)
  }

  /** Job list after a create: a retried entry is rewritten, otherwise a new one is appended. */
  function AfterCreate(jobs: seq<Job>, provider: string, cluster: string, res: CreateResult): seq<Job> {
    if res.CreateFailed? then jobs
    else match RetryIndex(jobs, cluster)
      case Some(i) => jobs[i := Restarted(jobs[i], res)]
      case None => jobs + [NewJob(provider, cluster, res)]
  }

  function AnswerAt(creates: seq<CreateResult>, k: nat): CreateResult {
    if k < |creates| then creates[k] else CreateFailed("")
  }

  /** The creation loop: a target whose cluster has a job already is skipped, a failed create is too. */
  function CreateMissing(jobs: seq<Job>, targets: seq<Target>, creates: seq<CreateResult>): seq<Job> {
    if targets == [] then jobs
    else
      var k := |targets| - 1;
      var before := CreateMissing(jobs, targets[..k], creates);
      if JobExists(before, targets[k].cluster) then before
      else AfterCreate(before, targets[k].provider, targets[k].cluster, AnswerAt(creates, k))
  }

  // ---------------------------------------------------------------------------------------
  // Checking jobs

  function Completed(job: Job, now: int): Job {
    if job.completionTime.None? then job.(completionTime := Some(now)) else job
  }

  function EffectiveMax(spec: Spec, job: Job): int {
    if job.maxRetries != 0 then job.maxRetries
    else if spec.maxRetries != 0 then spec.maxRetries
    else DEFAULT_MAX_RETRIES
  }

  predicate ShouldRetry(job: Job, maxRetries: int) {
    && !job.cancelRequested
    && !Closed(job.phase)
    && job.retryCount < (if maxRetries == 0 then DEFAULT_MAX_RETRIES else maxRetries)
  }

  predicate Waiting(spec: Spec, job: Job, now: int) {
    job.lastRetryTime.Some? && now - job.lastRetryTime.value < spec.delayAfter(job.retryCount)
  }

  predicate Skipped(job: Job) {
    Closed(job.phase) || (job.phase == Failed && job.retryCount >= job.maxRetries && !job.cancelRequested)
  }

  function Missing(job: Job, now: int): Job {
    if job.phase == Pending && job.startTime.Some? && now - job.startTime.value < POD_GRACE then job
    else job.(phase := Failed, message := PodNotFoundMessage, failureReason := PodNotFoundReason,
        completionTime := Some(now))
  }

  function RetryFailed(job: Job, error: string, now: int): Job {
    Completed(job.(phase := Failed, message := RetryError(error)), now)
  }

  /** The job once its failed pod has been recorded, before the retry decision. */
  function FailedPod(spec: Spec, job: Job, pod: PodLookup, now: int): Job
    requires pod.Found?
  {
    var failed := Completed(job.(phase := Failed, message := Text(pod.text), failureReason := PodReason(pod.reason)),
        now);
    failed.(maxRetries := EffectiveMax(spec, job))
  }

  function Retried(job: Job, now: int): Job {
    job.(phase := Retrying, retryCount := job.retryCount + 1, lastRetryTime := Some(now))
  }

  /** The list after job `i`, already recorded as failed, has gone through the retry decision. */
  function AfterFailure(spec: Spec, jobs: seq<Job>, i: nat, check: JobCheck): seq<Job>
    requires i < |jobs|
  {
    var job := jobs[i];
    if ShouldRetry(job, job.maxRetries) then
      if Waiting(spec, job, check.now) then jobs
      else
        var retried := Retried(job, check.now);
        if job.provider == "" then
          jobs[i := Completed(retried.(phase := Failed, message := NoProviderMessage,
              failureReason := InvalidJobState), check.now)]
        else if job.cluster == "" then
          jobs[i := Completed(retried.(phase := Failed, message := NoClusterMessage,
              failureReason := InvalidJobState), check.now)]
        else if check.retry.CreateFailed? then
          jobs[i := RetryFailed(retried, check.retry.error, check.now)]
        else
          AfterCreate(jobs[i := retried], job.provider, job.cluster, check.retry)
    else if job.cancelRequested then jobs[i := job.(phase := Cancelled)]
    else jobs[i := job.(phase := MaxRetriesExceeded)]
  }

  function Backfilled(job: Job, pod: PodLookup): Job
    requires pod.Found?
  {
    if job.image == "" && pod.image.Some? then job.(image := pod.image.value) else job
  }

  /** Checking job `i` against its pod. */
  function CheckJob(spec: Spec, jobs: seq<Job>, i: nat, check: JobCheck): seq<Job>
    requires i < |jobs|
  {
    var job := jobs[i];
    if Skipped(job) then jobs
    else match check.pod
      case NotFound => jobs[i := Missing(job, check.now)]
      case LookupError => jobs
      case Found(phase, _, _, _) =>
        var seen := Backfilled(job, check.pod);
        match phase
        case PodPending => jobs[i := seen.(phase := Pending)]
        case PodRunning => jobs[i := seen.(phase := Running)]
        case PodSucceeded => jobs[i := Completed(seen.(phase := Succeeded), check.now)]
        case PodFailed => AfterFailure(spec, jobs[i := FailedPod(spec, seen, check.pod, check.now)], i, check)
        case PodUnknown =>
          jobs[i := Completed(seen.(phase := Failed, message := PodUnknownMessage,
              failureReason := PodUnknownReason), check.now)]
        case PodOther => jobs[i := seen]
  }

  lemma CheckJobGrows(spec: Spec, jobs: seq<Job>, i: nat, check: JobCheck)
    requires i < |jobs|
    ensures |CheckJob(spec, jobs, i, check)| >= |jobs|
  {
  }

  function CheckAt(checks: seq<JobCheck>, i: nat): JobCheck {
    if i < |checks| then checks[i] else JobCheck(LookupError, 0, CreateFailed(""))
  }

  /** The first `n` jobs checked in order. */
  function CheckJobs(spec: Spec, jobs: seq<Job>, checks: seq<JobCheck>, n: nat): (r: seq<Job>)
    requires n <= |jobs|
    ensures |r| >= |jobs|
  {
    if n == 0 then jobs
    else
      var before := CheckJobs(spec, jobs, checks, n - 1);
      CheckJobGrows(spec, before, n - 1, CheckAt(checks, n - 1));
      CheckJob(spec, before, n - 1, CheckAt(checks, n - 1))
  }

  // ---------------------------------------------------------------------------------------
  // Overall status

  predicate IsFailure(phase: JobPhase) {
    phase == Failed || phase == Cancelled || phase == MaxRetriesExceeded
  }

  ghost function CountJobs(p: JobPhase -> bool, jobs: seq<Job>): nat {
    Count((j: Job) => p(j.phase), jobs)
  }

  ghost function SuccessCount(jobs: seq<Job>): nat { CountJobs(p => p == Succeeded, jobs) }
  ghost function FailureCount(jobs: seq<Job>): nat { CountJobs(p => IsFailure(p), jobs) }
  ghost function RunningCount(jobs: seq<Job>): nat { CountJobs(p => p == Running || p == Retrying, jobs) }
  ghost function PendingCount(jobs: seq<Job>): nat { CountJobs(p => p == Pending, jobs) }

  ghost function OverallOf(jobs: seq<Job>): OverallPhase {
    if |jobs| == 0 then OverallPending
    else if RunningCount(jobs) > 0 || PendingCount(jobs) > 0 then OverallRunning
    else if FailureCount(jobs) == |jobs| then OverallFailed
    else if SuccessCount(jobs) == |jobs| then OverallSucceeded
    else OverallPartiallyFailed
  }

  ghost function Summarized(status: Status): Status {
    status.(phase := OverallOf(status.jobs),
            successfulJobs := SuccessCount(status.jobs),
            failedJobs := FailureCount(status.jobs),
            runningJobs := RunningCount(status.jobs))
  }

  /** The fields that decide whether a pass writes; provider, URL and image are not among them. */
  predicate SameJob(a: Job, b: Job) {
    && a.cluster == b.cluster && a.jobId == b.jobId && a.podName == b.podName && a.phase == b.phase
    && a.message == b.message && a.retryCount == b.retryCount && a.maxRetries == b.maxRetries
    && a.cancelRequested == b.cancelRequested && a.failureReason == b.failureReason
    && a.startTime == b.startTime && a.completionTime == b.completionTime && a.lastRetryTime == b.lastRetryTime
  }

  predicate SameStatus(a: Status, b: Status) {
    && a.phase == b.phase && a.totalTargets == b.totalTargets && a.successfulJobs == b.successfulJobs
    && a.failedJobs == b.failedJobs && a.runningJobs == b.runningJobs
    && |a.jobs| == |b.jobs|
    && forall i | 0 <= i < |a.jobs| :: SameJob(a.jobs[i], b.jobs[i])
  }

  // ---------------------------------------------------------------------------------------
  // Operations on the stored status

  datatype World = World(targets: seq<Target>, creates: seq<CreateResult>, checks: seq<JobCheck>)

  function Started(status: Status, targets: seq<Target>): Status {
    status.(phase := OverallPending, totalTargets := |targets|, jobs := [])
  }

  /** The status after the creation loop, which is what the pass compares its result with. */
  function Snapshot(status: Status, world: World): Status {
    status.(jobs := CreateMissing(status.jobs, world.targets, world.creates))
  }

  ghost function Passed(spec: Spec, status: Status, world: World): Status {
    var snapshot := Snapshot(status, world);
    Summarized(snapshot.(jobs := CheckJobs(spec, snapshot.jobs, world.checks, |snapshot.jobs|)))
  }

  /** A pass over an initialised status writes its result unless it equals the snapshot. */
  ghost predicate PassWrites(spec: Spec, status: Status, world: World, after: Status) {
    after == Passed(spec, status, world) && !SameStatus(Snapshot(status, world), after)
  }

  /** Position of the first job with this ID. */
  function JobIndex(jobs: seq<Job>, jobId: string): (r: Option<nat>)
    ensures r.Some? ==> r.value < |jobs| && jobs[r.value].jobId == jobId
    ensures r.Some? ==> forall j :: 0 <= j < r.value ==> jobs[j].jobId != jobId
    ensures r.None? ==> forall j :: 0 <= j < |jobs| ==> jobs[j].jobId != jobId
  {
    FirstWhere((j: Job) => j.jobId == jobId, jobs)
  }

  function CancelledAt(status: Status, i: nat): Status
    requires i < |status.jobs|
  {
    status.(jobs := status.jobs[i := status.jobs[i].(cancelRequested := true)])
  }

  ghost predicate CancelWrites(status: Status, jobId: string, after: Status) {
    JobIndex(status.jobs, jobId).Some? && after == CancelledAt(status, JobIndex(status.jobs, jobId).value)
  }

  /** Everything that can turn one stored status into the next. */
  ghost predicate Changes(spec: Spec, a: Status, b: Status) {
    || (a.phase == OverallUnset && exists targets :: IsFlattening(spec, targets) && b == Started(a, targets))
    || (a.phase != OverallUnset && exists world: World ::
        IsFlattening(spec, world.targets)
        && PassWrites(spec, a, world, b))
    || (exists jobId :: CancelWrites(a, jobId, b))
  }
}
