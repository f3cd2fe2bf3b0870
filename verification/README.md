# krkn-operator: a verified model of its controllers, terminal and permissions

This project models the parts of krkn-operator whose correctness depends on many passes, many
writers or a parser and a builder agreeing with each other. `dafny verify dfyconfig.toml` checks all of it.

| files | what they model |
|---|---|
| `Common`, `Store` | map iteration orders, filtering; one API-server object with compare-and-set writes |
| `NodeIds`, `GraphTypes`, `GraphValidation`, `GraphLayering` | the node-ID sanitiser, graph validation, resolution into levels, which graphs can be layered |
| `GraphPass`, `GraphReconciler` | one graph-run pass: the functional pass, and the imperative reconciler proved equal to it |
| `GraphFrontier`, `GraphSystem`, `GraphSafety`, `GraphFailFast`, `GraphSessions`, `GraphDiscipline`, `GraphSummary`, `GraphProgress`, `GraphOutcome`, `GraphCompletion`, `GraphScenarioRuns` | what a pass decides; whole executions with overlapping passes, stale listings, lost answers and rejected writes; safety, fail-fast, counters, progress |
| `Backoff`, `ScenarioModel`, `ScenarioReconciler`, `ScenarioJobs`, `ScenarioChecks`, `ScenarioHistory`, `ScenarioFinality`, `ScenarioOutcomes`, `ScenarioRecording` | the scenario-run reconciler, its race with the cancel request, retries, backoff and finality |
| `ProviderModel`, `ProviderReconciler`, `ProviderConfig`, `ProviderCompletion` | operators contributing to one shared status, and the counting test that completes it |
| `JwtSecret`, `JwtReplicas` | loading or creating the signing key, and any number of replicas racing for it |
| `TerminalParser`, `TerminalTokens`, `TerminalArgv`, `TerminalWhitelist` | tokeniser, parser, argument-vector builder, whitelist |
| `Permissions`, `PermissionRuns` | group permissions, filtering, the check before a run is started |

## How it is modelled

* Code that updates state in place is a class or a method with loops; its contract ties the new state to
  a function of the old one, and the properties are proved of that function and of state machines built
  on it. What such a function decides is also stated without it, in the values the source uses. Iterating over a Go map is choosing any remaining key; lemmas quantify over every order.
* The API server is the history of stored versions. A pass fetches any version, lists any state of the
  runs, has its create requests stored, rejected or answered wrongly, and its status write is stored only
  on top of the version it fetched. A crash is a pass that stops at any point.
* The layering library is represented by its answer. The three parts of its contract (each node at most
  once, parents earlier, every node covered) are separate hypotheses, and each lemma names only those it
  needs; dependency safety needs none of them.
* Pods of scenario runs have ended well, ended badly or not ended; an ended pod is found as it ended, and
  any pod may be missing or unreadable at any time.
* Clocks, random bytes, listings and API answers are parameters. Messages are datatype values.

## Where a tempting claim is false

* What validation admits cannot always be layered: a dependency on the empty string
  (`GraphValidation.EmptyReferenceUnlayerable`) and a cycle (`GraphLayering.CycleAdmitted`) pass it.
  `GraphLayering.LayerableIff` gives the exact condition.
* "A blocked node has no run" needs either that failed runs stay failed, or three things of the passes:
  that they do not overlap, that each fetches the newest stored status, and that none lists an older state
  of the runs than a pass before it. `GraphDiscipline.ClosureGuaranteedIff` proves that exactly these
  guarantee it: with any one of the three given up, `GraphDiscipline.BlockedNodeWithRun` is a complete
  execution, on an admitted and fully layered graph in which success stays, that ends with a blocked node
  that has a run.
* Overall `Failed` of a scenario run is not final. A pod that has ended stays as it ended, so a job whose
  pod has failed can only go on by a retry: `ScenarioOutcomes.FailedStaysIff` says exactly when `Failed`
  stays in every later version, `ScenarioOutcomes.SucceededReachableIff` when `Succeeded` can still be
  reached, and `ScenarioOutcomes.FailedThenSucceeded` is a history from a new object that does both.
  Overall `Succeeded` is judged on recorded jobs: `ScenarioFinality.SucceededStaysIff`.
* A pass can create a pod and record nothing: `ScenarioRecording.CreatedUnrecordedIff` says exactly when,
  in terms of the recorded jobs, the pods' answers and the clock.
* The 64-bit backoff delay is exact precisely while it is below 2^63 (`Backoff.DelayExactIff`).
* Completion compares counts, not names: `ProviderCompletion.CompletionTrustworthyIff` gives the exact
  condition on the contributors.
* A parsed command is not always rebuilt: `TerminalArgv.RoundTripIff` gives the exact condition and
  `TerminalWhitelist.EmbeddedDashIsLost` a reachable failing family.
* Starting a run resolves cluster names in map order: `PermissionRuns.AlwaysPassesIff` gives the exact
  condition for the check to pass in every order, and `PermissionRuns.OrderDecides` an input on which the
  order decides.
* The source comments promise RFC 1123 names for sanitised node IDs; the code yields Kubernetes label
  values, which may contain `_` and `.`, and that is what is proved.

## Model

| member | source | states |
|---|---|---|
| `NodeIds.SanitizeNodeId` | internal/controller/krkngraphrun_controller.go:70-109 | the builder loop computes the sanitiser function; the API package has the same code |
| `NodeIds.SanitizePositions` | internal/controller/krkngraphrun_controller.go:83-109 | position by position: of the first 63 characters, lower-cased and with a hyphen for each illegal one, everything between the separators at the two ends, or a stand-in |
| `NodeIds.SanitizeYieldsLabelValue` | api/v1alpha1/krkngraphrun_validation.go:136-174 | for every input the result is a label value of 1 to 63 characters |
| `NodeIds.FixedPointsAreLabelValues` | api/v1alpha1/krkngraphrun_validation.go:136-174 | a string is left alone exactly when it is a label value |
| `NodeIds.SanitizeIdempotent` | api/v1alpha1/krkngraphrun_validation.go:136-174 | sanitising twice is sanitising once |
| `GraphValidation.CheckIds` | api/v1alpha1/krkngraphrun_validation.go:42-82 | ID checks, and the grouping of IDs by sanitised form |
| `GraphValidation.CheckCollisions` | api/v1alpha1/krkngraphrun_validation.go:84-89 | a fault exactly when two IDs share a sanitised form |
| `GraphValidation.CheckReferences` | api/v1alpha1/krkngraphrun_validation.go:91-118 | a fault exactly when some non-empty reference is missing, to a metadata node or to the node itself |
| `GraphValidation.ValidateGraph` | api/v1alpha1/krkngraphrun_validation.go:37-126 | accepts exactly the admissible graphs (sanitiser injective on them) in every map order, and a fault it names is real |
| `GraphValidation.AdmissibleMeaning` | api/v1alpha1/krkngraphrun_validation.go:37-126 | admission spelled out: not empty, keys without a leading underscore have 1 to 253 bytes and a usable label, no two share one, and each non-empty reference names another of them |
| `GraphValidation.ByteLengthAdds` | api/v1alpha1/krkngraphrun_validation.go:52-55 | the length that is limited adds one to four bytes per character, by its place in Unicode |
| `GraphValidation.ResolveGraph` | pkg/graph/executor.go:35-117 | succeeds exactly when references are good and, unless nothing depends on anything, the library answers; the all-roots answer is one full layering |
| `GraphValidation.AdmissibleResolves` | pkg/graph/executor.go:35-75 | what validation admits passes the resolver's own checks |
| `GraphLayering.LayerableIff` | pkg/graph/executor.go:106-113 | a graph has a full layering exactly when every executed node's chain of dependencies ends at a node that depends on nothing |
| `GraphLayering.RootedLayers` | pkg/graph/executor.go:106-113 | such a graph has a full layering without empty levels |
| `GraphLayering.CycleAdmitted` | api/v1alpha1/krkngraphrun_validation.go:91-118 | two nodes that depend on each other are admitted, and no layering exists |
| `GraphValidation.EmptyReferenceUnlayerable` | pkg/graph/executor.go:55-82 | a dependency on "" is accepted, yet no covering layering has its parent earlier |
| `GraphReconciler.IndexRuns` | internal/controller/krkngraphrun_controller.go:312-331 | the index by node label: unlabelled runs skipped, later runs replace earlier ones |
| `GraphPass.IndexKeepsLast` | internal/controller/krkngraphrun_controller.go:321-328 | under each non-empty label in use the index holds the last run that carries it, and nothing else |
| `GraphReconciler.GraphRun.SetNodeStatus` | internal/controller/krkngraphrun_controller.go:528-566 | rewrites the node's first entry and nothing else, or reports that there is none |
| `GraphReconciler.GraphRun.CheckPreviousLevel` | internal/controller/krkngraphrun_controller.go:373-399 | complete and failed flags of the level before |
| `GraphReconciler.GraphRun.CreateScenarioRun` | internal/controller/krkngraphrun_controller.go:435-492 | the object sent, with its name and labels, exactly when node, image, name, target request and target clusters are all given, and the entry marked running when it is created |
| `GraphReconciler.GraphRun.UpdateNodeStatusFromRun` | internal/controller/krkngraphrun_controller.go:495-525 | the first entry becomes Completed for a succeeded run, Failed for a failed or partially failed one, Pending for a pending one and Running otherwise, with the run's name and the times it gives |
| `GraphReconciler.GraphRun.ProcessNode` | internal/controller/krkngraphrun_controller.go:413-432 | copy the listed run, or ask for a new one |
| `GraphReconciler.GraphRun.ProcessLevels` | internal/controller/krkngraphrun_controller.go:335-370 | the level loop equals the functional walk, with its ending and its requests |
| `GraphReconciler.GraphRun.BlockLevels` | internal/controller/krkngraphrun_controller.go:569-602 | every entry of the given and later levels becomes blocked |
| `GraphReconciler.GraphRun.CalculateGlobalStatus` | internal/controller/krkngraphrun_controller.go:605-652 | counters and phase are those of the entries |
| `GraphReconciler.GraphRun.InitializeStatus` | internal/controller/krkngraphrun_controller.go:221-242 | pending, with the number of executed nodes as total |
| `GraphReconciler.GraphRun.StoreResolution` | internal/controller/krkngraphrun_controller.go:260-308 | the levels, and one pending entry per executed node in some map order |
| `GraphReconciler.GraphRun.Reconcile` | internal/controller/krkngraphrun_controller.go:157-218 | the statuses a pass submits and the runs it asks for are those of the functional pass; a failing listing of runs submits nothing |
| `GraphFrontier.PassAsksForFrontier` | internal/controller/krkngraphrun_controller.go:335-431 | any pass asks only for missing runs of the first level not entirely succeeded, for all of them unless it errs, and fails fast only over a listed run that failed, in part or entirely |
| `GraphFrontier.MissingIsFilter` | internal/controller/krkngraphrun_controller.go:419-428 | those are the level's nodes without a listed run, all of them and in level order |
| `GraphOutcome.PassEnds` | internal/controller/krkngraphrun_controller.go:346-358 | a pass without errors and with a level after the frontier fails fast exactly when some frontier node's listed run is Failed or PartiallyFailed; otherwise it waits |
| `GraphOutcome.PassOutcome` | internal/controller/krkngraphrun_controller.go:413-525 | every entry after such a pass, field by field: up to the frontier it reports the listed run's phase, name and times or the run just created; later nodes are blocked on fail-fast and otherwise untouched |
| `GraphOutcome.ErrorOutcome` | internal/controller/krkngraphrun_controller.go:190-194 | a pass that meets an error reports the graph run Failed, with each entry up to date or as it was |
| `GraphOutcome.ReportedPhasesBacked` | internal/controller/krkngraphrun_controller.go:495-525 | in every stored version of every execution a node reported Completed or Failed has its own run, which at some moment had succeeded, or failed in part or entirely |
| `GraphFrontier.AskedOnlyAfterEarlierLevels` | internal/controller/krkngraphrun_controller.go:335-399 | a run is asked for only when every earlier level is listed as succeeded |
| `GraphFrontier.FrontierRefinement` | internal/controller/krkngraphrun_controller.go:335-431 | a pass meets no error exactly when levels up to the frontier have entries and the frontier's missing runs can be and are created; then its requests are exactly those |
| `GraphFrontier.LostWritesChangeNoDecision` | internal/controller/krkngraphrun_controller.go:528-565 | whatever the answers and errors, two statuses with the same levels and entries lead to the same requests and the same ending |
| `GraphSummary.StoredVersionsDecideAlike` | internal/controller/krkngraphrun_controller.go:528-565 | any two open resolved versions one execution stores lead to the same requests and ending, so losing a status write changes no later decision |
| `GraphSystem.IndexReturnsOwnRun` | internal/controller/krkngraphrun_controller.go:312-331 | looking a node up by sanitised ID gives that node's own run, exactly when it exists |
| `GraphSystem.Reachable` | internal/controller/krkngraphrun_controller.go:118-218 | the invariant holds in every reachable state of the whole system |
| `GraphSafety.DependencySafety` | internal/controller/krkngraphrun_controller.go:335-399 | in every execution, whoever stored a level-k run had listed a succeeded run for every node of levels 0 to k-1 |
| `GraphSafety.ChainSucceedsFirst` | internal/controller/krkngraphrun_controller.go:335-431 | with parents earlier, the whole dependency chain was created before and listed as succeeded |
| `GraphSafety.SameNameSameNode` | internal/controller/krkngraphrun_controller.go:463-487 | on an admitted graph an object name determines the node |
| `GraphSafety.AtMostOneCreation` | internal/controller/krkngraphrun_controller.go:419-487 | without outside deletion no two recorded creations share a sanitised ID, despite stale lists, lost answers and crashes |
| `GraphSafety.AtMostOneRunAtATime` | internal/controller/krkngraphrun_controller.go:463-487 | in every state a run with a node's label is that node's one object, and it was created by a recorded pass |
| `GraphSafety.StoredLabelsValid` | internal/controller/krkngraphrun_controller.go:463-487 | every stored node label is a valid label value |
| `GraphFailFast.FailFastBlocksExactly` | internal/controller/krkngraphrun_controller.go:569-601 | a fail-fast pass blocks exactly the nodes after the first level not entirely succeeded and ends in a terminal phase |
| `GraphFailFast.OtherEndingsBlockNone` | internal/controller/krkngraphrun_controller.go:335-370 | no other pass blocks anything |
| `GraphFailFast.TerminalIsFinal` | internal/controller/krkngraphrun_controller.go:166-171 | a stored terminal status is never replaced, and only passes that fetched an earlier version still create |
| `GraphFailFast.BlockedRunMeansNewerListing` | internal/controller/krkngraphrun_controller.go:346-350 | under any discipline, a creation for a blocked node listed strictly later than the state whose failure blocked it |
| `GraphFailFast.BlockedNeverCreated` | internal/controller/krkngraphrun_controller.go:569-601 | when passes do not overlap, fetch the newest status and never list an older state than a pass before, no creation is recorded for a blocked node |
| `GraphFailFast.BlockedNodesHaveNoRun` | internal/controller/krkngraphrun_controller.go:569-601 | in such executions a blocked node has no run in any state |
| `GraphDiscipline.ClosureGuaranteedIff` | internal/controller/krkngraphrun_controller.go:182-209 | of all disciplines (overlap, older status, older listing, each allowed or not), with failures known to stay or not: no blocked node ever has a run exactly under the strict one or when failures stay |
| `GraphFailFast.LastingFailureExcludesCreation` | internal/controller/krkngraphrun_controller.go:569-601 | if failed runs stay failed, no creation is recorded for a blocked node under any discipline |
| `GraphScenarioRuns.BackedSuccessStays` | internal/controller/krkngraphrun_controller.go:495-523 | runs whose phases come from scenario-run histories that store Succeeded only with a job for every target never lose a success, as the closure assumes |
| `GraphDiscipline.BlockedNodeWithRun` | internal/controller/krkngraphrun_controller.go:346-350 | for each single liberty an execution on an admitted, fully layered graph in which success stays and yet a blocked node has a run |
| `GraphFailFast.ListedFailureBlocks` | internal/controller/krkngraphrun_controller.go:346-350 | a pass without errors that lists a Failed or PartiallyFailed run at the frontier blocks every later node |
| `GraphDiscipline.LaterPassAsks` | internal/controller/krkngraphrun_controller.go:335-370 | the pass that lists the retried run as succeeded asks for the next node |
| `GraphDiscipline.StalePassBlocks` | internal/controller/krkngraphrun_controller.go:569-601 | the pass that lists the earlier failure asks for nothing and blocks that node |
| `GraphSummary.PhasesPartition` | internal/controller/krkngraphrun_controller.go:605-625 | the five node phases partition the entries |
| `GraphSummary.RecalculatedMeaning` | internal/controller/krkngraphrun_controller.go:605-652 | each of the five phases read off the entries, both directions; PartiallyFailed exactly when some entry failed and some completed; the first completion time is kept |
| `GraphSummary.RecalculatedCounters` | internal/controller/krkngraphrun_controller.go:606-625 | each counter is the number of entries in its phase, blocked ones counted as pending, and they add up |
| `GraphSummary.EntriesAreExecuted` | internal/controller/krkngraphrun_controller.go:270-290 | in every stored resolved version exactly the keys without a leading underscore have an entry and are counted |
| `GraphSummary.SummaryConserved` | internal/controller/krkngraphrun_controller.go:221-292 | in every stored initialised status completed + running + failed + pending is the number of executed nodes |
| `GraphSummary.CompletedMeansAllSucceeded` | internal/controller/krkngraphrun_controller.go:605-652 | a stored Completed phase means every executed node's run had succeeded in one listing |
| `GraphProgress.IdealPass` | internal/controller/krkngraphrun_controller.go:190-209 | the i-th ideal pass asks for exactly level i and completes exactly when no level is left |
| `GraphProgress.ProgressBound` | internal/controller/krkngraphrun_controller.go:190-209 | L levels: Running after each of the first L passes, Completed at the (L+1)-th and not earlier |
| `GraphCompletion.ResolvedIsReady` | internal/controller/krkngraphrun_controller.go:260-308 | what the resolving pass stores on an admitted, layered graph meets the assumptions of that bound |
| `GraphCompletion.SoundGraphCompletes` | internal/controller/krkngraphrun_controller.go:118-218 | an execution of the whole system whose passes are the ideal ones: resolution, one Running status per level, then Completed |
| `GraphCompletion.RootedGraphCompletes` | internal/controller/krkngraphrun_controller.go:118-218 | every admitted graph whose chains end and whose nodes can be created has such an execution |
| `Store.CompareAndSetSerialises` | internal/controller/krknscenariorun_controller.go:246-249 | any interleaving of fetches, lost and rejected writes stores a chain of single client operations |
| `Backoff.DelayExactIff` | internal/controller/krknscenariorun_controller.go:1111-1126 | the wrapped 64-bit delay equals base * 2^r exactly while that is below 2^63 |
| `Backoff.DefaultDelayExactIff` | internal/controller/krknscenariorun_controller.go:1111-1126 | for the default base, exactly up to r = 29 |
| `Backoff.DelayResidue` | internal/controller/krknscenariorun_controller.go:1120-1123 | whatever the counter, the exponential delay is the signed 64-bit residue of base * 2^r |
| `Backoff.FixedDelay` | internal/controller/krknscenariorun_controller.go:1112-1126 | fixed backoff waits the given delay, or ten seconds, whatever the counter |
| `ScenarioReconciler.ScenarioRun.JobExistsForCluster` | internal/controller/krknscenariorun_controller.go:1129-1141 | the cluster's first job decides, and one being retried does not count |
| `ScenarioReconciler.ScenarioRun.CreateClusterJob` | internal/controller/krknscenariorun_controller.go:726-791 | a retried entry is rewritten in place, otherwise a job is appended; failure changes nothing |
| `ScenarioReconciler.ScenarioRun.CreateMissingJobs` | internal/controller/krknscenariorun_controller.go:167-196 | the creation loop over providers and clusters, best effort, in any map order |
| `ScenarioReconciler.ScenarioRun.RetryOrSettle` | internal/controller/krknscenariorun_controller.go:944-1019 | the retry decision for a failed job: wait, retry, cancel or give up |
| `ScenarioReconciler.ScenarioRun.CheckClusterJob` | internal/controller/krknscenariorun_controller.go:801-1030 | one job against its pod, with every skip condition and pod phase; what that comes to is CheckOutcome |
| `ScenarioReconciler.ScenarioRun.UpdateClusterJobStatuses` | internal/controller/krknscenariorun_controller.go:795-1033 | all jobs checked in order |
| `ScenarioReconciler.ScenarioRun.CalculateOverallStatus` | internal/controller/krknscenariorun_controller.go:1144-1178 | counters and overall phase of the jobs |
| `ScenarioReconciler.ScenarioRun.Reconcile` | internal/controller/krknscenariorun_controller.go:127-266 | the writes of a pass: the initial one, and the result when it differs from the snapshot taken after the creation loop |
| `ScenarioReconciler.DeleteSingleJob` | internal/api/handlers.go:2050-2102 | the first run with the job decides; cancellation is stored in it alone, and only when the caller may cancel that job and the write is accepted |
| `ScenarioJobs.CheckInPlace` | internal/controller/krknscenariorun_controller.go:965-1006 | a retry rewrites its own entry, never appends, and leaves no job marked as being retried |
| `ScenarioChecks.CheckOutcome` | internal/controller/krknscenariorun_controller.go:801-1030 | one check field by field: left alone, missing after 30 seconds, copied, or failed and then cancelled, given up, waiting or retried, against the job's own maximum, else the specification's, else 3 |
| `ScenarioJobs.CreationAppends` | internal/controller/krknscenariorun_controller.go:169-196 | the creation loop only appends fresh jobs of target clusters without one |
| `ScenarioChecks.CreationOutcome` | internal/controller/krknscenariorun_controller.go:721-755 | the new entries field by field: first attempts in target order, one for every target cluster without a job whose creation succeeds |
| `ScenarioChecks.FlattenPairs` | internal/controller/krknscenariorun_controller.go:169-170 | the targets are the clusters of the specification, each under its own provider |
| `ScenarioJobs.NextJobStep` | internal/controller/krknscenariorun_controller.go:801-1030 | what one check may do to a stored job: attempts, counters, cancellation, spacing |
| `ScenarioHistory.InterleavingsAreHistories` | internal/controller/krknscenariorun_controller.go:246-249 | passes and cancel requests in any interleaving store a chain of single operations |
| `ScenarioHistory.JobListInvariant` | internal/controller/krknscenariorun_controller.go:169-196 | in every stored status clusters are distinct targets, jobs do not outnumber targets, none is marked as being retried |
| `ScenarioHistory.JobsStay` | internal/controller/krknscenariorun_controller.go:726-755 | a job keeps its position and cluster in every later version |
| `ScenarioHistory.CancelledJobFrozen` | internal/api/handlers.go:2091-2102 | once cancellation is stored, job ID, pod name and retry count are the same in every later version |
| `ScenarioHistory.ClosedJobStays` | internal/controller/krknscenariorun_controller.go:801-827 | a succeeded, cancelled or given-up job never changes again but for the cancel flag |
| `ScenarioHistory.RetriesBounded` | internal/controller/krknscenariorun_controller.go:1091-1108 | retry count within the maximum, the maximum fixed once set, every new attempt paid for by a retry |
| `ScenarioChecks.EveryStoredJob` | internal/controller/krknscenariorun_controller.go:935-941 | in every stored version a job's maximum is unset or the one the specification gives, 3 when it gives none; given up only after that many retries, cancelled only on request |
| `ScenarioHistory.BackoffSpacing` | internal/controller/krknscenariorun_controller.go:944-968 | for a given or the default base, the m-th retry is at least base * (2^m - 2) after the first, while the last delay fits in 64 bits |
| `ScenarioHistory.NextRetryWaits` | internal/controller/krknscenariorun_controller.go:944-968 | between any two versions with r and r+1 retries the later retry is at least base * 2^r after the earlier one |
| `ScenarioHistory.RunSpecExponential` | internal/controller/krknscenariorun_controller.go:1111-1126 | every run with exponential backoff, whatever delay it gives or leaves out, has the delays these two theorems assume |
| `ScenarioChecks.FixedSpacing` | internal/controller/krknscenariorun_controller.go:1124-1126 | under fixed backoff each retry after the first comes at least the given delay, or ten seconds, after the one before |
| `ScenarioFinality.CountsPartition` | internal/controller/krknscenariorun_controller.go:1144-1160 | the four counters partition the jobs |
| `ScenarioFinality.CountersMeaning` | internal/controller/krknscenariorun_controller.go:1147-1162 | each stored counter is the number of jobs in its phases |
| `ScenarioFinality.SameStatusMeaning` | internal/controller/krknscenariorun_controller.go:1229-1286 | a result counts as unchanged exactly when it differs in nothing but the jobs' providers, URLs and images |
| `ScenarioFinality.OverallMeaning` | internal/controller/krknscenariorun_controller.go:1162-1178 | each overall phase read off the jobs, both directions |
| `ScenarioFinality.QuiescentIff` | internal/controller/krknscenariorun_controller.go:169-262 | no pass can change the status exactly when every target has a job and every job is skipped |
| `ScenarioOutcomes.RecordedFailuresAreKnown` | internal/controller/krknscenariorun_controller.go:888-1006 | from a new object on, a job recorded as failed, other than for a missing or unknown pod, has a pod that ended badly |
| `ScenarioOutcomes.FailedStaysIff` | internal/controller/krknscenariorun_controller.go:944-1019 | overall Failed stays in every later version exactly when every target has a job and no job may leave its failure: by a retry if its pod has failed, otherwise unless skipped out of reach of a cancel request |
| `ScenarioOutcomes.FailedStaysIffHopeless` | internal/controller/krknscenariorun_controller.go:801-827 | with distinct job IDs: exactly when every target has a job and every job is closed or has a failed pod that will not be retried |
| `ScenarioOutcomes.SucceededReachableIff` | internal/controller/krknscenariorun_controller.go:944-1019 | from overall Failed some later version is Succeeded exactly when no job is closed or has a failed pod that will not be retried |
| `ScenarioOutcomes.RetryThenSuccess` | internal/controller/krknscenariorun_controller.go:944-1006 | jobs waiting for backoff: the pass that finds their failed pods after the delay starts new ones, from which Succeeded is reached |
| `ScenarioOutcomes.FailedThenSucceeded` | internal/controller/krknscenariorun_controller.go:955-1006 | a history from a new object that stores Failed and from which Succeeded is reached |
| `ScenarioRecording.UnseenIff` | internal/controller/krknscenariorun_controller.go:1264-1286 | a check changes nothing that is compared exactly when there is nothing new about the job, case by case |
| `ScenarioRecording.CreatedUnrecordedIff` | internal/controller/krknscenariorun_controller.go:204-249 | a pass that created pods writes nothing exactly when the run counts as Running already and there is nothing new about any job |
| `ScenarioRecording.CreatedAndForgotten` | internal/controller/krknscenariorun_controller.go:204-249 | while other jobs run, such a pass exists for every target without a job |
| `ScenarioFinality.SucceededStaysIff` | internal/controller/krknscenariorun_controller.go:1165-1173 | overall Succeeded survives every change exactly when every target has a job |
| `ScenarioFinality.SettledStays` | internal/controller/krknscenariorun_controller.go:801-827 | once every target has a closed job, only cancel flags ever change |
| `ProviderReconciler.CheckProviderActive` | internal/controller/provider_helpers.go:32-63 | active exactly when the first entry with that name is active |
| `ProviderReconciler.CountActiveProviders` | internal/controller/provider_helpers.go:67-79 | the active names in list order and their number |
| `ProviderReconciler.BuildClusterTargets` | internal/controller/krkntargetrequest_controller.go:233-261 | the specification's list of ready targets |
| `ProviderReconciler.ReadyTargetsInOrder` | internal/controller/krkntargetrequest_controller.go:239-257 | that list picks all ready targets and no others, in order, each with its own name and URL |
| `ProviderReconciler.InitializeStatus` | internal/controller/krknoperatortargetproviderconfig_controller.go:225-239 | a new status becomes pending by compare-and-set, any other is left alone |
| `ProviderReconciler.CheckCompletion` | internal/controller/krknoperatortargetproviderconfig_controller.go:242-293 | completes by compare-and-set exactly when the counting test passes |
| `ProviderReconciler.ReconcileConfig` | internal/controller/krknoperatortargetproviderconfig_controller.go:50-205 | every version it adds is one legal write on the version before; undisturbed, the whole pass |
| `ProviderReconciler.ContributeTargets` | internal/controller/krkntargetrequest_controller.go:113-177 | the writing stages of an active operator: undisturbed they set its key to the given targets whether or not it had one, and a failing listing or Secret write stops them where the source stops |
| `ProviderReconciler.ReconcileTargetRequest` | internal/controller/krkntargetrequest_controller.go:58-198 | every version it adds is one legal write; undisturbed, an active operator's pass over an open request ends with exactly the ready targets under its name and all else kept, completed by the count |
| `ProviderModel.TargetPassMeaning` | internal/controller/krkntargetrequest_controller.go:264-337 | such a pass replaces what the operator had contributed before and completes exactly when there are active entries and no fewer keys |
| `ProviderModel.ConfigPassMeaning` | internal/controller/krknoperatortargetproviderconfig_controller.go:50-205 | the other controller adds its marker once, dates the first pass and completes by the same count |
| `ProviderConfig.UpdateProviderConfig` | pkg/provider/config.go:111-172 | success stores the version before with this operator's entry set to the new data, whether or not it had one, and all else equal; with fresh reads it succeeds exactly when one of five attempts is clean and those before it only conflict |
| `ProviderCompletion.CountTestSoundIff` | internal/controller/krkntargetrequest_controller.go:318-323 | counting implies that all active providers contributed exactly under a size condition |
| `ProviderCompletion.DistinctNamesExact` | internal/controller/krkntargetrequest_controller.go:291-323 | with distinct active names: exactly when the possible contributors are the active providers |
| `ProviderCompletion.CompletableIffDistinct` | internal/controller/provider_helpers.go:67-79 | active contributors can pass the test exactly when no active name is listed twice |
| `ProviderCompletion.ControllersWrite` | internal/controller/krkntargetrequest_controller.go:218-337 | every write of either controller and of the contribution helper is one of the writes the theorems below quantify over |
| `ProviderCompletion.KeysAndCompletionStay` | pkg/provider/config.go:141-165 | over every interleaving keys are never lost and Completed never reverts |
| `ProviderCompletion.CompletedMeansAllContributed` | internal/controller/krknoperatortargetproviderconfig_controller.go:242-293 | over every interleaving a Completed status holds every active provider's key |
| `ProviderCompletion.CompletionTrustworthyIff` | internal/controller/krkntargetrequest_controller.go:286-337 | this holds for all histories exactly under the size condition |
| `ProviderCompletion.LastPassCompletes` | internal/controller/krkntargetrequest_controller.go:264-337 | one pass per active operator in any order completes exactly at the last pass, with every contribution |
| `JwtSecret.LoadOrCreateSecret` | pkg/auth/secret_manager.go:182-310 | a returned key is the stored one, an existing Secret is never replaced, and every answer, success or error, is read off what the API calls meet |
| `JwtSecret.LoadOrCreateWithRetry` | pkg/auth/secret_manager.go:131-179 | bounded attempts, the exact waits, the reason for every failure; success whenever a permitted attempt meets no API error and the Secret is absent or usable |
| `JwtSecret.BackoffClosedForm` | pkg/auth/secret_manager.go:169-174 | capping at every doubling is capping once |
| `JwtSecret.StartWaits` | pkg/auth/secret_manager.go:131-179 | each wait at most 30 s, at most 151 s in all, reached only by nine waits |
| `JwtSecret.SecretManager.Start` | pkg/auth/secret_manager.go:77-102 | ready exactly on success, holding the stored key; ready whenever one of ten attempts meets no API error, none before it is cancelled and the Secret is absent or usable; a failure that is not a cancellation comes after nine waits of 1, 2, 4, 8, 16, 30, 30, 30 and 30 seconds |
| `JwtSecret.SecretManager.GetTokenGenerator` | pkg/auth/secret_manager.go:112-121 | a key exactly when ready, and it is the stored one |
| `JwtReplicas.ReplicasAgree` | pkg/auth/secret_manager.go:182-310 | any two replicas ever ready, at any two moments of any interleaving, hold the same stored key of at least 32 bytes |
| `JwtReplicas.ReadyStays` | pkg/auth/secret_manager.go:88-92 | between any two moments of any run, a ready replica keeps its key unless it restarts or stops |
| `JwtReplicas.AttemptsOfReplica` | pkg/auth/secret_manager.go:139-157 | a replica that is trying goes on, becomes ready or tries again, and gives up by itself only after its tenth attempt |
| `JwtReplicas.ReadyPossibleIff` | pkg/auth/secret_manager.go:196-231 | a replica can become ready exactly when the Secret found at first is absent or usable |
| `TerminalParser.Tokenize` | pkg/terminal/parser.go:126-177 | the loop computes the scanner function |
| `TerminalParser.ParseCommand` | pkg/terminal/parser.go:45-121 | error cases, tokens, then the flag loop |
| `TerminalParser.ParseTokenList` | pkg/terminal/parser.go:60-121 | the index loop computes the recursive parse of a token list |
| `TerminalArgv.EmbeddedValueGrammar` | pkg/terminal/parser.go:84-91 | `--name=value` sets that flag to that value |
| `TerminalArgv.LongFlagGrammar` | pkg/terminal/parser.go:92-95 | `--name` takes the next token as its value unless that starts with a dash |
| `TerminalArgv.ShortFlagGrammar` | pkg/terminal/parser.go:101-108 | so does `-name`, an equals sign being part of the name |
| `TerminalArgv.LongBooleanGrammar` | pkg/terminal/parser.go:96-100 | without such a token `--name` is a boolean flag |
| `TerminalArgv.ShortBooleanGrammar` | pkg/terminal/parser.go:109-113 | and so is `-name` |
| `TerminalArgv.ArgumentGrammar` | pkg/terminal/parser.go:114-118 | any other token, a lone dash among them, is an argument |
| `TerminalArgv.CommandGrammar` | pkg/terminal/parser.go:56-77 | the first two tokens are the command and its subcommand, which may be missing |
| `TerminalParser.EqualsAt` | pkg/terminal/parser.go:181-192 | the first '=' and only that |
| `TerminalTokens.TokensAreRuns` | pkg/terminal/parser.go:126-177 | fails exactly inside a quote, otherwise the runs of literal characters of a two-pass reading |
| `TerminalTokens.TokensKeepLiterals` | pkg/terminal/parser.go:126-177 | no empty token; together the tokens are all literal characters in order |
| `TerminalTokens.TokenizeUndoesJoin` | pkg/terminal/parser.go:126-177 | tokenising undoes quoting and joining of any non-empty tokens |
| `TerminalArgv.BuildArgv` | krkn-operator-data-provider/server.py:101-125 | the vector in some iteration order of the flags |
| `TerminalArgv.ArgvSections` | krkn-operator-data-provider/server.py:101-125 | command, subcommand and arguments as they are, each flag with one dash when its name is one character long and two otherwise, and the configuration flag last |
| `TerminalArgv.ArgvParsed` | krkn-operator-data-provider/server.py:101-125 | what any built vector parses to, section by section |
| `TerminalArgv.FaithfulRoundTrip` | krkn-operator-data-provider/server.py:101-125 | a faithful command comes back with only the kubeconfig flag set |
| `TerminalArgv.RoundTripIff` | krkn-operator-data-provider/server.py:101-125 | it comes back exactly when no name is cut or a dash, no value starts with a dash and the arguments are proper |
| `TerminalWhitelist.CheckCommand` | pkg/terminal/whitelist.go:47-77 | the service's nested searches: not found exactly for an unlisted command, permitted exactly for a listed or empty subcommand without a blocked flag |
| `TerminalWhitelist.GivenIffNamed` | pkg/terminal/parser.go:79-121 | after parsing, a flag is given exactly when some token names it as `--name`, `--name=value` or `-name` |
| `TerminalWhitelist.TypedVerdict` | pkg/terminal/commands.go:40-80 | for every typed text, off its tokens: permitted exactly when the first is kubectl or oc, the second, if any, one of the nine read-only subcommands and no later one names watch, w, follow, f or watch-only; not found exactly when the first is neither |
| `TerminalWhitelist.ConfigurationKeepsVerdict` | pkg/terminal/whitelist.go:47-77 | setting a flag that is not blocked never changes the verdict, whose meaning is CheckCommand's |
| `TerminalWhitelist.TypedCommandRoundTrip` | pkg/terminal/parser.go:45-121 | for every typed text: exact round-trip condition on the flags, and then the same verdict on both |
| `TerminalWhitelist.EmbeddedDashIsLost` | pkg/terminal/parser.go:84-91 | a parsed `--name=-value` is not rebuilt |
| `Permissions.AggregateClusterPermissions` | pkg/groupauth/permissions.go:82-110 | the aggregate lists an action for a URL exactly when some group does, without duplicates |
| `Permissions.CanPerformAction` | pkg/groupauth/permissions.go:120-135 | true exactly when some group lists the action for that URL |
| `Permissions.FilterClustersByPermission` | pkg/groupauth/validation.go:114-164 | each provider keeps exactly its permitted clusters in order; empty providers are dropped |
| `Permissions.CheckScenarioRunGroupAccess` | internal/api/authorization.go:170-198 | true exactly when some job with a URL is permitted |
| `Permissions.CheckScenarioRunCancelAccess` | internal/api/authorization.go:203-235 | admins, or a member of some group permitted on every job with a URL |
| `Permissions.FilterJobsByPermission` | internal/api/authorization.go:305-329 | exactly the permitted jobs, in order |
| `Permissions.AccessAgreesWithFiltering` | internal/api/authorization.go:187-197 | a run passes the group check exactly when filtering leaves a job; filtering picks the permitted jobs in order |
| `PermissionRuns.BuildClusterAPIURLMap` | pkg/groupauth/validation.go:167-177 | each name maps to the last URL of the last provider listing it, in some map order |
| `PermissionRuns.LastUrlIsLast` | pkg/groupauth/validation.go:167-177 | within one provider the last entry with the name decides |
| `PermissionRuns.ValidateScenarioRunAccess` | pkg/groupauth/validation.go:48-100 | allowed only when every selected name resolves to a permitted URL; every refusal is explained |
| `PermissionRuns.AllowedExactlyWhenPasses` | pkg/groupauth/validation.go:74-93 | such a verdict is Allowed exactly when the selection passes in that map order |
| `PermissionRuns.AlwaysPassesIff` | pkg/groupauth/validation.go:68-93 | it passes in every map order exactly when every provider listing a selected name ends with a permitted URL |
| `PermissionRuns.OrderDecides` | pkg/groupauth/validation.go:68-93 | two providers listing a name, one with a URL that is not permitted: one map order passes, the other does not |
| `PermissionRuns.OfferedSelectionsPass` | pkg/groupauth/validation.go:68-93 | with one URL per name, every selection from the clusters filtered for 'run' passes in every order |
| `PermissionRuns.OffersHonouredIff` | pkg/groupauth/validation.go:68-93 | without that, exactly when every offered name is sound |

## Left out

- HTTP routing, JSON, WebSocket and gRPC plumbing, process execution: input and output only.
- prepareJobResources, volumes, ConfigMaps, registry secrets, image paths: only whether a creation succeeds is modelled.
- The dependency-graph library and InputField validation: the library's answer is a parameter, its contract three hypotheses.
- The environment and volume mapping of MapScenarioNodeToScenarioRunSpec: only its required fields decide anything here.
- The content of the managed-clusters Secret (its write may fail, which is modelled), CleanupOldResources, the UUID label update: the last appears as a write that changes no status.
- JWT signing, password hashing, user, registry and target management, pagination, provider heartbeat: thin or easy members.
- Finalizers and object deletion of graph runs and scenario runs: a metadata update is a new version with the same status.
- Changing a specification during a run: the graph, the targets and the retry settings are fixed for an execution.
- Unicode case folding: lowering is any function that leaves legal characters alone.
- ScenarioOutcomes.FailedStaysIff: what passes are told of a pod that has not ended is any phase that is not final, in any order.
- Truncation of stored times to whole seconds: one clock with one granularity is used throughout.
- Message texts: modelled as datatype values; the text of pod errors is a parameter.
- ScenarioReconciler.ScenarioRun.CheckClusterJob: one clock reading serves a whole job check, where the source reads the clock again for each field.
- ProviderReconciler.ReconcileConfig: one clock reading per pass, and the two refetches before the completion check are one read.
- GraphReconciler.GraphRun.CreateScenarioRun: a failing owner reference is not modelled; it cannot arise for a new object in the same namespace.
- GraphReconciler.GraphRun.Reconcile: the deletion and finalizer branches (lines 134-155) are not part of the pass.
- ScenarioReconciler.DeleteSingleJob: the pod deletion after the stored request is not modelled; the cancel step is complete before it.
- GraphFailFast.BlockedNodesHaveNoRun: stated for passes that do not overlap, fetch the newest status and do not list older states, because without any one of these it is false unless failed runs stay failed.
- GraphFailFast.BlockedRunMeansNewerListing: a necessary condition on one creation; the exact condition on disciplines is GraphDiscipline.ClosureGuaranteedIff.
- GraphSystem.Reachable: the layering stored by a pass is arbitrary, so properties that need a good layering assume it of the stored levels.
- The admin bypass and the claim checks around the permission functions, except in the cancel check: they only short-circuit.
