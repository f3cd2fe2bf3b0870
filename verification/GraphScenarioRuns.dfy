/** The graph's assumption that a succeeded run stays so, discharged by the scenario runs' own controller. */
module GraphScenarioRuns {
  import opened Common
  import opened GraphTypes
  import opened GraphPass
  import opened GraphSystem
  import opened GraphFailFast
  import ScenarioModel
  import ScenarioHistory
  import ScenarioFinality

  type Status = ScenarioModel.Status

  /** The phase of a scenario run as a graph pass lists it. */
  function RunPhaseOf(phase: ScenarioModel.OverallPhase): RunPhase {
    match phase
    case OverallUnset => RunUnset
    case OverallPending => RunPending
    case OverallRunning => RunRunning
    case OverallSucceeded => RunSucceeded
    case OverallPartiallyFailed => RunPartiallyFailed
    case OverallFailed => RunFailed
  }

  /** What is behind an object name: a specification, its stored statuses and which of them each listing shows. */
  datatype Behind = Behind(spec: ScenarioModel.Spec, history: seq<Status>, shown: nat -> nat)

  ghost predicate ShownBy(b: Behind, i: nat, r: ScenarioRun) {
    b.shown(i) < |b.history| && r.phase == RunPhaseOf(b.history[b.shown(i)].phase)
  }

  /** Whenever Succeeded is stored, every target cluster has a job. */
  ghost predicate SucceedsComplete(b: Behind) {
    && ScenarioHistory.History(b.spec, b.history)
    && forall v :: 0 <= v < |b.history| && b.history[v].phase == ScenarioModel.OverallSucceeded ==>
         ScenarioFinality.AllTargetsHaveJobs(b.spec, b.history[v])
  }

  /** The listed runs are backed by scenario-run histories, shown in order, and none is deleted. */
  ghost predicate Backed(op: Operator, runs: seq<Runs>, behind: string -> Behind) {
    && (forall name :: SucceedsComplete(behind(name)))
    && (forall i, name :: 0 <= i < |runs| && name in runs[i] && Ours(op, runs[i][name]) ==>
          ShownBy(behind(name), i, runs[i][name]))
    && (forall i :: 0 < i < |runs| ==> KeepsShowing(op, runs[i - 1], runs[i], behind, i))
  }

  ghost predicate KeepsShowing(op: Operator, runs: Runs, runs': Runs, behind: string -> Behind, i: nat)
    requires i > 0
  {
    forall name :: name in runs && Ours(op, runs[name]) ==>
      name in runs' && Ours(op, runs'[name]) && behind(name).shown(i - 1) <= behind(name).shown(i)
  }

  /** A stored Succeeded with a job for every target is final. */
  lemma SucceededIsFinal(b: Behind, u: nat, v: nat)
    requires SucceedsComplete(b) && u <= v < |b.history| && b.history[u].phase == ScenarioModel.OverallSucceeded
    ensures b.history[v].phase == ScenarioModel.OverallSucceeded
  {
    ScenarioHistory.HistoryOk(b.spec, b.history, u);
    ScenarioFinality.OverallMeaning(b.history[u].jobs);
    ScenarioFinality.SettledStays(b.spec, b.history, u, v);
  }

  lemma ShownPhase(phase: ScenarioModel.OverallPhase)
    ensures RunPhaseOf(phase) == RunSucceeded <==> phase == ScenarioModel.OverallSucceeded
  {
  }

  /** Runs backed in this way never lose a success, as the fail-fast closure assumes. */
  lemma BackedSuccessStays(op: Operator, runs: seq<Runs>, behind: string -> Behind)
    requires Backed(op, runs, behind)
    ensures SuccessStays(op, runs)
  {
    forall i | 0 < i < |runs| ensures KeepsSuccess(op, runs[i - 1], runs[i]) {
      forall n | RunSucceededIn(op, runs[i - 1], n) ensures RunSucceededIn(op, runs[i], n) {
        var name := ObjectName(op, n);
        var b := behind(name);
        assert KeepsShowing(op, runs[i - 1], runs[i], behind, i);
        assert ShownBy(b, i - 1, runs[i - 1][name]) && ShownBy(b, i, runs[i][name]);
        assert SucceedsComplete(b);
        ShownPhase(b.history[b.shown(i - 1)].phase);
        SucceededIsFinal(b, b.shown(i - 1), b.shown(i));
      }
    }
  }
}
