/** The counters and the overall phase of a graph run, in every stored status. */
module GraphSummary {
  import opened Common
  import opened GraphTypes
  import opened GraphPass
  import opened GraphFrontier
  import opened GraphSystem
  import opened GraphSafety
  import opened GraphFailFast

  /** Every entry is counted in exactly one of the four buckets. */
  lemma {:induction false} PhasesPartition(nodes: seq<NodeStatus>)
    ensures CountPhase(nodes, NodeCompleted) + CountPhase(nodes, NodeRunning) + CountPhase(nodes, NodeFailed)
            + CountPhase(nodes, NodePending) + CountPhase(nodes, NodeBlocked) == |nodes|
  {
    if nodes != [] {
      PhasesPartition(nodes[..|nodes| - 1]);
    }
  }

  ghost predicate Conserved(summary: Summary) {
    summary.completed + summary.running + summary.failed + summary.pending == summary.total
  }

  ghost predicate AllCompleted(nodes: seq<NodeStatus>) {
    forall i :: 0 <= i < |nodes| ==> nodes[i].phase == NodeCompleted
  }

  lemma PhaseCounts(nodes: seq<NodeStatus>, phase: NodePhase)
    ensures CountPhase(nodes, phase) <= |nodes|
    ensures CountPhase(nodes, phase) == |nodes| <==> forall i :: 0 <= i < |nodes| ==> nodes[i].phase == phase
    ensures CountPhase(nodes, phase) > 0 <==> exists i :: 0 <= i < |nodes| && nodes[i].phase == phase
  {
    CountAllOrNot((n: NodeStatus) => n.phase == phase, nodes);
  }

  ghost predicate SomeNode(nodes: seq<NodeStatus>, phase: NodePhase) {
    exists i :: 0 <= i < |nodes| && nodes[i].phase == phase
  }

  /** The number of entries in each phase. */
  ghost function SizeOf(nodes: seq<NodeStatus>, phase: NodePhase): nat {
    |set i | 0 <= i < |nodes| && nodes[i].phase == phase|
  }

  lemma CountedBySize(nodes: seq<NodeStatus>, phase: NodePhase)
    ensures CountPhase(nodes, phase) == SizeOf(nodes, phase)
  {
    var p := (n: NodeStatus) => n.phase == phase;
    CountIsSize(p, nodes);
    assert Where(p, nodes) == set i | 0 <= i < |nodes| && nodes[i].phase == phase;
  }

  /**
   A recomputed status: each of its phases read off the entries, both directions; the first time it is
   Completed is kept, and nothing else but the counters changes.
   */
  lemma RecalculatedMeaning(status: GraphStatus, now: int)
    ensures var after := Recalculated(status, now); var nodes := status.nodes;
            && (after.phase == Completed <==> AllCompleted(nodes))
            && (after.phase == Failed <==> SomeNode(nodes, NodeFailed) && !SomeNode(nodes, NodeCompleted))
            && (after.phase == PartiallyFailed <==> SomeNode(nodes, NodeFailed) && SomeNode(nodes, NodeCompleted))
            && (after.phase == Running <==>
                 && !SomeNode(nodes, NodeFailed) && !AllCompleted(nodes)
                 && (SomeNode(nodes, NodeRunning) || SomeNode(nodes, NodeCompleted)))
            && (after.phase == Pending <==> nodes != [] && forall i ::
                 0 <= i < |nodes| ==> nodes[i].phase == NodePending || nodes[i].phase == NodeBlocked)
            && after.completionTime == (if AllCompleted(nodes) && status.completionTime.None? then Some(now)
                 else status.completionTime)
            && after == status.(phase := after.phase, summary := after.summary,
                 completionTime := after.completionTime)
  {
    PhasesPartition(status.nodes);
    PhaseCounts(status.nodes, NodeCompleted);
    PhaseCounts(status.nodes, NodeFailed);
    PhaseCounts(status.nodes, NodeRunning);
  }

  /** The recomputed counters: entries in each phase, blocked ones counted as pending, adding up to all. */
  lemma RecalculatedCounters(status: GraphStatus, now: int)
    ensures var summary, nodes := Recalculated(status, now).summary, status.nodes;
            && summary == Summary(|nodes|, SizeOf(nodes, NodeCompleted), SizeOf(nodes, NodeRunning),
                 SizeOf(nodes, NodeFailed), SizeOf(nodes, NodePending) + SizeOf(nodes, NodeBlocked))
            && Conserved(summary)
  {
    PhasesPartition(status.nodes);
    CountedBySize(status.nodes, NodeCompleted);
    CountedBySize(status.nodes, NodeRunning);
    CountedBySize(status.nodes, NodeFailed);
    CountedBySize(status.nodes, NodePending);
    CountedBySize(status.nodes, NodeBlocked);
  }

  ghost function Ids(nodes: seq<NodeStatus>): seq<string> {
    seq(|nodes|, i requires 0 <= i < |nodes| => nodes[i].nodeId)
  }

  /** Counters are conserved, and once resolved there is one entry per executed node. */
  ghost predicate Accounted(op: Operator, status: GraphStatus) {
    && (status.phase != Unset ==>
         Conserved(status.summary) && status.summary.total == |ExecutableNodes(op.spec.graph)|)
    && (status.levels != [] ==> Enumerates(Ids(status.nodes), ExecutableNodes(op.spec.graph)))
  }

  lemma ResolvedIds(op: Operator, status: GraphStatus, levels: Levels, order: seq<string>)
    requires Enumerates(order, ExecutableNodes(op.spec.graph))
    ensures Ids(Resolved(op, status, levels, order).nodes) == order
  {
  }

  lemma ProcessedIds(op: Operator, status: GraphStatus, answers: Answers, now: int)
    ensures SameIds(status.nodes, Processed(op, status, answers, now).nodes)
    ensures Processed(op, status, answers, now).levels == status.levels
  {
    var f := FrontierExists(op, answers.index, status.levels, 0);
    WalkStopsAtFrontier(op, answers, Start(status), status.levels, 0, f);
    var (m, ending) := Walked(op, status, answers);
    if ending.FailFast? {
      BlockFromMarks(m.nodes, status.levels, ending.from);
    }
  }

  lemma ProcessedAccounted(op: Operator, status: GraphStatus, answers: Answers, now: int)
    requires Processes(status) && Accounted(op, status)
    ensures Accounted(op, Processed(op, status, answers, now))
  {
    var after := Processed(op, status, answers, now);
    ProcessedIds(op, status, answers, now);
    assert Ids(after.nodes) == Ids(status.nodes);
    EnumerationSize(Ids(status.nodes), ExecutableNodes(op.spec.graph));
    PhasesPartition(after.nodes);
  }

  lemma SubmittedAccounted(op: Operator, status: GraphStatus, inputs: PassInputs, i: nat)
    requires Accounted(op, status) && Enumerates(inputs.order, ExecutableNodes(op.spec.graph))
    requires status.phase == Unset ==> status.levels == []
    requires i < |Submitted(op, status, inputs)|
    ensures Accounted(op, Submitted(op, status, inputs)[i])
    ensures Submitted(op, status, inputs)[i].phase != Unset
  {
    if Processes(status) {
      ProcessedAccounted(op, status, inputs.answers, inputs.now);
      if Walked(op, status, inputs.answers).1 != Aborted {
        assert Submitted(op, status, inputs)[i].phase == PhaseFor(Submitted(op, status, inputs)[i].summary);
      }
    } else if status.phase != Unset && inputs.layering.Some? {
      ResolvedIds(op, status, inputs.layering.value, inputs.order);
    }
  }

  ghost predicate AllAccounted(op: Operator, s: System) {
    forall v :: 0 <= v < |s.graph| ==>
        Accounted(op, s.graph[v])
        && (s.graph[v].phase == Unset ==> s.graph[v].levels == [])
  }

  lemma StepKeepsAccounted(op: Operator, s: System, s': System)
    requires AllAccounted(op, s) && Next(op, s, s')
    ensures AllAccounted(op, s')
  {
    if pass: nat, inputs: PassInputs, i: nat :| Write(op, s, s', pass, inputs, i) {
      SubmittedAccounted(op, s.graph[s.active[pass].readAt], inputs, i);
    }
  }

  /**
   Conservation: in every stored status after initialisation the four counters add up to the number of
   executed nodes.
   */
  lemma {:induction false} SummaryConserved(op: Operator, run: seq<System>, v: nat)
    requires Execution(op, run) && v < |Last(run).graph|
    ensures Accounted(op, Last(run).graph[v])
  {
    ReachableAccounted(op, run);
  }

  /** Once resolved, exactly the graph's keys that do not begin with an underscore have an entry and are counted. */
  lemma EntriesAreExecuted(op: Operator, run: seq<System>, v: nat)
    requires Execution(op, run) && v < |Last(run).graph| && Last(run).graph[v].levels != []
    ensures var status := Last(run).graph[v];
            && (forall n :: (exists i :: 0 <= i < |status.nodes| && status.nodes[i].nodeId == n) <==>
                 n in op.spec.graph && (n == "" || n[0] != '_'))
            && (status.phase != Unset ==>
                 status.summary.total == |set n | n in op.spec.graph && (n == "" || n[0] != '_')|)
  {
    SummaryConserved(op, run, v);
    var status := Last(run).graph[v];
    assert ExecutableNodes(op.spec.graph) == set n | n in op.spec.graph && (n == "" || n[0] != '_');
    forall n
      ensures (exists i :: 0 <= i < |status.nodes| && status.nodes[i].nodeId == n) <==>
          n in op.spec.graph && (n == "" || n[0] != '_')
    {
      IdsAre(status.nodes, n);
    }
  }

  lemma IdsAre(nodes: seq<NodeStatus>, n: string)
    ensures n in Ids(nodes) <==> exists i :: 0 <= i < |nodes| && nodes[i].nodeId == n
  {
    if i :| 0 <= i < |nodes| && nodes[i].nodeId == n {
      assert Ids(nodes)[i] == n;
    }
  }

  lemma {:induction false} ReachableAccounted(op: Operator, run: seq<System>)
    requires Execution(op, run)
    ensures AllAccounted(op, Last(run))
  {
    if |run| > 1 {
      ExecutionPrefix(op, run);
      ReachableAccounted(op, run[..|run| - 1]);
      StepKeepsAccounted(op, run[|run| - 2], run[|run| - 1]);
    }
  }

  // ---------------------------------------------------------------------------------------
  // Losing status writes

  lemma EntriesFound(nodes: seq<NodeStatus>, n: string)
    ensures Find(nodes, n).Some? <==> n in Ids(nodes)
  {
    if Find(nodes, n).Some? {
      assert Ids(nodes)[Find(nodes, n).value] == n;
    }
  }

  lemma AccountedAlike(op: Operator, a: GraphStatus, b: GraphStatus)
    requires Accounted(op, a) && Accounted(op, b) && a.levels != [] && b.levels != []
    ensures SameEntries(a.nodes, b.nodes)
  {
    forall n ensures Find(a.nodes, n).Some? <==> Find(b.nodes, n).Some? {
      EntriesFound(a.nodes, n);
      EntriesFound(b.nodes, n);
    }
  }

  /**
   Any two open, resolved versions an execution ever stores lead to the same requests and the same
   ending for the same answers: whichever of them a pass fetches, and whichever write is lost, the
   decision is the same.
   */
  lemma StoredVersionsDecideAlike(op: Operator, run: seq<System>, i: nat, j: nat, answers: Answers)
    requires Execution(op, run) && i < |Last(run).graph| && j < |Last(run).graph|
    requires Processes(Last(run).graph[i]) && Processes(Last(run).graph[j])
    ensures var a, b := Last(run).graph[i], Last(run).graph[j];
            Attempts(op, a, answers) == Attempts(op, b, answers) && Walked(op, a, answers).1 == Walked(op, b, answers).1
  {
    var graph := Last(run).graph;
    ReachableChain(op, run);
    if i <= j {
      LaterVersions(graph, i, j);
    } else {
      LaterVersions(graph, j, i);
    }
    SummaryConserved(op, run, i);
    SummaryConserved(op, run, j);
    AccountedAlike(op, graph[i], graph[j]);
    LostWritesChangeNoDecision(op, graph[i], graph[j], answers);
  }

  // ---------------------------------------------------------------------------------------
  // What a stored Completed means

  ghost predicate AllRunsSucceeded(op: Operator, runs: Runs) {
    forall n :: IsNode(op.spec.graph, n) ==> RunSucceededIn(op, runs, n)
  }

  lemma EntryOf(nodes: seq<NodeStatus>, n: string)
    requires AllCompleted(nodes)
    ensures !NodeIn(nodes, n, NodeFailed) && !NodeIn(nodes, n, NodeRunning) && !NodeIn(nodes, n, NodePending)
  {
  }

  /** If after a pass every entry is Completed, the listing showed every level entirely succeeded. */
  lemma AllCompletedMeansThrough(op: Operator, status: GraphStatus, answers: Answers, f: nat)
    requires IsFrontier(op, answers.index, status.levels, f)
    requires Walked(op, status, answers).1 != Aborted && AllCompleted(Walked(op, status, answers).0.nodes)
    ensures f == |status.levels|
  {
    if f < |status.levels| {
      WalkRefreshesFrontier(op, answers, Start(status), status.levels, 0, f);
      var n :| n in status.levels[f] && !Succeeded(op, answers.index, n);
      assert NodeIn(Walked(op, status, answers).0.nodes, n, PhaseNow(op, answers.index, n));
      EntryOf(Walked(op, status, answers).0.nodes, n);
      assert false;
    }
  }

  lemma CompletedPass(op: Operator, s: System, f: InFlight, now: int)
    requires Inv(op, s) && ActiveOk(op, s, f) && Processes(s.graph[f.readAt])
    requires Covers(op.spec.graph, s.graph[f.readAt].levels)
    requires Processed(op, s.graph[f.readAt], AnswersOf(f), now).phase == Completed
    ensures AllRunsSucceeded(op, s.runs[f.listAt])
  {
    var status := s.graph[f.readAt];
    var answers := AnswersOf(f);
    var (m, ending) := Walked(op, status, answers);
    var k := FrontierExists(op, answers.index, status.levels, 0);
    assert !ending.Aborted?;
    if ending.FailFast? {
      var blocked := status.(nodes := BlockFrom(m.nodes, status.levels, ending.from));
      RecalculatedMeaning(blocked, now);
      PassAsksForFrontier(op, status, answers, k);
      BlockFromMarks(m.nodes, status.levels, ending.from);
      FailFastNotCompleted(op, status, answers, k);
      assert false;
    }
    RecalculatedMeaning(status.(nodes := m.nodes), now);
    AllCompletedMeansThrough(op, status, answers, k);
    forall n | IsNode(op.spec.graph, n) ensures RunSucceededIn(op, s.runs[f.listAt], n) {
      assert InLevels(status.levels, n);
      var j :| 0 <= j < |status.levels| && n in status.levels[j];
      assert LevelSucceeded(op, answers.index, status.levels[j]);
      assert Succeeded(op, answers.index, n);
      IndexReturnsOwnRun(op, s.runs[f.listAt], f.items, n);
    }
  }

  lemma FailedEntryNotCompleted(m: seq<NodeStatus>, levels: Levels, k: nat, bad: string)
    requires k <= |levels| && NodeIn(m, bad, NodeFailed)
    ensures !AllCompleted(BlockFrom(m, levels, k))
  {
    BlockFromMarks(m, levels, k);
    assert BlockFrom(m, levels, k)[Find(m, bad).value].phase != NodeCompleted;
  }

  /** After fail-fast some entry is failed or blocked. */
  lemma FailFastNotCompleted(op: Operator, status: GraphStatus, answers: Answers, f: nat)
    requires IsFrontier(op, answers.index, status.levels, f)
    requires Walked(op, status, answers).1 == FailFast(f + 1) && f + 1 < |status.levels|
    ensures !AllCompleted(BlockFrom(Walked(op, status, answers).0.nodes, status.levels, f + 1))
  {
    var bad := FrontierFailure(op, status, answers, f);
    FailedEntryNotCompleted(Walked(op, status, answers).0.nodes, status.levels, f + 1, bad);
  }

  /** The failure a fail-fast pass has seen. */
  lemma FrontierFailure(op: Operator, status: GraphStatus, answers: Answers, f: nat) returns (bad: string)
    requires IsFrontier(op, answers.index, status.levels, f)
    requires Walked(op, status, answers).1 == FailFast(f + 1) && f + 1 < |status.levels|
    ensures bad in status.levels[f] && NodeIn(Walked(op, status, answers).0.nodes, bad, NodeFailed)
  {
    WalkStopsAtFrontier(op, answers, Start(status), status.levels, 0, f);
    WalkRefreshesFrontier(op, answers, Start(status), status.levels, 0, f);
    bad :| bad in status.levels[f] && ListedFailed(op, answers.index, bad);
  }

  /** A stored Completed is backed by a state of the runs in which every executed node's run had succeeded. */
  ghost predicate CompletedBacked(op: Operator, s: System) {
    forall v :: 0 <= v < |s.graph| && s.graph[v].phase == Completed ==>
      exists l :: 0 <= l < |s.runs| && AllRunsSucceeded(op, s.runs[l])
  }

  lemma StepKeepsBacked(op: Operator, s: System, s': System)
    requires Inv(op, s) && StoredLevelsCover(op, s) && CompletedBacked(op, s) && Next(op, s, s')
    ensures CompletedBacked(op, s')
  {
    NextExtends(op, s, s');
    forall v | 0 <= v < |s'.graph| && s'.graph[v].phase == Completed
      ensures exists l :: 0 <= l < |s'.runs| && AllRunsSucceeded(op, s'.runs[l])
    {
      if v < |s.graph| {
        assert s'.graph[v] == s.graph[v];
        var l :| 0 <= l < |s.runs| && AllRunsSucceeded(op, s.runs[l]);
        assert s'.runs[l] == s.runs[l];
      } else {
        NewVersionBacked(op, s, s', v);
      }
    }
  }

  lemma NewVersionBacked(op: Operator, s: System, s': System, v: nat)
    requires Inv(op, s) && StoredLevelsCover(op, s) && CompletedBacked(op, s) && Next(op, s, s')
    requires |s.graph| <= v < |s'.graph| && s'.graph[v].phase == Completed
    ensures exists l :: 0 <= l < |s'.runs| && AllRunsSucceeded(op, s'.runs[l])
  {
    if pass: nat, inputs: PassInputs, i: nat :| Write(op, s, s', pass, inputs, i) {
      NewWriteBacked(op, s, s', pass, inputs, i, v);
    } else {
      assert Touch(s, s');
      assert s.graph[|s.graph| - 1].phase == Completed;
    }
  }

  lemma NewWriteBacked(op: Operator, s: System, s': System, pass: nat, inputs: PassInputs, i: nat, v: nat)
    requires Inv(op, s) && StoredLevelsCover(op, s) && Write(op, s, s', pass, inputs, i)
    requires |s.graph| <= v < |s'.graph| && s'.graph[v].phase == Completed
    ensures exists l :: 0 <= l < |s'.runs| && AllRunsSucceeded(op, s'.runs[l])
  {
    var f := s.active[pass];
    assert ActiveOk(op, s, f);
    SubmittedFollows(op, s.graph[f.readAt], inputs, i);
    assert s'.graph[v] == Submitted(op, s.graph[f.readAt], inputs)[i];
    CompletedPass(op, s, f, inputs.now);
  }

  /** Completed is never reported early: at some moment every executed node's own run had succeeded. */
  lemma {:induction false} CompletedMeansAllSucceeded(op: Operator, run: seq<System>)
    requires Execution(op, run) && StoredLevelsCover(op, Last(run))
    ensures CompletedBacked(op, Last(run))
  {
    if |run| > 1 {
      ExecutionPrefix(op, run);
      var before := run[..|run| - 1];
      NextExtends(op, Last(before), Last(run));
      forall v | 0 <= v < |Last(before).graph| && Last(before).graph[v].levels != []
        ensures Covers(op.spec.graph, Last(before).graph[v].levels)
      {
        assert Last(run).graph[v] == Last(before).graph[v];
      }
      CompletedMeansAllSucceeded(op, before);
      Reachable(op, before);
      StepKeepsBacked(op, Last(before), Last(run));
    }
  }
}
