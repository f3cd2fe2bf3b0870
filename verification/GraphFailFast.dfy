/**
 Fail-fast: which nodes a pass blocks, and when a blocked node can nevertheless have a run.
 */
module GraphFailFast {
  import opened Common
  import opened GraphTypes
  import opened GraphPass
  import opened GraphFrontier
  import opened GraphSystem
  import opened GraphSafety
  import GraphValidation

  ghost predicate InLevelsFrom(levels: Levels, k: nat, n: string) {
    exists j :: k <= j < |levels| && n in levels[j]
  }

  /** Entry `i` is the one that is looked up for its node. */
  ghost predicate IsEntry(nodes: seq<NodeStatus>, i: nat) {
    i < |nodes| && Find(nodes, nodes[i].nodeId) == Some(i)
  }

  ghost predicate NoneBlocked(nodes: seq<NodeStatus>) {
    forall i :: 0 <= i < |nodes| ==> nodes[i].phase != NodeBlocked
  }

  // ---------------------------------------------------------------------------------------
  // One pass

  lemma {:induction false} BlockMarks(nodes: seq<NodeStatus>, level: seq<string>)
    ensures var nodes' := Block(nodes, level);
            && SameIds(nodes, nodes')
            && forall i :: 0 <= i < |nodes| ==>
                 nodes'[i].phase == if IsEntry(nodes, i) && nodes[i].nodeId in level then NodeBlocked
                     else nodes[i].phase
    decreases |level|
  {
    if level != [] {
      var nodes1 := WithNode(nodes, level[0], NodeBlocked, "", NO_TIMES);
      assert level == [level[0]] + level[1..];
      assert SameIds(nodes, nodes1);
      BlockMarks(nodes1, level[1..]);
      forall i | 0 <= i < |nodes| ensures IsEntry(nodes1, i) <==> IsEntry(nodes, i) {
        SameIdsFind(nodes, nodes1, nodes[i].nodeId);
      }
    }
  }

  lemma {:induction false} BlockFromMarks(nodes: seq<NodeStatus>, levels: Levels, k: nat)
    requires k <= |levels|
    ensures var nodes' := BlockFrom(nodes, levels, k);
            && SameIds(nodes, nodes')
            && forall i :: 0 <= i < |nodes| ==>
                 nodes'[i].phase == if IsEntry(nodes, i) && InLevelsFrom(levels, k, nodes[i].nodeId) then NodeBlocked
                     else nodes[i].phase
    decreases |levels| - k
  {
    if k < |levels| {
      var nodes1 := Block(nodes, levels[k]);
      BlockMarks(nodes, levels[k]);
      BlockFromMarks(nodes1, levels, k + 1);
      forall i | 0 <= i < |nodes| ensures IsEntry(nodes1, i) <==> IsEntry(nodes, i) {
        SameIdsFind(nodes, nodes1, nodes[i].nodeId);
      }
      forall n ensures InLevelsFrom(levels, k, n) <==> n in levels[k] || InLevelsFrom(levels, k + 1, n) {
      }
    }
  }

  lemma {:induction false} LevelBlocksNone(op: Operator, answers: Answers, m: Memory, level: seq<string>)
    requires NoneBlocked(m.nodes)
    ensures NoneBlocked(VisitAll(op, answers, m, level).nodes)
    decreases |level|
  {
    if level != [] && !m.failed {
      LevelBlocksNone(op, answers, Visit(op, answers, m, level[0]), level[1..]);
    }
  }

  lemma {:induction false} WalkBlocksNone(op: Operator, answers: Answers, m: Memory, levels: Levels, k: nat)
    requires k <= |levels| && NoneBlocked(m.nodes)
    ensures NoneBlocked(Walk(op, answers, m, levels, k).0.nodes)
    decreases |levels| - k
  {
    if k < |levels| {
      LevelBlocksNone(op, answers, m, levels[k]);
      if !VisitAll(op, answers, m, levels[k]).failed {
        WalkBlocksNone(op, answers, VisitAll(op, answers, m, levels[k]), levels, k + 1);
      }
    }
  }

  /** After the walk the frontier level carries the listed phases. */
  lemma {:induction false} WalkRefreshesFrontier(op: Operator, answers: Answers, m: Memory, levels: Levels, k: nat,
      f: nat)
    requires IsFrontier(op, answers.index, levels, f) && k <= f < |levels|
    requires k > 0 ==> Refreshed(op, answers.index, m.nodes, levels[k - 1])
    ensures var (m', ending) := Walk(op, answers, m, levels, k);
            ending != Aborted ==> Refreshed(op, answers.index, m'.nodes, levels[f])
    decreases |levels| - k
  {
    var index := answers.index;
    if k > 0 {
      RefreshedLevelChecks(op, index, m.nodes, levels[k - 1]);
      assert LevelSucceeded(op, index, levels[k - 1]);
    }
    var m1 := VisitAll(op, answers, m, levels[k]);
    LevelRefreshes(op, answers, m, levels[k]);
    if !m1.failed {
      if k < f {
        WalkRefreshesFrontier(op, answers, m1, levels, k + 1, f);
      } else {
        RefreshedLevelChecks(op, index, m1.nodes, levels[k]);
      }
    }
  }

  /** With the failed node outside the blocked levels, the recomputed phase is terminal. */
  lemma FailureStillCounted(m: seq<NodeStatus>, levels: Levels, k: nat, bad: string)
    requires k <= |levels| && NodeIn(m, bad, NodeFailed) && !InLevelsFrom(levels, k, bad)
    ensures CountPhase(BlockFrom(m, levels, k), NodeFailed) > 0
  {
    BlockFromMarks(m, levels, k);
    var nodes := BlockFrom(m, levels, k);
    assert nodes[Find(m, bad).value].phase == NodeFailed;
    CountAllOrNot((n: NodeStatus) => n.phase == NodeFailed, nodes);
  }

  /** Blocking starting from unblocked nodes marks exactly the looked-up entries of those levels. */
  lemma BlockedExactly(m: seq<NodeStatus>, levels: Levels, k: nat)
    requires k <= |levels| && NoneBlocked(m)
    ensures var nodes := BlockFrom(m, levels, k);
            && SameIds(m, nodes)
            && (forall i :: 0 <= i < |nodes| && IsEntry(nodes, i) ==>
                 (nodes[i].phase == NodeBlocked <==> InLevelsFrom(levels, k, nodes[i].nodeId)))
            && (forall i :: 0 <= i < |nodes| && nodes[i].phase == NodeBlocked ==>
                InLevelsFrom(levels, k, nodes[i].nodeId))
  {
    BlockFromMarks(m, levels, k);
    var nodes := BlockFrom(m, levels, k);
    forall i | 0 <= i < |nodes| ensures IsEntry(nodes, i) <==> IsEntry(m, i) {
      SameIdsFind(m, nodes, nodes[i].nodeId);
    }
  }

  /**
   A fail-fast pass blocks exactly the entries of the nodes in levels after the first level that is
   not entirely succeeded, and leaves the graph run in a terminal phase.
   */
  lemma FailFastBlocksExactly(op: Operator, status: GraphStatus, answers: Answers, now: int, f: nat)
    requires Processes(status) && NoneBlocked(status.nodes) && AtMostOnce(status.levels)
    requires IsFrontier(op, answers.index, status.levels, f)
    requires Walked(op, status, answers).1.FailFast?
    ensures var after := Processed(op, status, answers, now);
            && SameIds(status.nodes, after.nodes)
            && (forall i :: 0 <= i < |after.nodes| && IsEntry(after.nodes, i) ==>
                 (after.nodes[i].phase == NodeBlocked <==> InLevelsFrom(status.levels, f + 1, after.nodes[i].nodeId)))
            && (forall i :: 0 <= i < |after.nodes| && after.nodes[i].phase == NodeBlocked ==>
                 InLevelsFrom(status.levels, f + 1, after.nodes[i].nodeId))
            && (after.phase == Failed || after.phase == PartiallyFailed)
  {
    var (m, ending) := Walked(op, status, answers);
    var levels := status.levels;
    WalkStopsAtFrontier(op, answers, Start(status), levels, 0, f);
    WalkBlocksNone(op, answers, Start(status), levels, 0);
    WalkRefreshesFrontier(op, answers, Start(status), levels, 0, f);
    BlockedExactly(m.nodes, levels, f + 1);
    var bad :| bad in levels[f] && ListedFailed(op, answers.index, bad);
    assert NodeIn(m.nodes, bad, NodeFailed);
    LaterLevelsLack(levels, f, bad);
    FailureStillCounted(m.nodes, levels, f + 1, bad);
  }

  lemma LaterLevelsLack(levels: Levels, f: nat, n: string)
    requires AtMostOnce(levels) && f < |levels| && n in levels[f]
    ensures !InLevelsFrom(levels, f + 1, n)
  {
  }

  /** Passes that do not fail fast block nothing. */
  lemma OtherEndingsBlockNone(op: Operator, status: GraphStatus, answers: Answers, now: int)
    requires NoneBlocked(status.nodes) && !Walked(op, status, answers).1.FailFast?
    ensures NoneBlocked(Processed(op, status, answers, now).nodes)
  {
    WalkBlocksNone(op, answers, Start(status), status.levels, 0);
  }

  // ---------------------------------------------------------------------------------------
  // Whole executions

  ghost predicate RunFailedIn(op: Operator, runs: Runs, n: string) {
    && HasRun(op, runs, n)
    && (runs[ObjectName(op, n)].phase == RunFailed || runs[ObjectName(op, n)].phase == RunPartiallyFailed)
  }

  ghost predicate BlockedAt(status: GraphStatus, n: string) {
    exists i :: 0 <= i < |status.nodes| && status.nodes[i].nodeId == n && status.nodes[i].phase == NodeBlocked
  }

  /** In this state of the runs, some node of a level before `n`'s had failed. */
  ghost predicate FailureBefore(op: Operator, runs: Runs, levels: Levels, n: string) {
    exists f, k, m :: 0 <= f < k < |levels| && n in levels[k] && m in levels[f] && RunFailedIn(op, runs, m)
  }

  ghost predicate StoredLevelsOnce(s: System) {
    forall v :: 0 <= v < |s.graph| ==> AtMostOnce(s.graph[v].levels)
  }

  /** A version that is still open blocks nothing; a blocked node was blocked because of a listed failure before it. */
  ghost predicate VersionOk(op: Operator, s: System, v: nat)
    requires v < |s.graph|
  {
    && (!IsTerminalPhase(s.graph[v].phase) ==> NoneBlocked(s.graph[v].nodes))
    && forall n :: BlockedAt(s.graph[v], n) ==>
         exists l :: 0 <= l < |s.runs| && FailureBefore(op, s.runs[l], s.graph[v].levels, n)
  }

  /** Once resolved, levels never change; once terminal, nothing does. */
  ghost predicate Follows(a: GraphStatus, b: GraphStatus) {
    && (a.levels != [] ==> b.levels == a.levels)
    && (IsTerminalPhase(a.phase) ==> b == a)
  }

  ghost predicate Chained(graph: seq<GraphStatus>) {
    forall v :: 0 < v < |graph| ==> Follows(graph[v - 1], graph[v])
  }

  ghost predicate Versions(op: Operator, s: System) {
    Chained(s.graph) && forall v :: 0 <= v < |s.graph| ==> VersionOk(op, s, v)
  }

  lemma SubmittedFollows(op: Operator, status: GraphStatus, inputs: PassInputs, i: nat)
    requires Enumerates(inputs.order, ExecutableNodes(op.spec.graph))
    requires i < |Submitted(op, status, inputs)|
    ensures Follows(status, Submitted(op, status, inputs)[i]) && !IsTerminalPhase(status.phase)
    ensures status.levels != [] && status.phase != Unset ==>
        Submitted(op, status, inputs)[i] == Processed(op, status, inputs.answers, inputs.now)
    ensures status.levels == [] || status.phase == Unset ==>
              NoneBlocked(Submitted(op, status, inputs)[i].nodes)
                  || Submitted(op, status, inputs)[i].nodes == status.nodes
  {
  }

  /** What makes a pass fail fast is a run that had failed, before every node of a later level. */
  lemma FailFastBacked(op: Operator, runs: Runs, items: seq<ScenarioRun>, status: GraphStatus, answers: Answers,
      k: nat)
    requires Labelled(op, runs) && Lists(op, runs, items) && answers.index == IndexOf(items)
    requires Processes(status) && IsFrontier(op, answers.index, status.levels, k)
    requires Walked(op, status, answers).1.FailFast?
    ensures forall n :: InLevelsFrom(status.levels, k + 1, n) ==> FailureBefore(op, runs, status.levels, n)
  {
    PassAsksForFrontier(op, status, answers, k);
    var bad :| bad in status.levels[k] && ListedFailed(op, answers.index, bad);
    IndexReturnsOwnRun(op, runs, items, bad);
    assert RunFailedIn(op, runs, bad);
    forall n | InLevelsFrom(status.levels, k + 1, n) ensures FailureBefore(op, runs, status.levels, n) {
      var j :| k + 1 <= j < |status.levels| && n in status.levels[j];
    }
  }

  /** A status submitted from an open version blocks nothing unless its own listing shows the failure. */
  lemma SubmittedBlocks(op: Operator, s: System, f: InFlight, inputs: PassInputs, i: nat)
    requires Inv(op, s) && ActiveOk(op, s, f) && inputs.answers == AnswersOf(f)
    requires Enumerates(inputs.order, ExecutableNodes(op.spec.graph))
    requires AtMostOnce(s.graph[f.readAt].levels) && VersionOk(op, s, f.readAt)
    requires i < |Submitted(op, s.graph[f.readAt], inputs)|
    ensures var after := Submitted(op, s.graph[f.readAt], inputs)[i];
            && (!IsTerminalPhase(after.phase) ==> NoneBlocked(after.nodes))
            && (forall n :: BlockedAt(after, n) ==> FailureBefore(op, s.runs[f.listAt], after.levels, n))
  {
    var status := s.graph[f.readAt];
    var after := Submitted(op, status, inputs)[i];
    SubmittedFollows(op, status, inputs, i);
    if Processes(status) {
      var answers := inputs.answers;
      if Walked(op, status, answers).1.FailFast? {
        var k := FrontierExists(op, answers.index, status.levels, 0);
        FailFastBlocksExactly(op, status, answers, inputs.now, k);
        FailFastBacked(op, s.runs[f.listAt], f.items, status, answers, k);
        forall n | BlockedAt(after, n) ensures FailureBefore(op, s.runs[f.listAt], after.levels, n) {
          assert InLevelsFrom(status.levels, k + 1, n);
        }
      } else {
        OtherEndingsBlockNone(op, status, answers, inputs.now);
      }
    }
  }

  /** A write on top of version `v` follows it; every other step stores what was there or nothing. */
  lemma StepKeepsChain(op: Operator, s: System, s': System)
    requires Chained(s.graph) && Next(op, s, s')
    ensures Chained(s'.graph)
  {
    if pass: nat, inputs: PassInputs, i: nat :| Write(op, s, s', pass, inputs, i) {
      var f := s.active[pass];
      SubmittedFollows(op, s.graph[f.readAt], inputs, i);
      ChainAppended(s.graph, Submitted(op, s.graph[f.readAt], inputs)[i]);
    } else if Touch(s, s') {
      ChainAppended(s.graph, s.graph[|s.graph| - 1]);
    } else {
      assert s'.graph == s.graph;
    }
  }

  lemma ChainAppended(graph: seq<GraphStatus>, next: GraphStatus)
    requires Chained(graph)
    ensures graph != [] && Follows(graph[|graph| - 1], next) ==> Chained(graph + [next])
  {
  }

  lemma {:induction false} ReachableChain(op: Operator, run: seq<System>)
    requires Execution(op, run)
    ensures Chained(Last(run).graph)
  {
    if |run| > 1 {
      ExecutionPrefix(op, run);
      ReachableChain(op, run[..|run| - 1]);
      StepKeepsChain(op, run[|run| - 2], run[|run| - 1]);
    }
  }

  lemma ExtensionKeepsVersions(op: Operator, s: System, s': System)
    requires Versions(op, s) && Extends(s, s')
    ensures forall v :: 0 <= v < |s.graph| ==> VersionOk(op, s', v)
  {
    forall v | 0 <= v < |s.graph| ensures VersionOk(op, s', v) {
      assert s'.graph[v] == s.graph[v] && VersionOk(op, s, v);
      forall n | BlockedAt(s'.graph[v], n)
        ensures exists l :: 0 <= l < |s'.runs| && FailureBefore(op, s'.runs[l], s'.graph[v].levels, n)
      {
        var l :| 0 <= l < |s.runs| && FailureBefore(op, s.runs[l], s.graph[v].levels, n);
        assert s'.runs[l] == s.runs[l];
      }
    }
  }

  lemma WriteKeepsVersions(op: Operator, s: System, s': System, pass: nat, inputs: PassInputs, i: nat)
    requires Inv(op, s) && Versions(op, s) && StoredLevelsOnce(s) && Write(op, s, s', pass, inputs, i)
    ensures forall v :: 0 <= v < |s'.graph| ==> VersionOk(op, s', v)
  {
    ExtensionKeepsVersions(op, s, s');
    var f := s.active[pass];
    if f.readAt + 1 == |s.graph| {
      assert ActiveOk(op, s, f) && VersionOk(op, s, f.readAt);
      SubmittedBlocks(op, s, f, inputs, i);
      SubmittedFollows(op, s.graph[f.readAt], inputs, i);
      assert s'.graph[|s.graph|] == Submitted(op, s.graph[f.readAt], inputs)[i];
      assert VersionOk(op, s', |s.graph|);
    } else {
      assert s'.graph == s.graph;
    }
  }

  lemma TouchKeepsVersions(op: Operator, s: System, s': System)
    requires Versions(op, s) && Touch(s, s')
    ensures forall v :: 0 <= v < |s'.graph| ==> VersionOk(op, s', v)
  {
    ExtensionKeepsVersions(op, s, s');
    var v := |s.graph|;
    assert s'.graph[v] == s.graph[v - 1];
    assert VersionOk(op, s', v - 1);
  }

  lemma StepKeepsVersions(op: Operator, s: System, s': System)
    requires Inv(op, s) && Versions(op, s) && StoredLevelsOnce(s) && Next(op, s, s')
    ensures Versions(op, s')
  {
    StepKeepsChain(op, s, s');
    if pass, inputs, i :| Write(op, s, s', pass, inputs, i) {
      WriteKeepsVersions(op, s, s', pass, inputs, i);
    } else if Touch(s, s') {
      TouchKeepsVersions(op, s, s');
    } else {
      NextExtends(op, s, s');
      ExtensionKeepsVersions(op, s, s');
      assert s'.graph == s.graph;
    }
  }

  lemma {:induction false} ReachableVersions(op: Operator, run: seq<System>)
    requires Execution(op, run) && StoredLevelsOnce(Last(run))
    ensures Versions(op, Last(run))
  {
    if |run| > 1 {
      ExecutionPrefix(op, run);
      var before := run[..|run| - 1];
      NextExtends(op, Last(before), Last(run));
      LevelsOnceBefore(Last(before), Last(run));
      ReachableVersions(op, before);
      Reachable(op, before);
      StepKeepsVersions(op, Last(before), Last(run));
    }
  }

  lemma LevelsOnceBefore(s: System, s': System)
    requires Extends(s, s') && StoredLevelsOnce(s')
    ensures StoredLevelsOnce(s)
  {
    forall v | 0 <= v < |s.graph| ensures AtMostOnce(s.graph[v].levels) {
      assert s.graph[v] == s'.graph[v];
    }
  }

  // ---------------------------------------------------------------------------------------
  // Blocked nodes and their runs

  /** Stored statuses between two versions: levels stay, a terminal status stays whole. */
  lemma {:induction false} LaterVersions(graph: seq<GraphStatus>, i: nat, j: nat)
    requires Chained(graph) && i <= j < |graph|
    ensures Follows(graph[i], graph[j])
    decreases j
  {
    if i < j {
      LaterVersions(graph, i, j - 1);
      assert Follows(graph[j - 1], graph[j]);
    }
  }

  /**
   Once a terminal status is stored it is never replaced, and only passes that fetched an earlier
   version still create.
   */
  lemma TerminalIsFinal(op: Operator, run: seq<System>, i: nat, j: nat)
    requires Execution(op, run)
    requires i <= j < |Last(run).graph| && Last(run).graph[i].phase in {Completed, Failed, PartiallyFailed}
    ensures Last(run).graph[j] == Last(run).graph[i]
    ensures forall e :: 0 <= e < |Last(run).log| ==> Last(run).log[e].readAt < i
  {
    var s := Last(run);
    ReachableChain(op, run);
    LaterVersions(s.graph, i, j);
    Reachable(op, run);
    forall e | 0 <= e < |s.log| ensures s.log[e].readAt < i {
      assert Justified(op, s, s.log[e]);
      if s.log[e].readAt >= i {
        LaterVersions(s.graph, i, s.log[e].readAt);
      }
    }
  }

  ghost predicate KeepsSuccess(op: Operator, runs: Runs, runs': Runs) {
    forall n :: RunSucceededIn(op, runs, n) ==> RunSucceededIn(op, runs', n)
  }

  /** A run that has once succeeded stays so. */
  ghost predicate SuccessStays(op: Operator, runs: seq<Runs>) {
    forall i :: 0 < i < |runs| ==> KeepsSuccess(op, runs[i - 1], runs[i])
  }

  lemma {:induction false} SuccessPersists(op: Operator, runs: seq<Runs>, i: nat, j: nat, n: string)
    requires SuccessStays(op, runs) && i <= j < |runs| && RunSucceededIn(op, runs[i], n)
    ensures RunSucceededIn(op, runs[j], n)
    decreases j
  {
    if i < j {
      SuccessPersists(op, runs, i, j - 1, n);
      assert KeepsSuccess(op, runs[j - 1], runs[j]);
    }
  }

  /**
   A creation and an earlier failure before the same node cannot come from one listing, nor the
   creation from an older one.
   */
  lemma FailureExcludesEarlierCreation(op: Operator, runs: seq<Runs>, levels: Levels, n: string, l: nat, c: nat, k: nat)
    requires SuccessStays(op, runs) && AtMostOnce(levels)
    requires l < |runs| && FailureBefore(op, runs[l], levels, n)
    requires c < |runs| && k < |levels| && n in levels[k] && EarlierLevelsDone(op, runs[c], levels, k)
    ensures l < c
  {
    var f, k', m :| 0 <= f < k' < |levels| && n in levels[k'] && m in levels[f] && RunFailedIn(op, runs[l], m);
    assert k == k';
    assert RunSucceededIn(op, runs[c], m);
    if c <= l {
      SuccessPersists(op, runs, c, l, m);
    }
  }

  /**
   When can a blocked node have a run? Only when the pass that created it listed the runs strictly
   later than the pass that blocked it: the blocking pass worked from an older listing.
   */
  lemma BlockedRunMeansNewerListing(op: Operator, run: seq<System>, v: nat, e: nat) returns (l: nat)
    requires Execution(op, run) && StoredLevelsOnce(Last(run)) && SuccessStays(op, Last(run).runs)
    requires v < |Last(run).graph| && e < |Last(run).log| && BlockedAt(Last(run).graph[v], Last(run).log[e].node)
    ensures l < Last(run).log[e].listAt < |Last(run).runs|
    ensures FailureBefore(op, Last(run).runs[l], Last(run).graph[v].levels, Last(run).log[e].node)
  {
    var s := Last(run);
    var c := s.log[e];
    ReachableVersions(op, run);
    assert VersionOk(op, s, v);
    l :| 0 <= l < |s.runs| && FailureBefore(op, s.runs[l], s.graph[v].levels, c.node);
    var k := DependencySafety(op, run, e);
    SameLevels(op, s, v, c.readAt);
    FailureExcludesEarlierCreation(op, s.runs, s.graph[v].levels, c.node, l, c.listAt, k);
  }

  lemma SameLevels(op: Operator, s: System, i: nat, j: nat)
    requires Versions(op, s) && i < |s.graph| && j < |s.graph|
    requires s.graph[i].levels != [] && s.graph[j].levels != []
    ensures s.graph[i].levels == s.graph[j].levels
  {
    if i <= j {
      LaterVersions(s.graph, i, j);
    } else {
      LaterVersions(s.graph, j, i);
    }
  }

  // ---------------------------------------------------------------------------------------
  // Disciplines

  /**
   What passes are allowed: to begin while another is in flight, to fetch a status that is not the
   newest one, and to list an older state of the runs than some pass before.
   */
  datatype Discipline = Discipline(overlap: bool, olderStatus: bool, olderListing: bool)

  const STRICT := Discipline(false, false, false)

  ghost predicate Permits(d: Discipline, s: System, f: InFlight) {
    && (s.active == map[] || d.overlap)
    && (f.readAt + 1 == |s.graph| || d.olderStatus)
    && (f.listAt >= s.newestList || d.olderListing)
  }

  ghost predicate PermittedStep(d: Discipline, op: Operator, s: System, s': System) {
    forall pass, f :: Begin(op, s, s', pass, f) ==> Permits(d, s, f)
  }

  ghost predicate Obeys(d: Discipline, op: Operator, run: seq<System>) {
    forall i :: 0 <= i < |run| - 1 ==> PermittedStep(d, op, run[i], run[i + 1])
  }

  ghost predicate NoNewerThan(log: seq<Creation>, l: nat) {
    forall e :: 0 <= e < |log| ==> log[e].listAt <= l
  }

  ghost predicate SomeBlocked(s: System) {
    exists v :: 0 <= v < |s.graph| && !NoneBlocked(s.graph[v].nodes)
  }

  ghost predicate Calm(op: Operator, s: System) {
    && NoNewerThan(s.log, s.newestList)
    && s.newestList < |s.runs|
    && (forall p, q :: p in s.active && q in s.active ==> p == q)
    && (forall p :: p in s.active ==> s.active[p].listAt == s.newestList)
    && (forall p :: p in s.active && SomeBlocked(s) ==>
         s.active[p].readAt < |s.graph| && IsTerminalPhase(s.graph[s.active[p].readAt].phase))
  }

  /** Every blocked node was blocked from a listing at least as new as every creating pass's. */
  ghost predicate BlockedLast(op: Operator, s: System) {
    forall v, n :: 0 <= v < |s.graph| && BlockedAt(s.graph[v], n) ==>
      exists l :: 0 <= l < |s.runs| && NoNewerThan(s.log, l) && FailureBefore(op, s.runs[l], s.graph[v].levels, n)
  }

  lemma BlockedIsTerminal(op: Operator, s: System)
    requires Versions(op, s) && SomeBlocked(s)
    ensures IsTerminalPhase(s.graph[|s.graph| - 1].phase)
  {
    var v :| 0 <= v < |s.graph| && !NoneBlocked(s.graph[v].nodes);
    assert VersionOk(op, s, v);
    LaterVersions(s.graph, v, |s.graph| - 1);
  }

  lemma NothingBlocked(s: System)
    requires !SomeBlocked(s)
    ensures forall v, n :: 0 <= v < |s.graph| ==> !BlockedAt(s.graph[v], n)
  {
    forall v, n | 0 <= v < |s.graph| ensures !BlockedAt(s.graph[v], n) {
      assert NoneBlocked(s.graph[v].nodes);
    }
  }

  /** Growing the run history keeps the blocking listings in place. */
  lemma BlockedLastGrows(op: Operator, s: System, s': System)
    requires BlockedLast(op, s) && s'.graph == s.graph && s'.log == s.log && s.runs <= s'.runs
    ensures BlockedLast(op, s')
  {
    forall v, n | 0 <= v < |s'.graph| && BlockedAt(s'.graph[v], n)
      ensures exists l ::
          0 <= l < |s'.runs| && NoNewerThan(s'.log, l)
          && FailureBefore(op, s'.runs[l], s'.graph[v].levels, n)
    {
      var l :| 0 <= l < |s.runs| && NoNewerThan(s.log, l) && FailureBefore(op, s.runs[l], s.graph[v].levels, n);
      assert s'.runs[l] == s.runs[l];
    }
  }

  lemma BeginKeepsCalm(op: Operator, s: System, s': System, pass: nat, f: InFlight)
    requires Versions(op, s) && Calm(op, s) && BlockedLast(op, s)
    requires Begin(op, s, s', pass, f) && Permits(STRICT, s, f)
    ensures Calm(op, s') && BlockedLast(op, s')
  {
    BlockedLastGrows(op, s, s');
    if SomeBlocked(s) {
      BlockedIsTerminal(op, s);
    }
    assert SomeBlocked(s') ==> SomeBlocked(s);
  }

  lemma CreateKeepsCalm(op: Operator, s: System, s': System, pass: nat, stored: bool, answer: bool)
    requires Calm(op, s) && BlockedLast(op, s) && Create(op, s, s', pass, stored, answer)
    ensures Calm(op, s') && BlockedLast(op, s')
  {
    assert !SomeBlocked(s);
    assert s'.graph == s.graph;
    NothingBlocked(s);
    NothingBlocked(s');
  }

  lemma WriteKeepsCalm(op: Operator, s: System, s': System, pass: nat, inputs: PassInputs, i: nat)
    requires Inv(op, s) && Versions(op, s) && StoredLevelsOnce(s) && Calm(op, s) && BlockedLast(op, s)
    requires Write(op, s, s', pass, inputs, i)
    ensures Calm(op, s') && BlockedLast(op, s')
  {
    var f := s.active[pass];
    assert s'.active == map[];
    assert ActiveOk(op, s, f) && VersionOk(op, s, f.readAt);
    SubmittedBlocks(op, s, f, inputs, i);
    forall v, n | 0 <= v < |s'.graph| && BlockedAt(s'.graph[v], n)
      ensures exists l ::
          0 <= l < |s'.runs| && NoNewerThan(s'.log, l)
          && FailureBefore(op, s'.runs[l], s'.graph[v].levels, n)
    {
      if v < |s.graph| {
        assert s'.graph[v] == s.graph[v];
      } else {
        assert NoNewerThan(s'.log, f.listAt);
      }
    }
  }

  lemma TouchKeepsCalm(op: Operator, s: System, s': System)
    requires Calm(op, s) && BlockedLast(op, s) && Touch(s, s')
    ensures Calm(op, s') && BlockedLast(op, s')
  {
    var last := |s.graph|;
    assert s'.graph[last] == s.graph[last - 1];
    forall v, n | 0 <= v < |s'.graph| && BlockedAt(s'.graph[v], n)
      ensures exists l ::
          0 <= l < |s'.runs| && NoNewerThan(s'.log, l)
          && FailureBefore(op, s'.runs[l], s'.graph[v].levels, n)
    {
      var v0 := if v == last then last - 1 else v;
      assert s.graph[v0] == s'.graph[v] && BlockedAt(s.graph[v0], n);
    }
    if SomeBlocked(s') {
      var v :| 0 <= v < |s'.graph| && !NoneBlocked(s'.graph[v].nodes);
      var v0 := if v == last then last - 1 else v;
      assert s.graph[v0] == s'.graph[v];
      assert SomeBlocked(s);
    }
  }

  lemma StepKeepsCalm(op: Operator, s: System, s': System)
    requires Inv(op, s) && Versions(op, s) && StoredLevelsOnce(s) && Calm(op, s) && BlockedLast(op, s)
    requires Next(op, s, s') && PermittedStep(STRICT, op, s, s')
    ensures Calm(op, s') && BlockedLast(op, s')
  {
    if pass, f :| Begin(op, s, s', pass, f) {
      BeginKeepsCalm(op, s, s', pass, f);
    } else if pass, stored, answer :| Create(op, s, s', pass, stored, answer) {
      CreateKeepsCalm(op, s, s', pass, stored, answer);
    } else if pass, inputs, i :| Write(op, s, s', pass, inputs, i) {
      WriteKeepsCalm(op, s, s', pass, inputs, i);
    } else if Touch(s, s') {
      TouchKeepsCalm(op, s, s');
    } else {
      assert s'.graph == s.graph && s'.log == s.log && s.runs <= s'.runs && s'.newestList == s.newestList;
      assert forall p :: p in s'.active ==> p in s.active && s'.active[p] == s.active[p];
      assert SomeBlocked(s') ==> SomeBlocked(s);
      BlockedLastGrows(op, s, s');
    }
  }

  lemma {:induction false} StrictIsCalm(op: Operator, run: seq<System>)
    requires Execution(op, run) && Obeys(STRICT, op, run) && StoredLevelsOnce(Last(run))
    ensures Calm(op, Last(run)) && BlockedLast(op, Last(run))
  {
    if |run| > 1 {
      var before := run[..|run| - 1];
      ExecutionPrefix(op, run);
      forall i | 0 <= i < |before| - 1 ensures PermittedStep(STRICT, op, before[i], before[i + 1]) {
        assert PermittedStep(STRICT, op, run[i], run[i + 1]);
      }
      assert PermittedStep(STRICT, op, run[|run| - 2], run[|run| - 1]);
      NextExtends(op, Last(before), Last(run));
      LevelsOnceBefore(Last(before), Last(run));
      StrictIsCalm(op, before);
      Reachable(op, before);
      ReachableVersions(op, before);
      StepKeepsCalm(op, Last(before), Last(run));
    } else {
      NothingBlocked(run[0]);
    }
  }

  /** Under the strict discipline no creation is ever recorded for a blocked node. */
  lemma BlockedNeverCreated(op: Operator, run: seq<System>, v: nat, e: nat)
    requires Execution(op, run) && Obeys(STRICT, op, run)
    requires StoredLevelsOnce(Last(run)) && SuccessStays(op, Last(run).runs)
    requires v < |Last(run).graph| && e < |Last(run).log|
    ensures !BlockedAt(Last(run).graph[v], Last(run).log[e].node)
  {
    var s := Last(run);
    var c := s.log[e];
    StrictIsCalm(op, run);
    if BlockedAt(s.graph[v], c.node) {
      var l :| 0 <= l < |s.runs| && NoNewerThan(s.log, l) && FailureBefore(op, s.runs[l], s.graph[v].levels, c.node);
      var k := DependencySafety(op, run, e);
      ReachableVersions(op, run);
      SameLevels(op, s, v, c.readAt);
      FailureExcludesEarlierCreation(op, s.runs, s.graph[v].levels, c.node, l, c.listAt, k);
      assert false;
    }
  }

  /**
   Fail-fast closure: under the strict discipline, on an admitted graph, a blocked node has no scenario
   run in any state, past or present.
   */
  lemma BlockedNodesHaveNoRun(op: Operator, run: seq<System>, v: nat, i: nat, n: string)
    requires Execution(op, run) && Obeys(STRICT, op, run)
    requires StoredLevelsOnce(Last(run)) && StoredLevelsCover(op, Last(run)) && SuccessStays(op, Last(run).runs)
    requires GraphValidation.Admissible(op.san, op.spec.graph)
    requires v < |Last(run).graph| && i < |Last(run).runs| && BlockedAt(Last(run).graph[v], n)
    ensures !HasRun(op, Last(run).runs[i], n)
  {
    var s := Last(run);
    forall e | 0 <= e < |s.log| ensures s.log[e].node != n {
      BlockedNeverCreated(op, run, v, e);
    }
    BlockedUncreatedHasNoRun(op, run, v, i, n);
  }

  lemma BlockedUncreatedHasNoRun(op: Operator, run: seq<System>, v: nat, i: nat, n: string)
    requires Execution(op, run) && StoredLevelsOnce(Last(run)) && StoredLevelsCover(op, Last(run))
    requires GraphValidation.Admissible(op.san, op.spec.graph)
    requires v < |Last(run).graph| && i < |Last(run).runs| && BlockedAt(Last(run).graph[v], n)
    requires forall e :: 0 <= e < |Last(run).log| ==> Last(run).log[e].node != n
    ensures !HasRun(op, Last(run).runs[i], n)
  {
    ReachableVersions(op, run);
    BlockedIsNode(op, Last(run), v, n);
    Reachable(op, run);
    UncreatedHasNoRun(op, Last(run), i, n);
  }

  // ---------------------------------------------------------------------------------------
  // When failures stay

  /** A run that has once failed stays failed. */
  ghost predicate FailureStays(op: Operator, runs: seq<Runs>) {
    forall i :: 0 < i < |runs| ==> KeepsFailure(op, runs[i - 1], runs[i])
  }

  ghost predicate KeepsFailure(op: Operator, runs: Runs, runs': Runs) {
    forall n :: RunFailedIn(op, runs, n) ==> RunFailedIn(op, runs', n)
  }

  lemma {:induction false} FailurePersists(op: Operator, runs: seq<Runs>, i: nat, j: nat, n: string)
    requires FailureStays(op, runs) && i <= j < |runs| && RunFailedIn(op, runs[i], n)
    ensures RunFailedIn(op, runs[j], n)
    decreases j
  {
    if i < j {
      FailurePersists(op, runs, i, j - 1, n);
      assert KeepsFailure(op, runs[j - 1], runs[j]);
    }
  }

  /** If failures stay as well, no creation is recorded for a blocked node, whatever passes do. */
  lemma LastingFailureExcludesCreation(op: Operator, run: seq<System>, v: nat, e: nat)
    requires Execution(op, run) && StoredLevelsOnce(Last(run))
    requires SuccessStays(op, Last(run).runs) && FailureStays(op, Last(run).runs)
    requires v < |Last(run).graph| && e < |Last(run).log|
    ensures !BlockedAt(Last(run).graph[v], Last(run).log[e].node)
  {
    var s, c := Last(run), Last(run).log[e];
    var levels := s.graph[v].levels;
    ReachableVersions(op, run);
    assert VersionOk(op, s, v);
    var k := DependencySafety(op, run, e);
    forall l | 0 <= l < |s.runs| ensures !FailureBefore(op, s.runs[l], levels, c.node) {
      if levels != [] {
        SameLevels(op, s, v, c.readAt);
        LastingFailureExcludes(op, s.runs, levels, c.node, l, c.listAt, k);
      }
    }
  }

  lemma LastingFailureExcludes(op: Operator, runs: seq<Runs>, levels: Levels, n: string, l: nat, c: nat, k: nat)
    requires SuccessStays(op, runs) && FailureStays(op, runs) && AtMostOnce(levels)
    requires l < |runs| && c < |runs| && k < |levels| && n in levels[k] && EarlierLevelsDone(op, runs[c], levels, k)
    ensures !FailureBefore(op, runs[l], levels, n)
  {
    forall f, k', m | 0 <= f < k' < |levels| && n in levels[k'] && m in levels[f] ensures !RunFailedIn(op, runs[l], m) {
      assert k == k' && RunSucceededIn(op, runs[c], m);
      if RunFailedIn(op, runs[l], m) && l <= c {
        FailurePersists(op, runs, l, c, m);
      }
      if c <= l {
        SuccessPersists(op, runs, c, l, m);
      }
    }
  }

  lemma BlockedIsNode(op: Operator, s: System, v: nat, n: string)
    requires Versions(op, s) && StoredLevelsCover(op, s) && v < |s.graph| && BlockedAt(s.graph[v], n)
    ensures IsNode(op.spec.graph, n)
  {
    var levels := s.graph[v].levels;
    assert VersionOk(op, s, v);
    var l :| 0 <= l < |s.runs| && FailureBefore(op, s.runs[l], levels, n);
    var f, k, m :| 0 <= f < k < |levels| && n in levels[k] && m in levels[f] && RunFailedIn(op, s.runs[l], m);
    assert InLevels(levels, n);
  }

  /** On an admitted graph a node whose creation was never recorded has no run. */
  lemma UncreatedHasNoRun(op: Operator, s: System, i: nat, n: string)
    requires Inv(op, s) && StoredLevelsCover(op, s) && i < |s.runs|
    requires GraphValidation.Admissible(op.san, op.spec.graph) && IsNode(op.spec.graph, n)
    requires forall e :: 0 <= e < |s.log| ==> s.log[e].node != n
    ensures !HasRun(op, s.runs[i], n)
  {
    StateIn(op, s, i);
    forall e | 0 <= e < |s.log| ensures ObjectName(op, s.log[e].node) != ObjectName(op, n) {
      if ObjectName(op, s.log[e].node) == ObjectName(op, n) {
        SameNameSameNode(op, s, e, n);
      }
    }
    assert !Recorded(op, s.log, i, ObjectName(op, n));
  }

  /** A pass that lists a failure in the frontier level and meets no error blocks every node of later levels. */
  lemma ListedFailureBlocks(op: Operator, status: GraphStatus, answers: Answers, now: int, f: nat, bad: string,
      n: string)
    requires Processes(status) && NoneBlocked(status.nodes) && AtMostOnce(status.levels)
    requires Walked(op, status, answers).1 != Aborted && Find(status.nodes, n).Some?
    requires f < |status.levels| && LevelsSucceeded(op, answers.index, status.levels, f)
    requires bad in status.levels[f] && ListedFailed(op, answers.index, bad)
    requires InLevelsFrom(status.levels, f + 1, n)
    ensures BlockedAt(Processed(op, status, answers, now), n)
  {
    assert !Succeeded(op, answers.index, bad);
    PassAsksForFrontier(op, status, answers, f);
    FailFastBlocksExactly(op, status, answers, now, f);
    var after := Processed(op, status, answers, now);
    SameIdsFind(status.nodes, after.nodes, n);
    assert IsEntry(after.nodes, Find(after.nodes, n).value);
  }
}
