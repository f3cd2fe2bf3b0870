/**
 What one pass leaves in the status, entry by entry, read off the listed scenario runs themselves.
 */
module GraphOutcome {
  import opened Common
  import opened GraphTypes
  import opened GraphPass
  import opened GraphFrontier
  import opened GraphSystem
  import opened GraphSafety
  import opened GraphFailFast
  import opened GraphProgress
  import opened GraphSummary

  /** The entry of a node whose run has just been created. */
  ghost predicate Launched(op: Operator, before: NodeStatus, after: NodeStatus) {
    after == before.(phase := NodeRunning, scenarioRunRef := op.graphName + "-" + op.san(before.nodeId))
  }

  /** The node has been processed: its listed run is copied, or its run created. */
  ghost predicate UpToDate(op: Operator, index: Index, before: NodeStatus, after: NodeStatus) {
    if op.san(before.nodeId) in index then Reports(before, index[op.san(before.nodeId)], after)
    else Launched(op, before, after)
  }

  // ---------------------------------------------------------------------------------------
  // The walk, entry by entry

  ghost function Touched(op: Operator, index: Index, e: NodeStatus): NodeStatus {
    if op.san(e.nodeId) in index then
      var run := index[op.san(e.nodeId)];
      Merged(e, NodePhaseOf(run.phase), run.name, RunTimes(run))
    else Merged(e, NodeRunning, ObjectName(op, e.nodeId), NO_TIMES)
  }

  lemma TouchedMeaning(op: Operator, index: Index, e: NodeStatus)
    ensures UpToDate(op, index, e, Touched(op, index, e))
    ensures Touched(op, index, Touched(op, index, e)) == Touched(op, index, e)
  {
  }

  /** Entries of nodes in `seen` have been processed, the others have not. */
  ghost predicate Advanced(op: Operator, index: Index, a: seq<NodeStatus>, b: seq<NodeStatus>, seen: set<string>) {
    && SameIds(a, b)
    && forall i :: 0 <= i < |a| ==>
         b[i] == if IsEntry(a, i) && a[i].nodeId in seen then Touched(op, index, a[i]) else a[i]
  }

  lemma AdvancedCompose(op: Operator, index: Index, a: seq<NodeStatus>, b: seq<NodeStatus>, c: seq<NodeStatus>,
      s: set<string>, t: set<string>)
    requires Advanced(op, index, a, b, s) && Advanced(op, index, b, c, t)
    ensures Advanced(op, index, a, c, s + t)
  {
    forall i | 0 <= i < |a|
      ensures c[i] == if IsEntry(a, i) && a[i].nodeId in s + t then Touched(op, index, a[i]) else a[i]
    {
      SameIdsFind(a, b, a[i].nodeId);
      assert IsEntry(b, i) <==> IsEntry(a, i);
      TouchedMeaning(op, index, a[i]);
    }
  }

  lemma VisitAdvances(op: Operator, answers: Answers, m: Memory, n: string)
    requires !m.failed
    ensures var m' := Visit(op, answers, m, n);
            if m'.failed then m'.nodes == m.nodes else Advanced(op, answers.index, m.nodes, m'.nodes, {n})
  {
    VisitRefreshes(op, answers, m, n);
  }

  lemma {:induction false} LevelAdvances(op: Operator, answers: Answers, m: Memory, level: seq<string>)
    returns (seen: set<string>)
    ensures var m' := VisitAll(op, answers, m, level);
            && Advanced(op, answers.index, m.nodes, m'.nodes, seen)
            && (!m'.failed ==> forall n :: n in level <==> n in seen)
    decreases |level|
  {
    seen := {};
    if level != [] && !m.failed {
      var m1 := Visit(op, answers, m, level[0]);
      VisitAdvances(op, answers, m, level[0]);
      assert level == [level[0]] + level[1..];
      if m1.failed {
        FailureSticks(op, answers, m1, level[1..]);
      } else {
        var rest := LevelAdvances(op, answers, m1, level[1..]);
        seen := {level[0]} + rest;
        AdvancedCompose(op, answers.index, m.nodes, m1.nodes, VisitAll(op, answers, m1, level[1..]).nodes,
            {level[0]}, rest);
      }
    } else if m.failed {
      FailureSticks(op, answers, m, level);
    }
  }

  /** From level `k` on, a walk processes nodes of levels up to the frontier, all of them unless it errs. */
  lemma {:induction false} WalkAdvances(op: Operator, answers: Answers, m: Memory, levels: Levels, k: nat, f: nat)
    returns (seen: set<string>)
    requires IsFrontier(op, answers.index, levels, f) && k <= f
    requires k > 0 ==> Refreshed(op, answers.index, m.nodes, levels[k - 1])
    ensures var (m', ending) := Walk(op, answers, m, levels, k);
            && Advanced(op, answers.index, m.nodes, m'.nodes, seen)
            && (ending != Aborted ==> forall n :: n in seen <==> BelowFrom(levels, k, f + 1, n))
    decreases |levels| - k
  {
    seen := {};
    if k < |levels| {
      assert k > 0 ==> LevelSucceeded(op, answers.index, levels[k - 1]);
      WalkOpens(op, answers, m, levels, k);
      var m1 := VisitAll(op, answers, m, levels[k]);
      seen := LevelAdvances(op, answers, m, levels[k]);
      LevelRefreshes(op, answers, m, levels[k]);
      if !m1.failed {
        if k < f {
          var rest := WalkAdvances(op, answers, m1, levels, k + 1, f);
          AdvancedCompose(op, answers.index, m.nodes, m1.nodes, Walk(op, answers, m1, levels, k + 1).0.nodes, seen,
              rest);
          BelowSplits(levels, k, f + 1);
          seen := seen + rest;
        } else {
          WalkCloses(op, answers, m1, levels, f);
        }
      }
    }
  }

  lemma BelowSplits(levels: Levels, k: nat, l: nat)
    requires k < l && k < |levels|
    ensures forall n :: BelowFrom(levels, k, l, n) <==> n in levels[k] || BelowFrom(levels, k + 1, l, n)
  {
  }

  ghost predicate BelowFrom(levels: Levels, k: nat, l: nat, n: string) {
    exists j :: k <= j < l && j < |levels| && n in levels[j]
  }

  // ---------------------------------------------------------------------------------------
  // The status of a pass

  /** Blocking leaves everything of an entry but its phase and run reference. */
  lemma {:induction false} BlockWrites(nodes: seq<NodeStatus>, level: seq<string>)
    ensures var nodes' := Block(nodes, level);
            && SameIds(nodes, nodes')
            && forall i :: 0 <= i < |nodes| ==>
                 nodes'[i] == if IsEntry(nodes, i) && nodes[i].nodeId in level
                     then nodes[i].(phase := NodeBlocked, scenarioRunRef := "") else nodes[i]
    decreases |level|
  {
    if level != [] {
      var nodes1 := WithNode(nodes, level[0], NodeBlocked, "", NO_TIMES);
      assert level == [level[0]] + level[1..];
      assert SameIds(nodes, nodes1);
      BlockWrites(nodes1, level[1..]);
      forall i | 0 <= i < |nodes| ensures IsEntry(nodes1, i) <==> IsEntry(nodes, i) {
        SameIdsFind(nodes, nodes1, nodes[i].nodeId);
      }
    }
  }

  lemma {:induction false} BlockFromWrites(nodes: seq<NodeStatus>, levels: Levels, k: nat)
    requires k <= |levels|
    ensures var nodes' := BlockFrom(nodes, levels, k);
            && SameIds(nodes, nodes')
            && forall i :: 0 <= i < |nodes| ==>
                 nodes'[i] == if IsEntry(nodes, i) && InLevelsFrom(levels, k, nodes[i].nodeId)
                     then nodes[i].(phase := NodeBlocked, scenarioRunRef := "") else nodes[i]
    decreases |levels| - k
  {
    if k < |levels| {
      var nodes1 := Block(nodes, levels[k]);
      BlockWrites(nodes, levels[k]);
      BlockFromWrites(nodes1, levels, k + 1);
      forall i | 0 <= i < |nodes| ensures IsEntry(nodes1, i) <==> IsEntry(nodes, i) {
        SameIdsFind(nodes, nodes1, nodes[i].nodeId);
      }
      forall n ensures InLevelsFrom(levels, k, n) <==> n in levels[k] || InLevelsFrom(levels, k + 1, n) {
      }
    }
  }

  /** Some node of the level at the frontier has a listed run that failed, in part or entirely. */
  ghost predicate FailsAt(op: Operator, index: Index, levels: Levels, f: nat) {
    f < |levels| && exists n :: n in levels[f] && ListedFailed(op, index, n)
  }

  /** The whole effect of an error-free pass on one entry. */
  ghost predicate EntryOutcome(op: Operator, index: Index, levels: Levels, f: nat, before: NodeStatus,
      after: NodeStatus) {
    if BelowLevel(levels, f + 1, before.nodeId) then UpToDate(op, index, before, after)
    else if InLevels(levels, before.nodeId) && FailsAt(op, index, levels, f) then
      after == before.(phase := NodeBlocked, scenarioRunRef := "")
    else after == before
  }

  /**
   A pass without errors, with a level after the frontier, fails fast exactly when some node of the
   frontier has a listed run that failed, in part or entirely; otherwise it waits. At the last level it
   is through.
   */
  lemma PassEnds(op: Operator, status: GraphStatus, answers: Answers, f: nat)
    requires Processes(status) && IsFrontier(op, answers.index, status.levels, f)
    requires Walked(op, status, answers).1 != Aborted
    ensures Walked(op, status, answers).1 ==
        if f + 1 >= |status.levels| then Through
        else if FailsAt(op, answers.index, status.levels, f) then FailFast(f + 1)
        else Waiting
  {
    PassAsksForFrontier(op, status, answers, f);
  }

  /**
   Every entry after a pass without errors: nodes up to the frontier report their listed run, or the run
   just created; later nodes are blocked if the pass fails fast and are otherwise untouched.
   */
  lemma PassOutcome(op: Operator, status: GraphStatus, answers: Answers, now: int, f: nat, i: nat)
    requires Processes(status) && IsFrontier(op, answers.index, status.levels, f) && AtMostOnce(status.levels)
    requires Walked(op, status, answers).1 != Aborted && i < |status.nodes|
    ensures var after := Processed(op, status, answers, now);
            && |after.nodes| == |status.nodes|
            && (IsEntry(status.nodes, i) ==>
                 EntryOutcome(op, answers.index, status.levels, f, status.nodes[i], after.nodes[i]))
            && (!IsEntry(status.nodes, i) ==> after.nodes[i] == status.nodes[i])
  {
    var levels, e := status.levels, status.nodes[i];
    var (m, ending) := Walked(op, status, answers);
    PassEnds(op, status, answers, f);
    var seen := WalkAdvances(op, answers, Start(status), levels, 0, f);
    assert BelowFrom(levels, 0, f + 1, e.nodeId) <==> BelowLevel(levels, f + 1, e.nodeId);
    TouchedMeaning(op, answers.index, e);
    SameIdsFind(status.nodes, m.nodes, e.nodeId);
    if ending.FailFast? {
      BlockFromWrites(m.nodes, levels, f + 1);
      assert InLevels(levels, e.nodeId) <==>
          BelowLevel(levels, f + 1, e.nodeId) || InLevelsFrom(levels, f + 1, e.nodeId);
      assert !(BelowLevel(levels, f + 1, e.nodeId) && InLevelsFrom(levels, f + 1, e.nodeId));
    } else {
      assert f + 1 >= |levels| || !FailsAt(op, answers.index, levels, f);
      assert f + 1 >= |levels| ==> (InLevels(levels, e.nodeId) ==> BelowLevel(levels, f + 1, e.nodeId));
    }
  }

  /** A pass that meets an error reports the graph run failed; each entry is up to date or untouched. */
  lemma ErrorOutcome(op: Operator, status: GraphStatus, answers: Answers, now: int, i: nat)
    requires Processes(status) && Walked(op, status, answers).1 == Aborted && i < |status.nodes|
    ensures var after := Processed(op, status, answers, now);
            && after == status.(nodes := after.nodes, phase := Failed) && |after.nodes| == |status.nodes|
            && (after.nodes[i] == status.nodes[i]
                || UpToDate(op, answers.index, status.nodes[i], after.nodes[i]))
  {
    var f := FrontierExists(op, answers.index, status.levels, 0);
    var seen := WalkAdvances(op, answers, Start(status), status.levels, 0, f);
    TouchedMeaning(op, answers.index, status.nodes[i]);
  }

  // ---------------------------------------------------------------------------------------
  // Every stored entry

  ghost predicate SomeRunIs(op: Operator, runs: seq<Runs>, n: string, phases: set<RunPhase>) {
    exists l :: 0 <= l < |runs| && HasRun(op, runs[l], n) && runs[l][ObjectName(op, n)].phase in phases
  }

  /** A completed or failed entry says what the node's own run once was. */
  ghost predicate Backed(op: Operator, runs: seq<Runs>, e: NodeStatus) {
    && (e.phase == NodeCompleted ==> SomeRunIs(op, runs, e.nodeId, {RunSucceeded}))
    && (e.phase == NodeFailed ==> SomeRunIs(op, runs, e.nodeId, {RunFailed, RunPartiallyFailed}))
  }

  ghost predicate AllBacked(op: Operator, runs: seq<Runs>, nodes: seq<NodeStatus>) {
    forall i :: 0 <= i < |nodes| ==> Backed(op, runs, nodes[i])
  }

  /** After any pass an entry is as it was, blocked, or up to date. */
  lemma EntryAfterPass(op: Operator, status: GraphStatus, answers: Answers, now: int, i: nat)
    requires Processes(status) && i < |status.nodes|
    ensures var b := Processed(op, status, answers, now).nodes;
            && |b| == |status.nodes| && b[i].nodeId == status.nodes[i].nodeId
            && (b[i].phase == status.nodes[i].phase || b[i].phase == NodeBlocked
                || exists e :: UpToDate(op, answers.index, status.nodes[i], e) && b[i].phase == e.phase)
  {
    var f := FrontierExists(op, answers.index, status.levels, 0);
    var seen := WalkAdvances(op, answers, Start(status), status.levels, 0, f);
    TouchedMeaning(op, answers.index, status.nodes[i]);
    var (m, ending) := Walked(op, status, answers);
    if ending.FailFast? {
      BlockFromMarks(m.nodes, status.levels, ending.from);
    }
  }

  lemma UpToDateBacked(op: Operator, runs: seq<Runs>, l: nat, items: seq<ScenarioRun>, before: NodeStatus,
      e: NodeStatus)
    requires l < |runs| && Labelled(op, runs[l]) && Lists(op, runs[l], items)
    requires UpToDate(op, IndexOf(items), before, e)
    ensures Backed(op, runs, e)
  {
    IndexReturnsOwnRun(op, runs[l], items, before.nodeId);
  }

  lemma PassBacked(op: Operator, s: System, f: InFlight, now: int)
    requires Inv(op, s) && ActiveOk(op, s, f) && Processes(s.graph[f.readAt])
    requires AllBacked(op, s.runs, s.graph[f.readAt].nodes)
    ensures AllBacked(op, s.runs, Processed(op, s.graph[f.readAt], AnswersOf(f), now).nodes)
  {
    var status := s.graph[f.readAt];
    var nodes := Processed(op, status, AnswersOf(f), now).nodes;
    ProcessedIds(op, status, AnswersOf(f), now);
    StateIn(op, s, f.listAt);
    forall i | 0 <= i < |nodes| ensures Backed(op, s.runs, nodes[i]) {
      EntryAfterPass(op, status, AnswersOf(f), now, i);
      assert Backed(op, s.runs, status.nodes[i]);
      if e: NodeStatus :| UpToDate(op, AnswersOf(f).index, status.nodes[i], e) && nodes[i].phase == e.phase {
        UpToDateBacked(op, s.runs, f.listAt, f.items, status.nodes[i], e);
      }
    }
  }

  lemma BackedLater(op: Operator, runs: seq<Runs>, runs': seq<Runs>, nodes: seq<NodeStatus>)
    requires runs <= runs' && AllBacked(op, runs, nodes)
    ensures AllBacked(op, runs', nodes)
  {
    forall n, phases | SomeRunIs(op, runs, n, phases) ensures SomeRunIs(op, runs', n, phases) {
      var l :| 0 <= l < |runs| && HasRun(op, runs[l], n) && runs[l][ObjectName(op, n)].phase in phases;
      assert runs'[l] == runs[l];
    }
  }

  lemma SubmittedBacked(op: Operator, s: System, f: InFlight, inputs: PassInputs, i: nat)
    requires Inv(op, s) && ActiveOk(op, s, f) && inputs.answers == AnswersOf(f)
    requires Enumerates(inputs.order, ExecutableNodes(op.spec.graph))
    requires AllBacked(op, s.runs, s.graph[f.readAt].nodes)
    requires i < |Submitted(op, s.graph[f.readAt], inputs)|
    ensures AllBacked(op, s.runs, Submitted(op, s.graph[f.readAt], inputs)[i].nodes)
  {
    if Processes(s.graph[f.readAt]) {
      PassBacked(op, s, f, inputs.now);
    }
  }

  ghost predicate VersionsBacked(op: Operator, s: System) {
    forall v :: 0 <= v < |s.graph| ==> AllBacked(op, s.runs, s.graph[v].nodes)
  }

  lemma StepKeepsVersionsBacked(op: Operator, s: System, s': System)
    requires Inv(op, s) && VersionsBacked(op, s) && Next(op, s, s')
    ensures VersionsBacked(op, s')
  {
    NextExtends(op, s, s');
    forall v | 0 <= v < |s'.graph| ensures AllBacked(op, s.runs, s'.graph[v].nodes) {
      if v < |s.graph| {
        assert s'.graph[v] == s.graph[v];
      } else {
        AddedVersionBacked(op, s, s', v);
      }
    }
    forall v | 0 <= v < |s'.graph| ensures AllBacked(op, s'.runs, s'.graph[v].nodes) {
      BackedLater(op, s.runs, s'.runs, s'.graph[v].nodes);
    }
  }

  lemma AddedVersionBacked(op: Operator, s: System, s': System, v: nat)
    requires Inv(op, s) && VersionsBacked(op, s) && Next(op, s, s') && |s.graph| <= v < |s'.graph|
    ensures AllBacked(op, s.runs, s'.graph[v].nodes)
  {
    if pass: nat, inputs: PassInputs, i: nat :| Write(op, s, s', pass, inputs, i) {
      assert ActiveOk(op, s, s.active[pass]);
      SubmittedBacked(op, s, s.active[pass], inputs, i);
    } else {
      assert Touch(s, s');
      assert s'.graph[v] == s.graph[|s.graph| - 1];
    }
  }

  /**
   Nothing is reported that was not so: in every stored version of every execution, a node reported
   Completed or Failed has its own run, and at some moment that run had succeeded, or failed.
   */
  lemma {:induction false} ReportedPhasesBacked(op: Operator, run: seq<System>)
    requires Execution(op, run)
    ensures VersionsBacked(op, Last(run))
  {
    if |run| > 1 {
      ExecutionPrefix(op, run);
      ReportedPhasesBacked(op, run[..|run| - 1]);
      Reachable(op, run[..|run| - 1]);
      StepKeepsVersionsBacked(op, run[|run| - 2], run[|run| - 1]);
    }
  }
}
