/**
 The graph-run controller in its own form: an object whose status is rewritten in place by
 nested loops. Each method is proved against the functions of `GraphPass`.
 */
module GraphReconciler {
  import opened Common
  import opened GraphTypes
  import opened GraphPass
  import GraphValidation

  /** Nodes other than metadata, counted in map order. */
  method CountExecutable(graph: Graph) returns (total: nat)
    ensures total == |ExecutableNodes(graph)|
  {
    total := 0;
    var remaining := graph.Keys;
    ghost var counted: set<string> := {};
    while remaining != {}
      invariant remaining <= graph.Keys && total == |counted|
      invariant forall n :: n in counted <==> n in ExecutableNodes(graph) && n !in remaining
    {
      var nodeId :| nodeId in remaining;
      remaining := remaining - {nodeId};
      if !IsMetadata(nodeId) {
        counted := counted + {nodeId};
        total := total + 1;
      }
    }
    assert counted == ExecutableNodes(graph);
  }

  /** Builds the index of listed runs; a run without the node label is skipped, a later run replaces an earlier one. */
  method IndexRuns(items: seq<ScenarioRun>) returns (runs: Index)
    ensures runs == IndexOf(items)
  {
    runs := map[];
    for i := 0 to |items|
      invariant runs == IndexOf(items[..i])
    {
      assert items[..i + 1][..i] == items[..i];
      if items[i].nodeLabel != "" {
        runs := runs[items[i].nodeLabel := items[i]];
      }
    }
    assert items[..|items|] == items;
  }

  lemma LevelPrefix(nodes: seq<NodeStatus>, level: seq<string>, i: nat)
    requires i < |level|
    ensures LevelComplete(nodes, level[..i + 1]) <==>
              LevelComplete(nodes, level[..i]) && (NodeIn(nodes, level[i], NodeCompleted)
                  || NodeIn(nodes, level[i], NodeFailed))
    ensures LevelFailed(nodes, level[..i + 1]) <==>
        LevelFailed(nodes, level[..i])
        || NodeIn(nodes, level[i], NodeFailed)
  {
    assert level[..i + 1] == level[..i] + [level[i]];
    if LevelFailed(nodes, level[..i]) {
      var n :| n in level[..i] && NodeIn(nodes, n, NodeFailed);
      assert n in level[..i + 1];
    }
  }

  class GraphRun {
    const op: Operator
    var status: GraphStatus

    constructor (op: Operator, status: GraphStatus)
      ensures this.op == op && this.status == status
    {
      this.op := op;
      this.status := status;
    }

    /** Sets the first entry of a node; reports false when it has none. */
    method SetNodeStatus(nodeId: string, phase: NodePhase, runRef: string, times: JobTimes) returns (found: bool)
      modifies this
      ensures found == Find(old(status.nodes), nodeId).Some?
      ensures status == old(status).(nodes := WithNode(old(status.nodes), nodeId, phase, runRef, times))
    {
      for i := 0 to |status.nodes|
        invariant status == old(status)
        invariant forall j :: 0 <= j < i ==> status.nodes[j].nodeId != nodeId
      {
        if status.nodes[i].nodeId == nodeId {
          assert Find(status.nodes, nodeId) == Some(i);
          var node := status.nodes[i];
          if node.phase != phase {
            node := node.(phase := phase);
          }
          if node.scenarioRunRef != runRef {
            node := node.(scenarioRunRef := runRef);
          }
          if times.startTime.Some? && (node.startTime.None? || node.startTime != times.startTime) {
            node := node.(startTime := times.startTime);
          }
          if times.completionTime.Some? && (node.completionTime.None? || node.completionTime != times.completionTime) {
            node := node.(completionTime := times.completionTime);
          }
          status := status.(nodes := status.nodes[i := node]);
          return true;
        }
      }
      return false;
    }

    method FindNodeStatus(nodeId: string) returns (r: Option<nat>)
      ensures r == Find(status.nodes, nodeId)
    {
      for i := 0 to |status.nodes|
        invariant forall j :: 0 <= j < i ==> status.nodes[j].nodeId != nodeId
      {
        if status.nodes[i].nodeId == nodeId {
          return Some(i);
        }
      }
      return None;
    }

    /** The phase in the node's first entry. */
    ghost function PhaseOf(nodeId: string): Option<NodePhase>
      reads this
    {
      if Find(status.nodes, nodeId).Some? then Some(status.nodes[Find(status.nodes, nodeId).value].phase) else None
    }

    /** Whether every node of a level is finished, and whether one of them failed. */
    method CheckPreviousLevel(levelIdx: int) returns (complete: bool, hasFailures: bool)
      ensures 0 <= levelIdx < |status.levels| ==>
                complete == LevelComplete(status.nodes, status.levels[levelIdx]) &&
                hasFailures == LevelFailed(status.nodes, status.levels[levelIdx])
      ensures 0 <= levelIdx < |status.levels| ==>
          complete == forall n :: n in status.levels[levelIdx] ==>
              PhaseOf(n) == Some(NodeCompleted) || PhaseOf(n) == Some(NodeFailed)
      ensures 0 <= levelIdx < |status.levels| ==>
          hasFailures == exists n :: n in status.levels[levelIdx] && PhaseOf(n) == Some(NodeFailed)
      ensures !(0 <= levelIdx < |status.levels|) ==> complete && !hasFailures
    {
      if levelIdx < 0 || levelIdx >= |status.levels| {
        return true, false;
      }
      var level := status.levels[levelIdx];
      complete, hasFailures := true, false;
      for i := 0 to |level|
        invariant complete == LevelComplete(status.nodes, level[..i])
        invariant hasFailures == LevelFailed(status.nodes, level[..i])
      {
        LevelPrefix(status.nodes, level, i);
        var at := FindNodeStatus(level[i]);
        if at.None? {
          complete := false;
          continue;
        }
        var phase := status.nodes[at.value].phase;
        if phase == NodeFailed {
          hasFailures := true;
        }
        if phase != NodeCompleted && phase != NodeFailed {
          complete := false;
        }
      }
      assert level[..|level|] == level;
    }

    /** Asks for a scenario run for one node; `sent` is the object and `granted` the API server's answer. */
    method CreateScenarioRun(nodeId: string, granted: bool, attempts: seq<string>)
      returns (ok: bool, attempts': seq<string>, sent: Option<ScenarioRun>)
      modifies this
      ensures sent == if Creatable(op.spec, nodeId) then Some(NewRun(op, nodeId)) else None
      ensures sent.Some? <==>
          && nodeId in op.spec.graph && op.spec.graph[nodeId].image != "" && op.spec.graph[nodeId].name != ""
          && op.spec.targetRequestId != "" && op.spec.targetClusters != map[]
      ensures sent.Some? ==>
          sent.value == ScenarioRun(op.graphName + "-" + op.san(nodeId), op.graphName, op.san(nodeId), RunUnset, None)
      ensures attempts' == if sent.Some? then attempts + [nodeId] else attempts
      ensures ok <==> sent.Some? && granted && Find(old(status.nodes), nodeId).Some?
      ensures var before := Memory(old(status.nodes), attempts, false);
              var asked := before.(attempts := attempts + [nodeId]);
              var after := if !Creatable(op.spec, nodeId) then before.(failed := true)
                           else if granted then Record(asked, nodeId, NodeRunning, ObjectName(op, nodeId), NO_TIMES)
                           else asked.(failed := true);
              status == old(status).(nodes := after.nodes) && attempts' == after.attempts && ok == !after.failed
    {
      if nodeId !in op.spec.graph {
        return false, attempts, None;
      }
      var node := op.spec.graph[nodeId];
      if node.image == "" || node.name == "" || op.spec.targetRequestId == "" || |op.spec.targetClusters| == 0 {
        return false, attempts, None;
      }
      var sanitized := op.san(nodeId);
      var run := ScenarioRun(op.graphName + "-" + sanitized, op.graphName, sanitized, RunUnset, None);
      sent := Some(run);
      attempts' := attempts + [nodeId];
      if !granted {
        return false, attempts', sent;
      }
      ok := SetNodeStatus(nodeId, NodeRunning, run.name, NO_TIMES);
    }

    method UpdateNodeStatusFromRun(nodeId: string, run: ScenarioRun) returns (ok: bool)
      modifies this
      ensures ok == Find(old(status.nodes), nodeId).Some?
      ensures ok ==>
          var i := Find(old(status.nodes), nodeId).value;
          && |status.nodes| == |old(status.nodes)|
          && Reports(old(status.nodes[i]), run, status.nodes[i])
          && status == old(status).(nodes := old(status.nodes)[i := status.nodes[i]])
      ensures status == old(status).(nodes := WithNode(old(status.nodes), nodeId, NodePhaseOf(run.phase), run.name,
          RunTimes(run)))
    {
      var phase := NodeRunning;
      match run.phase {
        case RunSucceeded => phase := NodeCompleted;
        case RunFailed => phase := NodeFailed;
        case RunPartiallyFailed => phase := NodeFailed;
        case RunRunning => phase := NodeRunning;
        case RunPending => phase := NodePending;
        case RunUnset =>
      }
      var times := NO_TIMES;
      if run.firstJob.Some? {
        times := run.firstJob.value;
      }
      ok := SetNodeStatus(nodeId, phase, run.name, times);
    }

    method ProcessNode(nodeId: string, answers: Answers, attempts: seq<string>)
      returns (ok: bool, attempts': seq<string>)
      modifies this
      ensures var after := Visit(op, answers, Memory(old(status.nodes), attempts, false), nodeId);
              status == old(status).(nodes := after.nodes) && attempts' == after.attempts && ok == !after.failed
    {
      var sanitized := op.san(nodeId);
      if sanitized !in answers.index {
        var granted := |attempts| < |answers.outcomes| && answers.outcomes[|attempts|];
        var created, asked, _ := CreateScenarioRun(nodeId, granted, attempts);
        ok, attempts' := created, asked;
      } else {
        attempts' := attempts;
        ok := UpdateNodeStatusFromRun(nodeId, answers.index[sanitized]);
      }
    }

    method ProcessLevel(level: seq<string>, answers: Answers, attempts: seq<string>)
      returns (ok: bool, attempts': seq<string>)
      modifies this
      ensures var after := VisitAll(op, answers, Memory(old(status.nodes), attempts, false), level);
              status == old(status).(nodes := after.nodes) && attempts' == after.attempts && ok == !after.failed
    {
      ok, attempts' := true, attempts;
      for i := 0 to |level|
        invariant ok
        invariant status == old(status).(nodes := status.nodes)
        invariant VisitAll(op, answers, Memory(old(status.nodes), attempts, false), level)
               == VisitAll(op, answers, Memory(status.nodes, attempts', false), level[i..])
      {
        ok, attempts' := ProcessNode(level[i], answers, attempts');
        assert level[i..][1..] == level[i + 1..];
        if !ok {
          return;
        }
      }
    }

    /** The level loop: create or refresh level by level until a level is unfinished, failed or in error. */
    method ProcessLevels(answers: Answers) returns (ending: Ending, attempts: seq<string>)
      modifies this
      ensures var (after, end) := Walked(op, old(status), answers);
              ending == end && attempts == after.attempts && status == old(status).(nodes := after.nodes)
    {
      attempts := [];
      for levelIdx := 0 to |status.levels|
        invariant status == old(status).(nodes := status.nodes)
        invariant Walked(op, old(status), answers)
               == Walk(op, answers, Memory(status.nodes, attempts, false), status.levels, levelIdx)
      {
        if levelIdx > 0 {
          var complete, hasFailures := CheckPreviousLevel(levelIdx - 1);
          if hasFailures {
            return FailFast(levelIdx), attempts;
          }
          if !complete {
            return Waiting, attempts;
          }
        }
        var ok;
        ok, attempts := ProcessLevel(status.levels[levelIdx], answers, attempts);
        if !ok {
          return Aborted, attempts;
        }
      }
      return Through, attempts;
    }

    method BlockLevels(fromLevel: nat)
      requires fromLevel <= |status.levels|
      modifies this
      ensures status == old(status).(nodes := BlockFrom(old(status.nodes), old(status.levels), fromLevel))
    {
      for levelIdx := fromLevel to |status.levels|
        invariant status == old(status).(nodes := status.nodes)
        invariant BlockFrom(old(status.nodes), old(status.levels), fromLevel) ==
            BlockFrom(status.nodes, status.levels, levelIdx)
      {
        var level := status.levels[levelIdx];
        ghost var before := status.nodes;
        for i := 0 to |level|
          invariant status == old(status).(nodes := status.nodes)
          invariant Block(before, level) == Block(status.nodes, level[i..])
        {
          assert level[i..][1..] == level[i + 1..];
          var _ := SetNodeStatus(level[i], NodeBlocked, "", NO_TIMES);
        }
        assert Block(before, level) == status.nodes;
      }
    }

    method CalculateGlobalStatus(now: int)
      modifies this
      ensures status == Recalculated(old(status), now)
    {
      var completed, running, failed, pending := 0, 0, 0, 0;
      for i := 0 to |status.nodes|
        invariant status == old(status)
        invariant completed == CountPhase(status.nodes[..i], NodeCompleted)
        invariant running == CountPhase(status.nodes[..i], NodeRunning)
        invariant failed == CountPhase(status.nodes[..i], NodeFailed)
        invariant pending == CountPhase(status.nodes[..i], NodePending) + CountPhase(status.nodes[..i], NodeBlocked)
      {
        assert status.nodes[..i + 1][..i] == status.nodes[..i];
        match status.nodes[i].phase {
          case NodeCompleted => completed := completed + 1;
          case NodeRunning => running := running + 1;
          case NodeFailed => failed := failed + 1;
          case NodePending => pending := pending + 1;
          case NodeBlocked => pending := pending + 1;
        }
      }
      assert status.nodes[..|status.nodes|] == status.nodes;
      var total := |status.nodes|;
      var phase := Pending;
      if failed > 0 {
        if completed > 0 {
          phase := PartiallyFailed;
        } else {
          phase := Failed;
        }
      } else if completed == total {
        phase := Completed;
        if status.completionTime.None? {
          status := status.(completionTime := Some(now));
        }
      } else if running > 0 || completed > 0 {
        phase := Running;
      }
      status := status.(phase := phase, summary := Summary(total, completed, running, failed, pending));
    }

    method InitializeStatus(now: int)
      modifies this
      ensures status == Initialized(op, old(status), now)
      ensures status.phase == Pending && status.startTime == Some(now) && status.nodes == []
      ensures status.completionTime == old(status.completionTime) && status.levels == old(status.levels)
      ensures var total := |set n | n in op.spec.graph && (n == "" || n[0] != '_')|;
              status.summary == Summary(total, 0, 0, 0, total)
    {
      var total := CountExecutable(op.spec.graph);
      assert ExecutableNodes(op.spec.graph) == set n | n in op.spec.graph && (n == "" || n[0] != '_');
      status := status.(phase := Pending, startTime := Some(now), nodes := [],
          summary := Summary(total, 0, 0, 0, total));
    }

    /** Stores the levels and one pending entry per executed node, in whatever order the map yields them. */
    method StoreResolution(levels: Levels) returns (ghost order: seq<string>)
      modifies this
      ensures Enumerates(order, ExecutableNodes(op.spec.graph))
      ensures status == Resolved(op, old(status), levels, order)
      ensures status == old(status).(levels := levels, nodes := status.nodes) && |status.nodes| == |order|
      ensures forall i :: 0 <= i < |order| ==>
          var node := op.spec.graph[order[i]];
          status.nodes[i] == NodeStatus(order[i], node.name, NodePending, "", None, None,
              if node.dependsOn == None then [] else [node.dependsOn.value])
    {
      var nodes: seq<NodeStatus> := [];
      order := [];
      var remaining := op.spec.graph.Keys;
      while remaining != {}
        invariant remaining <= op.spec.graph.Keys
        invariant status == old(status)
        invariant Distinct(order)
        invariant forall n :: n in order <==> n in ExecutableNodes(op.spec.graph) && n !in remaining
        invariant nodes == PendingNodes(op.spec, order)
      {
        var nodeId :| nodeId in remaining;
        remaining := remaining - {nodeId};
        if IsMetadata(nodeId) {
          continue;
        }
        var node := op.spec.graph[nodeId];
        var dependsOn := if node.dependsOn.Some? then [node.dependsOn.value] else [];
        nodes := nodes + [NodeStatus(nodeId, node.name, NodePending, "", None, None, dependsOn)];
        order := order + [nodeId];
      }
      status := status.(levels := levels, nodes := nodes);
    }

    /**
     A whole pass, whose listing of runs may fail: the statuses it submits and the runs it asks for are
     those of the functional pass.
     */
    method Reconcile(items: seq<ScenarioRun>, listFails: bool, outcomes: seq<bool>, library: Option<Levels>,
        now: int, firstWriteOk: bool)
      returns (submitted: seq<GraphStatus>, attempts: seq<string>, ghost inputs: PassInputs)
      modifies this
      ensures Enumerates(inputs.order, ExecutableNodes(op.spec.graph))
      ensures inputs.answers == Answers(IndexOf(items), outcomes) && inputs.now == now
          && inputs.firstWriteOk == firstWriteOk
      ensures old(status.phase) != Unset && !IsTerminalPhase(old(status.phase)) && old(status.levels) == [] ==>
                GraphValidation.ResolvesTo(op.spec.graph, library, inputs.layering)
      ensures old(status.phase) == Unset ==>
          attempts == [] && |submitted| == 1 && submitted[0].phase == Pending && submitted[0].nodes == []
      ensures old(status.phase) in {Completed, Failed, PartiallyFailed} ==> attempts == [] && submitted == []
      ensures old(status.phase) in {Pending, Running} && !(old(status.levels) != [] && listFails) ==> submitted != []
      ensures old(status.phase) in {Pending, Running} && old(status.levels) == [] ==>
          attempts == [] && submitted != []
          && (inputs.layering.None? ==> submitted == [old(status).(phase := Failed)])
          && (inputs.layering.Some? ==>
               && submitted[0] == old(status).(levels := inputs.layering.value, nodes := submitted[0].nodes)
               && submitted == [submitted[0]] + (if firstWriteOk then [] else [submitted[0].(phase := Failed)]))
      ensures Processes(old(status)) && listFails ==> attempts == [] && submitted == []
      ensures !(Processes(old(status)) && listFails) ==>
                attempts == Attempts(op, old(status), inputs.answers) && submitted == Submitted(op, old(status), inputs)
      ensures status == if submitted == [] then old(status) else submitted[|submitted| - 1]
    {
      var runs := IndexRuns(items);
      var answers := Answers(runs, outcomes);
      ghost var anyOrder := EnumerationOf(ExecutableNodes(op.spec.graph));
      inputs := PassInputs(now, None, anyOrder, answers, firstWriteOk);
      if status.phase == Unset {
        InitializeStatus(now);
        return [status], [], inputs;
      }
      if IsTerminalPhase(status.phase) {
        return [], [], inputs;
      }
      if |status.levels| == 0 {
        var layering := GraphValidation.ResolveGraph(op.spec.graph, library);
        if layering.Err? {
          status := status.(phase := Failed);
          return [status], [], inputs;
        }
        ghost var order := StoreResolution(layering.value);
        inputs := PassInputs(now, Some(layering.value), order, answers, firstWriteOk);
        submitted := [status];
        if !firstWriteOk {
          status := status.(phase := Failed);
          submitted := submitted + [status];
        }
        return submitted, [], inputs;
      }
      if listFails {
        return [], [], inputs;
      }
      var ending;
      ending, attempts := ProcessLevels(answers);
      match ending {
        case Aborted =>
          status := status.(phase := Failed);
        case FailFast(k) =>
          BlockLevels(k);
          CalculateGlobalStatus(now);
        case Waiting =>
          CalculateGlobalStatus(now);
        case Through =>
          CalculateGlobalStatus(now);
      }
      submitted := [status];
    }
  }
}
