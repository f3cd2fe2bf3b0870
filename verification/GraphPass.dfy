/**
 One reconcile pass over a graph run, as a function of what the pass is told: the status it
 fetched, the scenario runs it listed and the answers to its create requests.
 */
module GraphPass {
  import opened Common
  import opened GraphTypes

  /** The fixed part of a graph run, and the sanitiser the operator uses. */
  datatype Operator = Operator(graphName: string, spec: GraphSpec, san: string -> string)

  /** Listed runs, keyed by the label that carries the sanitised node ID. */
  type Index = map<string, ScenarioRun>

  /** What the API server tells a pass: the listed runs and the answer to each create request in turn. */
  datatype Answers = Answers(index: Index, outcomes: seq<bool>)

  /** The in-memory part of a pass: node statuses, nodes it has asked to create, and whether it hit an error. */
  datatype Memory = Memory(nodes: seq<NodeStatus>, attempts: seq<string>, failed: bool)

  /** How the level loop ends. */
  datatype Ending = Aborted | FailFast(from: nat) | Waiting | Through

  /** A run without the node label is skipped, a later run replaces an earlier one. */
  function IndexOf(items: seq<ScenarioRun>): Index {
    if items == [] then map[]
    else
      var last := items[|items| - 1];
      var before := IndexOf(items[..|items| - 1]);
      if last.nodeLabel != "" then before[last.nodeLabel := last] else before
  }

  /** What the index holds: under each non-empty label in use, the last run that carries it. */
  lemma {:induction false} IndexKeepsLast(items: seq<ScenarioRun>, key: string)
    ensures key in IndexOf(items) <==> key != "" && exists i :: 0 <= i < |items| && items[i].nodeLabel == key
    ensures key in IndexOf(items) ==>
        exists i :: 0 <= i < |items| && IndexOf(items)[key] == items[i] && LastLabelled(items, i, key)
  {
    if items != [] {
      var n := |items| - 1;
      IndexKeepsLast(items[..n], key);
      if key != "" && items[n].nodeLabel == key {
        assert LastLabelled(items, n, key);
      } else if key in IndexOf(items[..n]) {
        var i :| 0 <= i < n && IndexOf(items[..n])[key] == items[..n][i] && LastLabelled(items[..n], i, key);
        LastLabelledAmongMore(items, i, key);
      }
    }
  }

  ghost predicate LastLabelled(items: seq<ScenarioRun>, i: nat, key: string) {
    i < |items| && items[i].nodeLabel == key && forall j :: i < j < |items| ==> items[j].nodeLabel != key
  }

  lemma LastLabelledAmongMore(items: seq<ScenarioRun>, i: nat, key: string)
    requires items != [] && LastLabelled(items[..|items| - 1], i, key) && items[|items| - 1].nodeLabel != key
    ensures LastLabelled(items, i, key)
  {
    forall j | i < j < |items| ensures items[j].nodeLabel != key {
      if j < |items| - 1 {
        assert items[..|items| - 1][j].nodeLabel != key;
      }
    }
  }

  function ObjectName(op: Operator, nodeId: string): string {
    op.graphName + "-" + op.san(nodeId)
  }

  /** The object created for a node: its name and its two graph labels. */
  function NewRun(op: Operator, n: string): ScenarioRun {
    ScenarioRun(ObjectName(op, n), op.graphName, op.san(n), RunUnset, None)
  }

  /** The node can be turned into a scenario-run specification. */
  predicate Creatable(spec: GraphSpec, nodeId: string) {
    && nodeId in spec.graph
    && spec.graph[nodeId].image != ""
    && spec.graph[nodeId].name != ""
    && spec.targetRequestId != ""
    && |spec.targetClusters| > 0
  }

  /** A phase the run's controller has not set yet counts as running. */
  function NodePhaseOf(phase: RunPhase): NodePhase {
    match phase
    case RunSucceeded => NodeCompleted
    case RunFailed => NodeFailed
    case RunPartiallyFailed => NodeFailed
    case RunPending => NodePending
    case RunRunning => NodeRunning
    case RunUnset => NodeRunning
  }

  /** Position of the first entry for a node. */
  function Find(nodes: seq<NodeStatus>, nodeId: string): (r: Option<nat>)
    ensures r.Some? ==> r.value < |nodes| && nodes[r.value].nodeId == nodeId
    ensures r.Some? ==> forall j :: 0 <= j < r.value ==> nodes[j].nodeId != nodeId
    ensures r.None? ==> forall j :: 0 <= j < |nodes| ==> nodes[j].nodeId != nodeId
  {
    FirstWhere((n: NodeStatus) => n.nodeId == nodeId, nodes)
  }

  function Merged(node: NodeStatus, phase: NodePhase, runRef: string, times: JobTimes): NodeStatus {
    node.(phase := phase,
          scenarioRunRef := runRef,
          startTime := if times.startTime.Some? then times.startTime else node.startTime,
          completionTime := if times.completionTime.Some? then times.completionTime else node.completionTime)
  }

  /** The entry says what the run says; a time the run does not give stays as it was. */
  ghost predicate Reports(before: NodeStatus, run: ScenarioRun, after: NodeStatus) {
    && after.nodeId == before.nodeId && after.nodeName == before.nodeName && after.dependsOn == before.dependsOn
    && after.scenarioRunRef == run.name
    && (run.phase == RunSucceeded ==> after.phase == NodeCompleted)
    && (run.phase == RunFailed || run.phase == RunPartiallyFailed ==> after.phase == NodeFailed)
    && (run.phase == RunPending ==> after.phase == NodePending)
    && (run.phase == RunRunning || run.phase == RunUnset ==> after.phase == NodeRunning)
    && after.startTime == (if run.firstJob.Some? && run.firstJob.value.startTime.Some?
        then run.firstJob.value.startTime else before.startTime)
    && after.completionTime == (if run.firstJob.Some? && run.firstJob.value.completionTime.Some?
        then run.firstJob.value.completionTime else before.completionTime)
  }

  const NO_TIMES := JobTimes(None, None)

  /** Nodes after setting one entry; unchanged when the node has none. */
  function WithNode(nodes: seq<NodeStatus>, nodeId: string, phase: NodePhase, runRef: string,
      times: JobTimes): seq<NodeStatus> {
    match Find(nodes, nodeId)
    case None => nodes
    case Some(i) => nodes[i := Merged(nodes[i], phase, runRef, times)]
  }

  function RunTimes(run: ScenarioRun): JobTimes {
    match run.firstJob
    case None => NO_TIMES
    case Some(times) => times
  }

  function Record(m: Memory, nodeId: string, phase: NodePhase, runRef: string, times: JobTimes): Memory {
    if Find(m.nodes, nodeId).None? then m.(failed := true)
    else m.(nodes := WithNode(m.nodes, nodeId, phase, runRef, times))
  }

  /** A missing answer counts as an error. */
  predicate Granted(outcomes: seq<bool>, k: nat) {
    k < |outcomes| && outcomes[k]
  }

  /** Processing one node: create its run when none is listed, otherwise copy the listed phase. */
  function Visit(op: Operator, answers: Answers, m: Memory, nodeId: string): Memory {
    if op.san(nodeId) in answers.index then
      var run := answers.index[op.san(nodeId)];
      Record(m, nodeId, NodePhaseOf(run.phase), run.name, RunTimes(run))
    else if !Creatable(op.spec, nodeId) then
      m.(failed := true)
    else
      var asked := m.(attempts := m.attempts + [nodeId]);
      if Granted(answers.outcomes, |m.attempts|) then
        Record(asked, nodeId, NodeRunning, ObjectName(op, nodeId), NO_TIMES)
      else
        asked.(failed := true)
  }

  /** Processing a level stops at the first error. */
  function VisitAll(op: Operator, answers: Answers, m: Memory, level: seq<string>): Memory
    decreases |level|
  {
    if level == [] || m.failed then m
    else VisitAll(op, answers, Visit(op, answers, m, level[0]), level[1..])
  }

  predicate NodeIn(nodes: seq<NodeStatus>, nodeId: string, phase: NodePhase) {
    Find(nodes, nodeId).Some? && nodes[Find(nodes, nodeId).value].phase == phase
  }

  predicate LevelFailed(nodes: seq<NodeStatus>, level: seq<string>) {
    exists n | n in level :: NodeIn(nodes, n, NodeFailed)
  }

  predicate LevelComplete(nodes: seq<NodeStatus>, level: seq<string>) {
    forall n | n in level :: NodeIn(nodes, n, NodeCompleted) || NodeIn(nodes, n, NodeFailed)
  }

  /** The level loop from level `k` on. */
  function Walk(op: Operator, answers: Answers, m: Memory, levels: Levels, k: nat): (r: (Memory, Ending))
    requires k <= |levels|
    ensures r.1.FailFast? ==> 0 < r.1.from < |levels|
    decreases |levels| - k
  {
    if k == |levels| then (m, Through)
    else if k > 0 && LevelFailed(m.nodes, levels[k - 1]) then (m, FailFast(k))
    else if k > 0 && !LevelComplete(m.nodes, levels[k - 1]) then (m, Waiting)
    else
      var m' := VisitAll(op, answers, m, levels[k]);
      if m'.failed then (m', Aborted) else Walk(op, answers, m', levels, k + 1)
  }

  /** Fail-fast marks nodes blocked, skipping those that have no entry. */
  function Block(nodes: seq<NodeStatus>, level: seq<string>): seq<NodeStatus>
    decreases |level|
  {
    if level == [] then nodes
    else Block(WithNode(nodes, level[0], NodeBlocked, "", NO_TIMES), level[1..])
  }

  function BlockFrom(nodes: seq<NodeStatus>, levels: Levels, k: nat): seq<NodeStatus>
    requires k <= |levels|
    decreases |levels| - k
  {
    if k == |levels| then nodes else BlockFrom(Block(nodes, levels[k]), levels, k + 1)
  }

  ghost function CountPhase(nodes: seq<NodeStatus>, phase: NodePhase): nat {
    Count((n: NodeStatus) => n.phase == phase, nodes)
  }

  ghost function SummaryOf(nodes: seq<NodeStatus>): Summary {
    Summary(|nodes|,
            CountPhase(nodes, NodeCompleted),
            CountPhase(nodes, NodeRunning),
            CountPhase(nodes, NodeFailed),
            CountPhase(nodes, NodePending) + CountPhase(nodes, NodeBlocked))
  }

  function PhaseFor(s: Summary): GraphPhase {
    if s.failed > 0 then (if s.completed > 0 then PartiallyFailed else Failed)
    else if s.completed == s.total then Completed
    else if s.running > 0 || s.completed > 0 then Running
    else Pending
  }

  /** Recomputing phase and summary from the node statuses. */
  ghost function Recalculated(status: GraphStatus, now: int): GraphStatus {
    var summary := SummaryOf(status.nodes);
    var phase := PhaseFor(summary);
    status.(phase := phase,
            summary := summary,
            completionTime := if phase == Completed && status.completionTime.None? then Some(now)
                else status.completionTime)
  }

  ghost function Start(status: GraphStatus): Memory {
    Memory(status.nodes, [], false)
  }

  ghost function Walked(op: Operator, status: GraphStatus, answers: Answers): (Memory, Ending) {
    Walk(op, answers, Start(status), status.levels, 0)
  }

  /** The status a processing pass submits. */
  ghost function Processed(op: Operator, status: GraphStatus, answers: Answers, now: int): GraphStatus {
    var (m, ending) := Walked(op, status, answers);
    match ending
    case Aborted => status.(nodes := m.nodes, phase := Failed)
    case FailFast(k) => Recalculated(status.(nodes := BlockFrom(m.nodes, status.levels, k)), now)
    case Waiting => Recalculated(status.(nodes := m.nodes), now)
    case Through => Recalculated(status.(nodes := m.nodes), now)
  }

  /** A pass gets to the level loop only with a started, unfinished, resolved graph run. */
  predicate Processes(status: GraphStatus) {
    status.phase != Unset && !IsTerminalPhase(status.phase) && status.levels != []
  }

  /** The nodes a pass asks the API server to create runs for, in order. */
  ghost function Attempts(op: Operator, status: GraphStatus, answers: Answers): seq<string> {
    if Processes(status) then Walked(op, status, answers).0.attempts else []
  }

  function Initialized(op: Operator, status: GraphStatus, now: int): GraphStatus {
    var total := |ExecutableNodes(op.spec.graph)|;
    status.(phase := Pending, startTime := Some(now), nodes := [], summary := Summary(total, 0, 0, 0, total))
  }

  function PendingNode(spec: GraphSpec, nodeId: string): NodeStatus
    requires nodeId in spec.graph
  {
    var node := spec.graph[nodeId];
    NodeStatus(nodeId, node.name, NodePending, "", None, None, if node.dependsOn.Some? then [node.dependsOn.value]
        else [])
  }

  /** Node statuses created in the given map iteration order. */
  function PendingNodes(spec: GraphSpec, order: seq<string>): seq<NodeStatus>
    requires forall n :: n in order ==> n in spec.graph
  {
    seq(|order|, i requires 0 <= i < |order| => PendingNode(spec, order[i]))
  }

  function Resolved(op: Operator, status: GraphStatus, levels: Levels, order: seq<string>): GraphStatus
    requires forall n :: n in order ==> n in op.spec.graph
  {
    status.(levels := levels, nodes := PendingNodes(op.spec, order))
  }

  /** Everything a whole pass is told; `order` is the iteration order of the graph map. */
  datatype PassInputs = PassInputs(now: int, layering: Option<Levels>, order: seq<string>, answers: Answers,
      firstWriteOk: bool)

  /** The statuses a pass submits to the API server, in order. */
  ghost function Submitted(op: Operator, status: GraphStatus, inputs: PassInputs): seq<GraphStatus>
    requires Enumerates(inputs.order, ExecutableNodes(op.spec.graph))
  {
    if status.phase == Unset then
      [Initialized(op, status, inputs.now)]
    else if IsTerminalPhase(status.phase) then
      []
    else if status.levels == [] then
      match inputs.layering
      case None => [status.(phase := Failed)]
      case Some(levels) =>
        var resolved := Resolved(op, status, levels, inputs.order);
        if inputs.firstWriteOk then [resolved] else [resolved, resolved.(phase := Failed)]
    else
      [Processed(op, status, inputs.answers, inputs.now)]
  }
}
