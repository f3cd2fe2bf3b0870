/** The records of a graph run: its specification, its status and the scenario runs it owns. */
module GraphTypes {
  import opened Common

  datatype GraphNode = GraphNode(name: string, image: string, dependsOn: Option<string>)

  type Graph = map<string, GraphNode>

  type Levels = seq<seq<string>>

  datatype GraphSpec = GraphSpec(
    graph: Graph,
    targetRequestId: string,
    targetClusters: map<string, seq<string>>)

  datatype NodePhase = NodePending | NodeRunning | NodeCompleted | NodeFailed | NodeBlocked

  datatype NodeStatus = NodeStatus(
    nodeId: string,
    nodeName: string,
    phase: NodePhase,
    scenarioRunRef: string,
    startTime: Option<int>,
    completionTime: Option<int>,
    dependsOn: seq<string>)

  /** `Unset` is the empty phase of a freshly created object. */
  datatype GraphPhase = Unset | Pending | Running | Completed | Failed | PartiallyFailed

  datatype Summary = Summary(total: int, completed: int, running: int, failed: int, pending: int)

  datatype GraphStatus = GraphStatus(
    phase: GraphPhase,
    startTime: Option<int>,
    completionTime: Option<int>,
    summary: Summary,
    nodes: seq<NodeStatus>,
    levels: Levels)

  /** The phase of a scenario run, as its own controller reports it. */
  datatype RunPhase = RunUnset | RunPending | RunRunning | RunSucceeded | RunFailed | RunPartiallyFailed

  datatype JobTimes = JobTimes(startTime: Option<int>, completionTime: Option<int>)

  /** A scenario run object; `graphLabel` and `nodeLabel` are its two graph labels. */
  datatype ScenarioRun = ScenarioRun(
    name: string,
    graphLabel: string,
    nodeLabel: string,
    phase: RunPhase,
    firstJob: Option<JobTimes>)

  /** Nodes whose ID starts with an underscore carry comments and are never executed. */
  predicate IsMetadata(nodeId: string) {
    nodeId != "" && nodeId[0] == '_'
  }

  ghost predicate IsNode(graph: Graph, nodeId: string) {
    nodeId in graph && !IsMetadata(nodeId)
  }

  function ExecutableNodes(graph: Graph): set<string> {
    set n | n in graph && !IsMetadata(n)
  }

  predicate IsTerminalPhase(phase: GraphPhase) {
    phase == Completed || phase == Failed || phase == PartiallyFailed
  }

  // The contract of a layering has three independent parts.

  /** No node has two positions. */
  ghost predicate AtMostOnce(levels: Levels) {
    forall i, a, j, b ::
      0 <= i < |levels| && 0 <= a < |levels[i]| && 0 <= j < |levels| && 0 <= b < |levels[j]|
          && levels[i][a] == levels[j][b]
      ==> i == j && a == b
  }

  /** A node's parent sits in an earlier level. */
  ghost predicate ParentsEarlier(graph: Graph, levels: Levels) {
    forall k, n ::
      0 <= k < |levels| && n in levels[k] && n in graph && graph[n].dependsOn.Some?
      ==> exists j :: 0 <= j < k && graph[n].dependsOn.value in levels[j]
  }

  ghost predicate InLevels(levels: Levels, n: string) {
    exists k :: 0 <= k < |levels| && n in levels[k]
  }

  /** The levels hold exactly the nodes that are executed. */
  ghost predicate Covers(graph: Graph, levels: Levels) {
    forall n :: InLevels(levels, n) <==> IsNode(graph, n)
  }

  /** Each node of the path depends on the next one. */
  ghost predicate DependsChain(graph: Graph, path: seq<string>) {
    && path != []
    && forall i :: 0 <= i < |path| - 1 ==> path[i] in graph && graph[path[i]].dependsOn == Some(path[i + 1])
  }
}
