/** Safety over whole executions: dependencies are respected and no node gets two runs. */
module GraphSafety {
  import opened Common
  import opened GraphTypes
  import opened GraphPass
  import opened GraphSystem
  import GraphValidation
  import NodeIds

  ghost function Last(run: seq<System>): System
    requires run != []
  {
    run[|run| - 1]
  }

  /** The library's layering, wherever one is stored, holds exactly the executed nodes. */
  ghost predicate StoredLevelsCover(op: Operator, s: System) {
    forall v :: 0 <= v < |s.graph| && s.graph[v].levels != [] ==> Covers(op.spec.graph, s.graph[v].levels)
  }

  /**
   A run for a node is only ever stored by a pass that had listed a succeeded run for every node
   of every earlier level. Nothing is assumed about the layering.
   */
  lemma DependencySafety(op: Operator, run: seq<System>, e: nat) returns (k: nat)
    requires Execution(op, run) && e < |Last(run).log|
    ensures var s := Last(run); var c := s.log[e];
            && c.readAt < |s.graph| && c.listAt < c.at < |s.runs|
            && k < |s.graph[c.readAt].levels| && c.node in s.graph[c.readAt].levels[k]
            && EarlierLevelsDone(op, s.runs[c.listAt], s.graph[c.readAt].levels, k)
  {
    Reachable(op, run);
    var s := Last(run);
    var c := s.log[e];
    assert Justified(op, s, c);
    k :| 0 <= k < |s.graph[c.readAt].levels| && c.node in s.graph[c.readAt].levels[k]
         && EarlierLevelsDone(op, s.runs[c.listAt], s.graph[c.readAt].levels, k);
  }

  lemma LogOrder(op: Operator, s: System, d: nat, e: nat)
    requires Log(op, s) && d < |s.log| && e < |s.log|
    ensures s.log[d].at < s.log[e].at <==> d < e
  {
  }

  lemma CreationFacts(op: Operator, s: System, e: nat)
    requires Log(op, s) && e < |s.log|
    ensures var c := s.log[e];
            && c.listAt < c.at < |s.runs|
            && ObjectName(op, c.node) !in s.runs[c.at - 1] && HasRun(op, s.runs[c.at], c.node)
  {
    assert Justified(op, s, s.log[e]);
  }

  lemma {:induction false} ChainDescends(graph: Graph, levels: Levels, path: seq<string>, i: nat, k: nat)
    returns (j: nat)
    requires DependsChain(graph, path) && ParentsEarlier(graph, levels)
    requires i < |path| && k < |levels| && path[0] in levels[k]
    ensures j <= k && path[i] in levels[j] && (i > 0 ==> j < k)
  {
    j := k;
    if i > 0 {
      var j' := ChainDescends(graph, levels, path, i - 1, k);
      assert path[i - 1] in levels[j'] && graph[path[i - 1]].dependsOn == Some(path[i]);
      j :| 0 <= j < j' && path[i] in levels[j];
    }
  }

  /**
   With parents in earlier levels, no node starts before its whole dependency chain has succeeded:
   when the run of `path[0]` is stored, each later node of the chain had its own run stored and
   succeeded in the listing the creating pass used.
   */
  lemma ChainSucceedsFirst(op: Operator, run: seq<System>, e: nat, path: seq<string>, i: nat) returns (d: nat)
    requires Execution(op, run) && e < |Last(run).log|
    requires Last(run).log[e].readAt < |Last(run).graph|
    requires ParentsEarlier(op.spec.graph, Last(run).graph[Last(run).log[e].readAt].levels)
    requires DependsChain(op.spec.graph, path) && path[0] == Last(run).log[e].node && 0 < i < |path|
    ensures var s := Last(run); var c := s.log[e];
            && c.listAt < c.at < |s.runs|
            && RunSucceededIn(op, s.runs[c.listAt], path[i])
            && d < e && ObjectName(op, s.log[d].node) == ObjectName(op, path[i])
            && s.log[d].at <= c.listAt
  {
    var s := Last(run);
    var c := s.log[e];
    var levels := s.graph[c.readAt].levels;
    var k := DependencySafety(op, run, e);
    var j := ChainDescends(op.spec.graph, levels, path, i, k);
    assert RunSucceededIn(op, s.runs[c.listAt], path[i]);
    Reachable(op, run);
    assert AllRecorded(op, s.log, c.listAt, s.runs[c.listAt]);
    assert Recorded(op, s.log, c.listAt, ObjectName(op, path[i]));
    d :| 0 <= d < |s.log| && ObjectName(op, s.log[d].node) == ObjectName(op, path[i]) && s.log[d].at <= c.listAt;
    LogOrder(op, s, d, e);
  }

  /** On an admitted graph the creation found above is the ancestor's own. */
  lemma SameNameSameNode(op: Operator, s: System, d: nat, n: string)
    requires Inv(op, s) && d < |s.log| && StoredLevelsCover(op, s)
    requires GraphValidation.Admissible(op.san, op.spec.graph) && IsNode(op.spec.graph, n)
    requires ObjectName(op, s.log[d].node) == ObjectName(op, n)
    ensures s.log[d].node == n
  {
    var c := s.log[d];
    assert Justified(op, s, c);
    var levels := s.graph[c.readAt].levels;
    assert InLevels(levels, c.node);
    assert IsNode(op.spec.graph, c.node);
    SuffixEqual(op.graphName, op.san(c.node), op.san(n));
    assert c.node in ExecutableNodes(op.spec.graph) && n in ExecutableNodes(op.spec.graph);
  }

  ghost predicate KeepsRuns(op: Operator, runs: Runs, runs': Runs) {
    forall name :: name in runs && Ours(op, runs[name]) ==> name in runs' && Ours(op, runs'[name])
  }

  /** No run of ours disappears. */
  ghost predicate NoDeletion(op: Operator, runs: seq<Runs>) {
    forall i :: 0 < i < |runs| ==> KeepsRuns(op, runs[i - 1], runs[i])
  }

  lemma {:induction false} RunsPersist(op: Operator, runs: seq<Runs>, i: nat, j: nat, name: string)
    requires NoDeletion(op, runs) && i <= j < |runs| && name in runs[i] && Ours(op, runs[i][name])
    ensures name in runs[j] && Ours(op, runs[j][name])
    decreases j
  {
    if i < j {
      RunsPersist(op, runs, i, j - 1, name);
      assert KeepsRuns(op, runs[j - 1], runs[j]);
    }
  }

  lemma SecondCreationNeedsOtherName(op: Operator, runs: seq<Runs>, c: Creation, c': Creation)
    requires NoDeletion(op, runs) && c.at < c'.at < |runs|
    requires HasRun(op, runs[c.at], c.node) && ObjectName(op, c'.node) !in runs[c'.at - 1]
    ensures op.san(c.node) != op.san(c'.node)
  {
    RunsPersist(op, runs, c.at, c'.at - 1, ObjectName(op, c.node));
  }

  lemma CreationsDiffer(op: Operator, s: System, d: nat, e: nat)
    requires Log(op, s) && d < e < |s.log| && NoDeletion(op, s.runs)
    ensures op.san(s.log[d].node) != op.san(s.log[e].node)
  {
    LogOrder(op, s, d, e);
    CreationFacts(op, s, d);
    CreationFacts(op, s, e);
    SecondCreationNeedsOtherName(op, s.runs, s.log[d], s.log[e]);
  }

  /**
   Stale listings, lost answers and crashes between create and status write notwithstanding, no run is
   created twice.
   */
  lemma AtMostOneCreation(op: Operator, run: seq<System>, d: nat, e: nat)
    requires Execution(op, run) && d < e < |Last(run).log|
    requires NoDeletion(op, Last(run).runs)
    ensures op.san(Last(run).log[d].node) != op.san(Last(run).log[e].node)
  {
    Reachable(op, run);
    CreationsDiffer(op, Last(run), d, e);
  }

  /**
   Deletions or not, every run that carries a node's label is the node's one object, and its label is a
   sanitised node ID.
   */
  lemma AtMostOneRunAtATime(op: Operator, run: seq<System>, i: nat, name: string)
    requires Execution(op, run) && i < |Last(run).runs|
    requires name in Last(run).runs[i] && Ours(op, Last(run).runs[i][name])
    ensures var s := Last(run); var r := s.runs[i][name];
            && (forall n :: r.nodeLabel == op.san(n) ==> name == ObjectName(op, n))
            && exists e :: 0 <= e < |s.log| && s.log[e].at <= i && r.nodeLabel == op.san(s.log[e].node)
  {
    Reachable(op, run);
    var s := Last(run);
    StateIn(op, s, i);
    RecordedLabel(op, s.log, i, s.runs[i], name);
  }

  lemma RecordedLabel(op: Operator, log: seq<Creation>, i: nat, runs: Runs, name: string)
    requires Labelled(op, runs) && AllRecorded(op, log, i, runs)
    requires name in runs && Ours(op, runs[name])
    ensures forall n :: runs[name].nodeLabel == op.san(n) ==> name == ObjectName(op, n)
    ensures exists e :: 0 <= e < |log| && log[e].at <= i && runs[name].nodeLabel == op.san(log[e].node)
  {
    assert Recorded(op, log, i, name);
    var e :| 0 <= e < |log| && ObjectName(op, log[e].node) == name && log[e].at <= i;
    SuffixEqual(op.graphName, runs[name].nodeLabel, op.san(log[e].node));
  }

  /** With the real sanitiser every stored node label is a valid label value. */
  lemma StoredLabelsValid(op: Operator, lower: char -> char, run: seq<System>, i: nat, name: string)
    requires forall n :: op.san(n) == NodeIds.Sanitize(lower, n)
    requires Execution(op, run) && i < |Last(run).runs|
    requires name in Last(run).runs[i] && Ours(op, Last(run).runs[i][name])
    ensures NodeIds.LabelValue(Last(run).runs[i][name].nodeLabel)
  {
    AtMostOneRunAtATime(op, run, i, name);
    var s := Last(run);
    var e :| 0 <= e < |s.log| && s.log[e].at <= i && s.runs[i][name].nodeLabel == op.san(s.log[e].node);
    NodeIds.SanitizeYieldsLabelValue(lower, s.log[e].node);
  }
}
