/**
 An admitted, fully layered graph with complete specifications does complete: one execution of the
 whole system, strictly disciplined, whose passes and listings are the ideal ones of `GraphProgress`.
 */
module GraphCompletion {
  import opened Common
  import opened GraphTypes
  import opened GraphPass
  import opened GraphFrontier
  import opened GraphSystem
  import opened GraphSafety
  import opened GraphFailFast
  import opened GraphSessions
  import opened GraphSummary
  import opened GraphProgress
  import opened GraphValidation
  import GraphLayering

  // ---------------------------------------------------------------------------------------
  // The stored resolution is a good start

  /** An admitted graph with a full layering that has no empty level, and complete node specifications. */
  ghost predicate Sound(op: Operator, levels: Levels) {
    && Admissible(op.san, op.spec.graph) && ExecutableNodes(op.spec.graph) != {}
    && Layers(op.spec.graph, levels) && (forall k :: 0 <= k < |levels| ==> levels[k] != [])
    && CompleteSpec(op)
  }

  function FirstResolved(op: Operator, levels: Levels, order: seq<string>): GraphStatus
    requires forall n :: n in order ==> n in op.spec.graph
  {
    Resolved(op, Initialized(op, NewGraph(), 0), levels, order)
  }

  lemma SoundLabels(op: Operator, levels: Levels)
    requires Sound(op, levels)
    ensures levels != [] && LabelsDistinct(op, levels)
    ensures forall n :: InLevels(levels, n) ==> n in ExecutableNodes(op.spec.graph) && op.san(n) != ""
  {
    var n :| n in ExecutableNodes(op.spec.graph);
    assert IsNode(op.spec.graph, n) && InLevels(levels, n);
    forall n | InLevels(levels, n) ensures n in ExecutableNodes(op.spec.graph) && op.san(n) != "" {
      assert IsNode(op.spec.graph, n) && GoodId(op.san, n);
    }
  }

  lemma ResolvedEntries(op: Operator, levels: Levels, order: seq<string>, n: string)
    requires Enumerates(order, ExecutableNodes(op.spec.graph)) && n in order
    ensures NodeIn(FirstResolved(op, levels, order).nodes, n, NodePending)
  {
    var nodes := FirstResolved(op, levels, order).nodes;
    var i :| 0 <= i < |order| && order[i] == n;
    assert nodes[i].nodeId == n;
  }

  /** What the resolving pass stores meets the assumptions of the progress bound. */
  lemma ResolvedIsReady(op: Operator, levels: Levels, order: seq<string>)
    requires Sound(op, levels) && Enumerates(order, ExecutableNodes(op.spec.graph))
    ensures var g := FirstResolved(op, levels, order);
            Processes(g) && WellLayered(op, g) && PendingFrom(g, 0) && g.levels == levels
    ensures LabelsDistinct(op, levels)
  {
    var g := FirstResolved(op, levels, order);
    SoundLabels(op, levels);
    ResolvedIds(op, Initialized(op, NewGraph(), 0), levels, order);
    forall j, n | 0 <= j < |g.levels| && n in g.levels[j] ensures NodeIn(g.nodes, n, NodePending) {
      assert InLevels(levels, n);
      ResolvedEntries(op, levels, order, n);
    }
  }

  // ---------------------------------------------------------------------------------------
  // Requests answered one by one

  /** What is asked for of a level with `g` grants left: its first `g + 1` nodes, or all of them. */
  function AskedWith(level: seq<string>, g: nat): seq<string> {
    if g < |level| then level[..g + 1] else level
  }

  lemma AskedFirst(before: seq<string>, level: seq<string>, g: nat)
    requires level != []
    ensures before + AskedWith(level, g) == (before + [level[0]])
        + (if g == 0 then [] else AskedWith(level[1..], g - 1))
  {
  }

  lemma {:induction false} LevelAsks(op: Operator, answers: Answers, m: Memory, level: seq<string>, g: nat)
    requires !m.failed && answers.outcomes == Trues(|m.attempts| + g) && Entered(m.nodes, level)
    requires forall n :: n in level ==> op.san(n) !in answers.index && Creatable(op.spec, n)
    ensures VisitAll(op, answers, m, level).attempts == m.attempts + AskedWith(level, g)
    decreases |level|
  {
    if level != [] {
      var n, rest := level[0], level[1..];
      var m1 := Visit(op, answers, m, n);
      assert n in level && forall n' :: n' in rest ==> n' in level;
      NextAsk(op, answers, m, n, g);
      AskedFirst(m.attempts, level, g);
      if g == 0 {
        FailureSticks(op, answers, m1, rest);
      } else {
        EnteredKept(m.nodes, m1.nodes, rest);
        assert Entered(m1.nodes, rest);
        LevelAsks(op, answers, m1, rest, g - 1);
      }
    }
  }

  lemma NextAsk(op: Operator, answers: Answers, m: Memory, n: string, g: nat)
    requires !m.failed && answers.outcomes == Trues(|m.attempts| + g) && Find(m.nodes, n).Some?
    requires op.san(n) !in answers.index && Creatable(op.spec, n)
    ensures var m1 := Visit(op, answers, m, n);
            m1.attempts == m.attempts + [n] && (m1.failed <==> g == 0) && SameIds(m.nodes, m1.nodes)
  {
    VisitRefreshes(op, answers, m, n);
  }

  /** The walk reaches the frontier without a request and asks there. */
  lemma {:induction false} WalkReaches(op: Operator, answers: Answers, m: Memory, levels: Levels, k: nat, f: nat)
    returns (m': Memory)
    requires IsFrontier(op, answers.index, levels, f) && k <= f < |levels| && !m.failed && m.attempts == []
    requires k > 0 ==> Refreshed(op, answers.index, m.nodes, levels[k - 1])
    requires forall j :: 0 <= j < |levels| ==> Entered(m.nodes, levels[j])
    ensures !m'.failed && m'.attempts == [] && Entered(m'.nodes, levels[f])
    ensures Walk(op, answers, m, levels, k).0.attempts == VisitAll(op, answers, m', levels[f]).attempts
    decreases f - k
  {
    assert k > 0 ==> LevelSucceeded(op, answers.index, levels[k - 1]);
    WalkOpens(op, answers, m, levels, k);
    var m1 := VisitAll(op, answers, m, levels[k]);
    LevelRefreshes(op, answers, m, levels[k]);
    if k < f {
      SucceededNothingMissing(op, answers.index, levels[k]);
      LevelNoErrorIff(op, answers, m, levels[k]);
      LevelAttempts(op, answers, m, levels[k]);
      forall j | 0 <= j < |levels| ensures Entered(m1.nodes, levels[j]) {
        EnteredKept(m.nodes, m1.nodes, levels[j]);
      }
      m' := WalkReaches(op, answers, m1, levels, k + 1, f);
    } else {
      m' := m;
      if !m1.failed {
        WalkCloses(op, answers, m1, levels, f);
      }
    }
  }

  /** With `k` requests of level `i` granted so far, the pass has asked for those and the next one. */
  lemma AskedSoFar(op: Operator, status: GraphStatus, index: Index, i: nat, k: nat)
    requires Processes(status) && WellLayered(op, status) && CompleteSpec(op)
    requires i < |status.levels| && ListedThrough(op, index, status.levels, i)
    ensures Attempts(op, status, Answers(index, Trues(k))) == AskedWith(status.levels[i], k)
  {
    var levels, answers := status.levels, Answers(index, Trues(k));
    FrontierIs(op, index, levels, i);
    forall j, n | 0 <= j < |levels| && n in levels[j] ensures Find(status.nodes, n).Some? && Creatable(op.spec, n) {
      assert InLevels(levels, n) && IsNode(op.spec.graph, n);
      assert n in Ids(status.nodes);
    }
    var m := WalkReaches(op, answers, Start(status), levels, 0, i);
    LevelAsks(op, answers, m, levels[i], k);
  }

  // ---------------------------------------------------------------------------------------
  // Runs and their listings

  ghost predicate RunOf(op: Operator, r: ScenarioRun, n: string) {
    r.name == ObjectName(op, n) && r.graphLabel == op.graphName && r.nodeLabel == op.san(n)
  }

  /** These are the runs of exactly these nodes. */
  ghost predicate RunsOf(op: Operator, runs: Runs, nodes: set<string>) {
    && (forall n :: n in nodes ==> ObjectName(op, n) in runs && RunOf(op, runs[ObjectName(op, n)], n))
    && (forall name :: name in runs ==> exists n :: n in nodes && name == ObjectName(op, n))
  }

  lemma RunsOfLabelled(op: Operator, runs: Runs, nodes: set<string>)
    requires RunsOf(op, runs, nodes)
    ensures Labelled(op, runs) && forall name :: name in runs ==> Ours(op, runs[name])
  {
  }

  ghost function ListingOf(op: Operator, runs: Runs): (items: seq<ScenarioRun>)
    requires Labelled(op, runs) && forall name :: name in runs ==> Ours(op, runs[name])
    ensures Lists(op, runs, items)
  {
    var names := EnumerationOf(runs.Keys);
    var items := seq(|names|, i requires 0 <= i < |names| => runs[names[i]]);
    assert forall name :: name in runs ==> name in names;
    assert forall i :: 0 <= i < |names| ==> items[i] == runs[names[i]];
    items
  }

  /** The keys of an index are the sanitised IDs of the nodes that have runs. */
  lemma IndexKeys(op: Operator, runs: Runs, nodes: set<string>, items: seq<ScenarioRun>, key: string)
    requires RunsOf(op, runs, nodes) && Lists(op, runs, items)
    requires forall n :: n in nodes ==> op.san(n) != ""
    ensures key in IndexOf(items) <==> exists n :: n in nodes && op.san(n) == key
    ensures key in IndexOf(items) ==> exists name :: name in runs && IndexOf(items)[key] == runs[name]
  {
    RunsOfLabelled(op, runs, nodes);
    IndexOfSound(items, key);
    if key in IndexOf(items) {
      var r := IndexOf(items)[key];
      assert r in items && r.name in runs && runs[r.name] == r;
      var n :| n in nodes && r.name == ObjectName(op, n);
      assert RunOf(op, r, n);
    }
    if n :| n in nodes && op.san(n) == key {
      var r := runs[ObjectName(op, n)];
      assert RunOf(op, r, n) && r in items && r.nodeLabel == key;
    }
  }

  ghost predicate AllSucceeded(runs: Runs) {
    forall name :: name in runs ==> runs[name].phase == RunSucceeded
  }

  function Members(s: seq<string>): set<string> {
    set n | n in s
  }

  ghost function NodesBelow(levels: Levels, i: nat): set<string>
    requires i <= |levels|
    decreases i
  {
    if i == 0 then {} else NodesBelow(levels, i - 1) + Members(levels[i - 1])
  }

  lemma {:induction false} NodesBelowAre(levels: Levels, i: nat, n: string)
    requires i <= |levels|
    ensures n in NodesBelow(levels, i) <==> BelowLevel(levels, i, n)
    decreases i
  {
    if i > 0 {
      NodesBelowAre(levels, i - 1, n);
    }
  }

  /** Adding the runs of further nodes. */
  lemma {:induction false} AddedRuns(op: Operator, runs: Runs, nodes: set<string>, level: seq<string>, k: nat)
    requires RunsOf(op, runs, nodes) && k <= |level| && FreeNames(op, runs, level, k)
    ensures RunsOf(op, Added(op, runs, level, k), nodes + Members(level[k..]))
    decreases |level| - k
  {
    if k < |level| {
      var n := level[k];
      RunAdded(op, runs, nodes, n);
      MembersFrom(nodes, level, k);
      AddedRuns(op, runs[ObjectName(op, n) := NewRun(op, n)], nodes + {n}, level, k + 1);
    } else {
      assert nodes + Members(level[k..]) == nodes;
    }
  }

  lemma MembersFrom(nodes: set<string>, level: seq<string>, k: nat)
    requires k < |level|
    ensures (nodes + {level[k]}) + Members(level[k + 1..]) == nodes + Members(level[k..])
  {
    assert level[k..] == [level[k]] + level[k + 1..];
  }

  lemma RunAdded(op: Operator, runs: Runs, nodes: set<string>, n: string)
    requires RunsOf(op, runs, nodes) && ObjectName(op, n) !in runs
    ensures RunsOf(op, runs[ObjectName(op, n) := NewRun(op, n)], nodes + {n})
  {
    var runs' := runs[ObjectName(op, n) := NewRun(op, n)];
    forall m | m in nodes + {n} ensures ObjectName(op, m) in runs' && RunOf(op, runs'[ObjectName(op, m)], m) {
      if m != n {
        assert m in nodes && ObjectName(op, m) in runs;
      }
    }
  }

  /** On distinct labels the nodes of a level have names of their own, different from those below. */
  lemma LevelNamesFree(op: Operator, levels: Levels, runs: Runs, i: nat)
    requires AtMostOnce(levels) && LabelsDistinct(op, levels) && i < |levels|
    requires RunsOf(op, runs, NodesBelow(levels, i))
    ensures FreeNames(op, runs, levels[i], 0)
  {
    var level := levels[i];
    forall j, m | 0 <= j < |level| && m in NodesBelow(levels, i) ensures ObjectName(op, level[j]) != ObjectName(op, m) {
      NodesBelowAre(levels, i, m);
      NotTwice(levels, i, m);
      assert level[j] in levels[i];
      NamesDiffer(op, levels, level[j], m);
    }
    forall a, b | 0 <= a < b < |level| ensures ObjectName(op, level[a]) != ObjectName(op, level[b]) {
      assert level[a] in levels[i] && level[b] in levels[i];
      assert levels[i][a] != levels[i][b];
      NamesDiffer(op, levels, level[a], level[b]);
    }
  }

  lemma NamesDiffer(op: Operator, levels: Levels, m: string, n: string)
    requires LabelsDistinct(op, levels) && InLevels(levels, m) && InLevels(levels, n) && m != n
    ensures ObjectName(op, m) != ObjectName(op, n)
  {
    if ObjectName(op, m) == ObjectName(op, n) {
      SuffixEqual(op.graphName, op.san(m), op.san(n));
    }
  }

  lemma NotTwice(levels: Levels, i: nat, n: string)
    requires AtMostOnce(levels) && i < |levels| && BelowLevel(levels, i, n)
    ensures InLevels(levels, n) && n !in levels[i]
  {
  }

  function Succeeding(runs: Runs): Runs {
    map name | name in runs :: runs[name].(phase := RunSucceeded)
  }

  lemma SucceedingRuns(op: Operator, runs: Runs, nodes: set<string>)
    requires RunsOf(op, runs, nodes)
    ensures RunsOf(op, Succeeding(runs), nodes) && AllSucceeded(Succeeding(runs)) && Succeeding(runs).Keys == runs.Keys
  {
  }

  // ---------------------------------------------------------------------------------------
  // One ideal pass of the system

  /** What the pass needs to know about the status and listing it works from. */
  ghost predicate AtLevel(op: Operator, status: GraphStatus, index: Index, levels: Levels, i: nat) {
    && Processes(status) && WellLayered(op, status) && status.levels == levels && i < |levels|
    && ListedThrough(op, index, levels, i)
  }

  lemma LevelAsked(op: Operator, status: GraphStatus, index: Index, levels: Levels, i: nat)
    requires AtLevel(op, status, index, levels, i) && CompleteSpec(op)
    ensures forall k :: 0 <= k < |levels[i]| ==> AsksAt(op, status, index, levels[i], k)
    ensures Attempts(op, status, Answers(index, Trues(|levels[i]|))) == levels[i]
  {
    forall k | 0 <= k < |levels[i]| ensures AsksAt(op, status, index, levels[i], k) {
      AskedSoFar(op, status, index, i, k);
    }
    AskedSoFar(op, status, index, i, |levels[i]|);
  }

  // ---------------------------------------------------------------------------------------
  // The execution

  function Zeros(k: nat): seq<int> {
    seq(k, _ => 0)
  }

  /**
   The runs after `i` ideal passes: those of the first levels, all succeeded; any listing shows them
   and nothing else.
   */
  ghost predicate Settling(op: Operator, runs: Runs, levels: Levels, i: nat) {
    i <= |levels| && RunsOf(op, runs, NodesBelow(levels, i)) && AllSucceeded(runs)
  }

  /** After the resolution and `i` ideal passes, told `answers`, the system is at rest. */
  ghost predicate Stage(op: Operator, run: seq<System>, levels: Levels, g: GraphStatus, i: nat, answers: seq<Answers>) {
    && Ready(STRICT, op, run) && Last(run).active == map[] && Last(run).newestList < |Last(run).runs|
    && |Last(run).graph| == 3 + i && |answers| == i && Last(run).graph[2] == g
        && Last(run).graph[2 + i].levels == levels
    && Ideal(op, Last(run).graph[2..], answers, Zeros(i))
    && Settling(op, Newest(Last(run)), levels, i)
    && (i > 0 ==> ShowsLast(op, Last(run).graph[2 + i - 1], answers[i - 1], Newest(Last(run))))
  }

  /** Every listing of these runs is the one an ideal execution continues with. */
  ghost predicate ShowsLast(op: Operator, status: GraphStatus, answers: Answers, runs: Runs) {
    forall items :: Lists(op, runs, items) ==> AllFinished(op, status, answers, IndexOf(items))
  }

  lemma IdealExtended(op: Operator, statuses: seq<GraphStatus>, answers: seq<Answers>, i: nat, a: Answers)
    requires |answers| == i && Ideal(op, statuses, answers, Zeros(i))
    requires AllGranted(op, statuses[i], a, i)
    requires if i == 0 then a.index == map[] else AllFinished(op, statuses[i - 1], answers[i - 1], a.index)
    ensures Ideal(op, statuses + [Processed(op, statuses[i], a, 0)], answers + [a], Zeros(i + 1))
  {
    var statuses', answers', nows' := statuses + [Processed(op, statuses[i], a, 0)], answers + [a], Zeros(i + 1);
    forall j | 0 <= j < i + 1 ensures AllGranted(op, statuses'[j], answers'[j], j)
        && Step(op, statuses'[j], answers'[j], nows'[j], statuses'[j + 1]) {
      if j < i {
        assert AllGranted(op, statuses[j], answers[j], j) && Step(op, statuses[j], answers[j], Zeros(i)[j],
            statuses[j + 1]);
      }
    }
    forall j | 0 < j < i + 1 ensures AllFinished(op, statuses'[j - 1], answers'[j - 1], answers'[j].index) {
      if j < i {
        assert AllFinished(op, statuses[j - 1], answers[j - 1], answers[j].index);
      }
    }
  }

  function LevelAt(levels: Levels, i: nat): seq<string> {
    if i < |levels| then levels[i] else []
  }

  lemma {:induction false} MissingShort(op: Operator, index: Index, level: seq<string>)
    ensures |Missing(op, index, level)| <= |level|
  {
    if level != [] {
      MissingShort(op, index, level[1..]);
    }
  }

  /** What the `i`-th pass meets when it is told `index` and granted everything. */
  lemma NextIdeal(op: Operator, levels: Levels, order: seq<string>, statuses: seq<GraphStatus>,
      answers: seq<Answers>, i: nat, index: Index)
    requires Sound(op, levels) && Enumerates(order, ExecutableNodes(op.spec.graph))
    requires i <= |levels| && |answers| == i && Ideal(op, statuses, answers, Zeros(i))
    requires statuses[0] == FirstResolved(op, levels, order) && statuses[i].levels == levels
    requires if i == 0 then index == map[] else AllFinished(op, statuses[i - 1], answers[i - 1], index)
    ensures var a := Answers(index, Trues(|LevelAt(levels, i)|));
            && Ideal(op, statuses + [Processed(op, statuses[i], a, 0)], answers + [a], Zeros(i + 1))
            && Attempts(op, statuses[i], a) == LevelAt(levels, i)
            && Processed(op, statuses[i], a, 0).levels == levels
    ensures Processes(statuses[i]) && forall k :: 0 <= k < |LevelAt(levels, i)| ==>
        AsksAt(op, statuses[i], index, LevelAt(levels, i), k)
  {
    var a := Answers(index, Trues(|LevelAt(levels, i)|));
    ResolvedIsReady(op, levels, order);
    MissingShort(op, index, LevelAt(levels, i));
    assert AllGranted(op, statuses[i], a, i);
    IdealExtended(op, statuses, answers, i, a);
    var statuses' := statuses + [Processed(op, statuses[i], a, 0)];
    IdealProgress(op, statuses', answers + [a], Zeros(i + 1), i);
    assert statuses'[i] == statuses[i] && (answers + [a])[i] == a;
    IdealPass(op, statuses[i], a, 0, i);
    if i < |levels| {
      LevelAsked(op, statuses[i], index, levels, i);
    }
  }

  /** A listing of the runs of the levels below continues the ideal execution. */
  lemma ListingContinues(op: Operator, run: seq<System>, levels: Levels, g: GraphStatus, i: nat,
      answers: seq<Answers>) returns (items: seq<ScenarioRun>)
    requires Stage(op, run, levels, g, i, answers)
    ensures Lists(op, Newest(Last(run)), items)
    ensures if i == 0 then IndexOf(items) == map[] else AllFinished(op, Last(run).graph[2..][i - 1], answers[i - 1],
        IndexOf(items))
  {
    var runs := Newest(Last(run));
    RunsOfLabelled(op, runs, NodesBelow(levels, i));
    items := ListingOf(op, runs);
    if i == 0 {
      assert forall name :: name !in runs;
      EmptyListing(op, runs, items);
    }
  }

  lemma EmptyListing(op: Operator, runs: Runs, items: seq<ScenarioRun>)
    requires Lists(op, runs, items)
    ensures (forall name :: name !in runs) ==> items == []
  {
    if items != [] {
      assert items[0] in items && items[0].name in runs;
    }
  }

  ghost predicate HasLabel(op: Operator, nodes: set<string>, key: string) {
    exists n :: n in nodes && op.san(n) == key
  }

  lemma LabelsAdded(op: Operator, nodes: set<string>, level: seq<string>, key: string)
    ensures HasLabel(op, nodes + Members(level), key) <==> HasLabel(op, nodes, key) || exists n ::
        n in level
        && op.san(n) == key
  {
    if n :| n in level && op.san(n) == key {
      assert n in nodes + Members(level);
    }
    if n :| n in nodes && op.san(n) == key {
      assert n in nodes + Members(level);
    }
  }

  /** A listing after the level's runs have been added and have succeeded, against one before. */
  lemma LevelShown(op: Operator, nodes: set<string>, status: GraphStatus, a: Answers, before: Runs,
      items: seq<ScenarioRun>, after: Runs, items': seq<ScenarioRun>)
    requires RunsOf(op, before, nodes) && Lists(op, before, items) && a.index == IndexOf(items)
    requires RunsOf(op, after, nodes + Members(Attempts(op, status, a))) && AllSucceeded(after)
        && Lists(op, after, items')
    requires forall n :: n in nodes + Members(Attempts(op, status, a)) ==> op.san(n) != ""
    ensures AllFinished(op, status, a, IndexOf(items'))
  {
    var level := Attempts(op, status, a);
    forall key
      ensures key in IndexOf(items') <==> key in a.index || exists n :: n in level && op.san(n) == key
      ensures key in IndexOf(items') ==> IndexOf(items')[key].phase == RunSucceeded
    {
      IndexKeys(op, before, nodes, items, key);
      IndexKeys(op, after, nodes + Members(level), items', key);
      LabelsAdded(op, nodes, level, key);
    }
  }

  /** The runs after pass `i` and their success. */
  lemma LevelSettles(op: Operator, levels: Levels, i: nat, runs: Runs)
    requires AtMostOnce(levels) && LabelsDistinct(op, levels) && i < |levels| && RunsOf(op, runs, NodesBelow(levels, i))
    ensures FreeNames(op, runs, levels[i], 0)
    ensures var after := Succeeding(Added(op, runs, levels[i], 0));
            && RunsOf(op, after, NodesBelow(levels, i) + Members(levels[i])) && AllSucceeded(after)
            && after.Keys == Added(op, runs, levels[i], 0).Keys
  {
    LevelNamesFree(op, levels, runs, i);
    AddedRuns(op, runs, NodesBelow(levels, i), levels[i], 0);
    assert levels[i][0..] == levels[i];
    SucceedingRuns(op, Added(op, runs, levels[i], 0), NodesBelow(levels, i) + Members(levels[i]));
  }

  lemma NodesHaveLabels(op: Operator, levels: Levels, i: nat)
    requires Sound(op, levels) && i <= |levels|
    ensures forall n :: n in NodesBelow(levels, i) ==> op.san(n) != ""
  {
    SoundLabels(op, levels);
    forall n | n in NodesBelow(levels, i) ensures op.san(n) != "" {
      NodesBelowAre(levels, i, n);
      assert InLevels(levels, n);
    }
  }

  /** The inputs of the `i`-th pass. */
  function RoundInputs(order: seq<string>, index: Index, level: seq<string>): PassInputs {
    PassInputs(0, None, order, Answers(index, Trues(|level|)), true)
  }

  /** What the next pass lists, asks for and stores. */
  ghost predicate Plan(op: Operator, s: System, order: seq<string>, level: seq<string>, items: seq<ScenarioRun>,
      next: GraphStatus)
    requires Enumerates(order, ExecutableNodes(op.spec.graph)) && s.graph != [] && s.runs != []
  {
    var status := s.graph[|s.graph| - 1];
    var inputs := RoundInputs(order, IndexOf(items), level);
    && Lists(op, s.runs[|s.runs| - 1], items) && FreeNames(op, Newest(s), level, 0)
    && (forall j :: 0 <= j < |level| ==> AsksAt(op, status, IndexOf(items), level, j))
    && Attempts(op, status, inputs.answers) == level && Submitted(op, status, inputs) == [next]
  }

  lemma Planned(op: Operator, run: seq<System>, levels: Levels, order: seq<string>, i: nat, answers: seq<Answers>)
    returns (items: seq<ScenarioRun>, a: Answers, next: GraphStatus)
    requires Sound(op, levels) && Enumerates(order, ExecutableNodes(op.spec.graph)) && i <= |levels|
    requires Stage(op, run, levels, FirstResolved(op, levels, order), i, answers)
    ensures a == Answers(IndexOf(items), Trues(|LevelAt(levels, i)|)) && next.levels == levels
    ensures Plan(op, Last(run), order, LevelAt(levels, i), items, next)
    ensures Ideal(op, Last(run).graph[2..] + [next], answers + [a], Zeros(i + 1))
  {
    var graph := Last(run).graph;
    var level := LevelAt(levels, i);
    items := ListingContinues(op, run, levels, FirstResolved(op, levels, order), i, answers);
    a := Answers(IndexOf(items), Trues(|level|));
    next := Processed(op, graph[2 + i], a, 0);
    assert graph[2..][i] == graph[2 + i] && graph[|graph| - 1] == graph[2 + i];
    NextIdeal(op, levels, order, graph[2..], answers, i, IndexOf(items));
    RoundNames(op, levels, i, Newest(Last(run)));
    RoundSubmits(op, graph[2 + i], order, IndexOf(items), level);
  }

  lemma PlanCarriedOut(op: Operator, run: seq<System>, order: seq<string>, level: seq<string>,
      items: seq<ScenarioRun>, next: GraphStatus)
    returns (run': seq<System>)
    requires Ready(STRICT, op, run) && Last(run).active == map[] && Last(run).newestList < |Last(run).runs|
    requires Enumerates(order, ExecutableNodes(op.spec.graph)) && Plan(op, Last(run), order, level, items, next)
    ensures Ready(STRICT, op, run') && Last(run').active == map[] && Last(run').newestList < |Last(run').runs|
    ensures Last(run').graph == Last(run).graph + [next] && Newest(Last(run')) == Added(op, Newest(Last(run)), level, 0)
  {
    run' := PassAdds(STRICT, op, run, |Last(run).runs| - 1, items, level, RoundInputs(order, IndexOf(items), level));
  }

  lemma RoundSubmits(op: Operator, status: GraphStatus, order: seq<string>, index: Index, level: seq<string>)
    requires Processes(status) && Enumerates(order, ExecutableNodes(op.spec.graph))
    ensures Submitted(op, status, RoundInputs(order, index, level)) ==
        [Processed(op, status, Answers(index, Trues(|level|)), 0)]
  {
  }

  lemma TailAppended(graph: seq<GraphStatus>, next: GraphStatus)
    requires |graph| >= 2
    ensures (graph + [next])[2..] == graph[2..] + [next]
  {
  }

  lemma RoundNames(op: Operator, levels: Levels, i: nat, runs: Runs)
    requires Sound(op, levels) && Settling(op, runs, levels, i)
    ensures FreeNames(op, runs, LevelAt(levels, i), 0)
  {
    SoundLabels(op, levels);
    if i < |levels| {
      LevelNamesFree(op, levels, runs, i);
    }
  }

  /** The runs once the pass has created its level and the level has succeeded. */
  lemma NextRuns(op: Operator, levels: Levels, i: nat, before: Runs, items: seq<ScenarioRun>, status: GraphStatus,
      a: Answers) returns (after: Runs)
    requires Sound(op, levels) && i < |levels| && RunsOf(op, before, NodesBelow(levels, i))
    requires Lists(op, before, items) && a.index == IndexOf(items) && Attempts(op, status, a) == levels[i]
    ensures Settling(op, after, levels, i + 1) && ShowsLast(op, status, a, after) && Labelled(op, after)
    ensures var added := Added(op, before, levels[i], 0);
            after.Keys == added.Keys && forall name :: name in after ==> Ours(op, added[name])
  {
    SoundLabels(op, levels);
    LevelSettles(op, levels, i, before);
    after := Succeeding(Added(op, before, levels[i], 0));
    NodesHaveLabels(op, levels, i + 1);
    forall shown | Lists(op, after, shown) ensures AllFinished(op, status, a, IndexOf(shown)) {
      LevelShown(op, NodesBelow(levels, i), status, a, before, items, after, shown);
    }
    AddedOurs(op, before, levels, i);
    RunsOfLabelled(op, after, NodesBelow(levels, i + 1));
  }

  /** The pass and the success of what it created. */
  lemma NextStage(op: Operator, run: seq<System>, levels: Levels, order: seq<string>, i: nat, answers: seq<Answers>)
    returns (run': seq<System>, answers': seq<Answers>)
    requires Sound(op, levels) && Enumerates(order, ExecutableNodes(op.spec.graph)) && i < |levels|
    requires Stage(op, run, levels, FirstResolved(op, levels, order), i, answers)
    ensures Stage(op, run', levels, FirstResolved(op, levels, order), i + 1, answers')
  {
    var items, a, next := Planned(op, run, levels, order, i, answers);
    var passed := PlanCarriedOut(op, run, order, levels[i], items, next);
    answers' := answers + [a];
    var after := NextRuns(op, levels, i, Newest(Last(run)), items, Last(run).graph[2 + i], a);
    run' := RunsMove(STRICT, op, passed, after);
    StageAfter(op, Last(run).graph, run', levels, i, answers, a, next);
  }

  /** What makes the next stage. */
  lemma StageAfter(op: Operator, graph: seq<GraphStatus>, run: seq<System>, levels: Levels, i: nat,
      answers: seq<Answers>, a: Answers, next: GraphStatus)
    requires Ready(STRICT, op, run) && Last(run).active == map[] && Last(run).newestList < |Last(run).runs|
    requires |graph| == 3 + i && |answers| == i && Last(run).graph == graph + [next] && next.levels == levels
    requires Ideal(op, graph[2..] + [next], answers + [a], Zeros(i + 1))
    requires Settling(op, Newest(Last(run)), levels, i + 1) && ShowsLast(op, graph[2 + i], a, Newest(Last(run)))
    ensures Stage(op, run, levels, graph[2], i + 1, answers + [a])
  {
    TailAppended(graph, next);
  }

  lemma AddedOurs(op: Operator, before: Runs, levels: Levels, i: nat)
    requires AtMostOnce(levels) && LabelsDistinct(op, levels) && i < |levels|
        && RunsOf(op, before, NodesBelow(levels, i))
    ensures forall name :: name in Added(op, before, levels[i], 0) ==> Ours(op, Added(op, before, levels[i], 0)[name])
  {
    LevelNamesFree(op, levels, before, i);
    AddedRuns(op, before, NodesBelow(levels, i), levels[i], 0);
    RunsOfLabelled(op, Added(op, before, levels[i], 0), NodesBelow(levels, i) + Members(levels[i][0..]));
  }

  /** Initialised and resolved. */
  lemma Resolution(op: Operator, levels: Levels, order: seq<string>) returns (run: seq<System>)
    requires Sound(op, levels) && Enumerates(order, ExecutableNodes(op.spec.graph))
    ensures Stage(op, run, levels, FirstResolved(op, levels, order), 0, [])
  {
    run := [System([NewGraph()], [map[]], map[], [], 0)];
    var inputs := PassInputs(0, Some(levels), order, Answers(IndexOf([]), []), true);
    run := PassWrites(STRICT, op, run, 0, [], inputs);
    run := PassWrites(STRICT, op, run, 0, [], inputs);
  }

  lemma {:induction false} StageReached(op: Operator, levels: Levels, order: seq<string>, i: nat)
    returns (run: seq<System>, answers: seq<Answers>)
    requires Sound(op, levels) && Enumerates(order, ExecutableNodes(op.spec.graph)) && i <= |levels|
    ensures Stage(op, run, levels, FirstResolved(op, levels, order), i, answers)
  {
    if i == 0 {
      run := Resolution(op, levels, order);
      answers := [];
    } else {
      run, answers := StageReached(op, levels, order, i - 1);
      run, answers := NextStage(op, run, levels, order, i - 1, answers);
    }
  }

  /**
   Every admitted graph with a full layering and complete specifications has an execution, strictly
   disciplined, that stores the resolution, L Running statuses, one per level, and then Completed.
   */
  lemma SoundGraphCompletes(op: Operator, levels: Levels, order: seq<string>)
    returns (run: seq<System>, answers: seq<Answers>)
    requires Sound(op, levels) && Enumerates(order, ExecutableNodes(op.spec.graph))
    ensures Execution(op, run) && Obeys(STRICT, op, run)
    ensures var graph := Last(run).graph; var l := |levels|;
            && |graph| == l + 4 && graph[2] == FirstResolved(op, levels, order)
            && Ideal(op, graph[2..], answers, Zeros(l + 1))
            && (forall v :: 3 <= v < l + 3 ==> graph[v].phase == Running)
            && graph[l + 3].phase == Completed
  {
    run, answers := StageReached(op, levels, order, |levels|);
    var items, a, next := Planned(op, run, levels, order, |levels|, answers);
    TailAppended(Last(run).graph, next);
    run := PlanCarriedOut(op, run, order, [], items, next);
    answers := answers + [a];
    ResolvedIsReady(op, levels, order);
    var statuses := Last(run).graph[2..];
    ProgressBound(op, statuses, answers, Zeros(|levels| + 1));
    assert forall v :: 2 <= v < |levels| + 4 ==> Last(run).graph[v] == statuses[v - 2];
  }

  /** So a graph that validation admits can complete as soon as it can be layered and its nodes can be created. */
  lemma RootedGraphCompletes(op: Operator) returns (run: seq<System>)
    requires Admissible(op.san, op.spec.graph) && CompleteSpec(op)
    requires (exists n :: IsNode(op.spec.graph, n)) && forall n :: IsNode(op.spec.graph, n) ==>
        GraphLayering.Rooted(op.spec.graph, n)
    ensures Execution(op, run) && Obeys(STRICT, op, run)
    ensures var graph := Last(run).graph; graph != [] && graph[|graph| - 1].phase == Completed
  {
    var levels := GraphLayering.RootedLayers(op.spec.graph);
    var n :| IsNode(op.spec.graph, n);
    assert n in ExecutableNodes(op.spec.graph);
    var answers;
    run, answers := SoundGraphCompletes(op, levels, EnumerationOf(ExecutableNodes(op.spec.graph)));
  }
}
