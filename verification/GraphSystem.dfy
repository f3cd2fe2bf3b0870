/**
 Whole executions of a graph run. The API server keeps every stored status of the graph run and
 every state of the scenario runs; any number of passes are in flight, each working from some
 stored status and some earlier listing, while scenario runs change phase, are deleted or are
 created by others. Creates are atomic and refused for an existing name; status writes are
 compare-and-set; a pass may be lost at any point, and so may the answer to a create.
 */
module GraphSystem {
  import opened Common
  import opened GraphTypes
  import opened GraphPass
  import opened GraphFrontier

  type Runs = map<string, ScenarioRun>

  /** A pass that has fetched status version `readAt`, listed `items` at `listAt` and received `outcomes`. */
  datatype InFlight = InFlight(readAt: nat, listAt: nat, items: seq<ScenarioRun>, outcomes: seq<bool>)

  /** A scenario run stored for `node` as state number `at`, by a pass working from `readAt` and `listAt`. */
  datatype Creation = Creation(node: string, readAt: nat, listAt: nat, at: nat)

  datatype System = System(
    graph: seq<GraphStatus>,
    runs: seq<Runs>,
    active: map<nat, InFlight>,
    log: seq<Creation>,
    newestList: nat)

  ghost predicate Ours(op: Operator, run: ScenarioRun) {
    run.graphLabel == op.graphName
  }

  /** Objects are stored under their own name, and this graph run's label is put only on the runs it creates. */
  ghost predicate Labelled(op: Operator, runs: Runs) {
    forall name :: name in runs ==>
      && runs[name].name == name
      && (Ours(op, runs[name]) ==> name == op.graphName + "-" + runs[name].nodeLabel)
  }

  /** `items` is a listing, in any order, of the runs that carry this graph run's label. */
  ghost predicate Lists(op: Operator, runs: Runs, items: seq<ScenarioRun>) {
    && (forall r :: r in items ==> r.name in runs && runs[r.name] == r && Ours(op, r))
    && (forall name :: name in runs && Ours(op, runs[name]) ==> runs[name] in items)
  }

  /** The node's own run exists. */
  ghost predicate HasRun(op: Operator, runs: Runs, n: string) {
    ObjectName(op, n) in runs && Ours(op, runs[ObjectName(op, n)])
  }

  ghost predicate RunSucceededIn(op: Operator, runs: Runs, n: string) {
    HasRun(op, runs, n) && runs[ObjectName(op, n)].phase == RunSucceeded
  }

  function AnswersOf(f: InFlight): Answers {
    Answers(IndexOf(f.items), f.outcomes)
  }

  ghost function AttemptsOf(op: Operator, s: System, f: InFlight): seq<string>
    requires f.readAt < |s.graph|
  {
    Attempts(op, s.graph[f.readAt], AnswersOf(f))
  }

  ghost function Newest(s: System): Runs
    requires s.runs != []
  {
    s.runs[|s.runs| - 1]
  }

  ghost predicate Init(op: Operator, s: System) {
    && |s.graph| == 1 && s.graph[0].phase == Unset && s.graph[0].nodes == [] && s.graph[0].levels == []
    && |s.runs| == 1 && Labelled(op, s.runs[0])
    && (forall name :: name in s.runs[0] ==> !Ours(op, s.runs[0][name]))
    && s.active == map[] && s.log == [] && s.newestList == 0
  }

  ghost predicate Begin(op: Operator, s: System, s': System, pass: nat, f: InFlight) {
    && s.runs != []
    && pass !in s.active
    && f.readAt < |s.graph| && f.listAt < |s.runs| && f.outcomes == []
    && Lists(op, s.runs[f.listAt], f.items)
    && s' == s.(active := s.active[pass := f], newestList := if f.listAt > s.newestList then f.listAt else s.newestList)
  }

  /** The next create request of a pass. `stored`: the server stored the object; `answer`: the pass is told so. */
  ghost predicate Create(op: Operator, s: System, s': System, pass: nat, stored: bool, answer: bool) {
    && s.runs != []
    && pass in s.active
    && var f := s.active[pass];
       && f.readAt < |s.graph|
       && |f.outcomes| < |AttemptsOf(op, s, f)|
       && var n := AttemptsOf(op, s, f)[|f.outcomes|];
          && (stored ==> ObjectName(op, n) !in Newest(s))
          && (answer ==> stored)
          && s' == System(
               s.graph,
               if stored then s.runs + [Newest(s)[ObjectName(op, n) := NewRun(op, n)]] else s.runs,
               s.active[pass := f.(outcomes := f.outcomes + [answer])],
               if stored then s.log + [Creation(n, f.readAt, f.listAt, |s.runs|)] else s.log,
               s.newestList)
  }

  /** The pass submits a status; it is stored only on top of the version the pass fetched. */
  ghost predicate Write(op: Operator, s: System, s': System, pass: nat, inputs: PassInputs, i: nat) {
    && pass in s.active
    && var f := s.active[pass];
       && f.readAt < |s.graph|
       && |AttemptsOf(op, s, f)| <= |f.outcomes|
       && Enumerates(inputs.order, ExecutableNodes(op.spec.graph))
       && inputs.answers == AnswersOf(f)
       && var submitted := Submitted(op, s.graph[f.readAt], inputs);
          && i < |submitted|
          && s' == s.(active := s.active - {pass},
                      graph := if f.readAt + 1 == |s.graph| then s.graph + [submitted[i]] else s.graph)
  }

  ghost predicate Lose(s: System, s': System, pass: nat) {
    s' == s.(active := s.active - {pass})
  }

  /** Anything else that happens to scenario runs: phases move, objects are deleted, others create theirs. */
  ghost predicate Environment(op: Operator, s: System, s': System, runs: Runs) {
    && s.runs != []
    && Labelled(op, runs)
    && (forall name :: name in runs && Ours(op, runs[name]) ==> name in Newest(s) && Ours(op, Newest(s)[name]))
    && s' == s.(runs := s.runs + [runs])
  }

  /** A metadata update (finalizer, label) makes a new version with the same status. */
  ghost predicate Touch(s: System, s': System) {
    s.graph != [] && s' == s.(graph := s.graph + [s.graph[|s.graph| - 1]])
  }

  ghost predicate Next(op: Operator, s: System, s': System) {
    || (exists pass, f :: Begin(op, s, s', pass, f))
    || (exists pass, stored, answer :: Create(op, s, s', pass, stored, answer))
    || (exists pass, inputs, i :: Write(op, s, s', pass, inputs, i))
    || (exists pass :: Lose(s, s', pass))
    || (exists runs :: Environment(op, s, s', runs))
    || Touch(s, s')
  }

  ghost predicate Execution(op: Operator, run: seq<System>) {
    && run != []
    && Init(op, run[0])
    && forall i :: 0 <= i < |run| - 1 ==> Next(op, run[i], run[i + 1])
  }

  // ---------------------------------------------------------------------------------------
  // The index of a listing

  lemma {:induction false} IndexOfSound(items: seq<ScenarioRun>, key: string)
    ensures key in IndexOf(items) ==> IndexOf(items)[key] in items && IndexOf(items)[key].nodeLabel == key
    ensures key != "" && (exists r :: r in items && r.nodeLabel == key) ==> key in IndexOf(items)
  {
    if items != [] {
      var front := items[..|items| - 1];
      assert items == front + [items[|items| - 1]];
      IndexOfSound(front, key);
    }
  }

  lemma SuffixEqual(graphName: string, a: string, b: string)
    requires graphName + "-" + a == graphName + "-" + b
    ensures a == b
  {
    assert (graphName + "-" + a)[|graphName| + 1..] == a;
    assert (graphName + "-" + b)[|graphName| + 1..] == b;
  }

  /** Looking a node up by its sanitised ID yields the node's own run, exactly when that run exists. */
  lemma IndexReturnsOwnRun(op: Operator, runs: Runs, items: seq<ScenarioRun>, n: string)
    requires Labelled(op, runs) && Lists(op, runs, items)
    ensures op.san(n) in IndexOf(items) ==> HasRun(op, runs, n) && IndexOf(items)[op.san(n)] == runs[ObjectName(op, n)]
    ensures op.san(n) != "" ==> (op.san(n) in IndexOf(items) <==> HasRun(op, runs, n))
  {
    IndexOfSound(items, op.san(n));
    if HasRun(op, runs, n) {
      var own := runs[ObjectName(op, n)];
      SuffixEqual(op.graphName, own.nodeLabel, op.san(n));
      assert own in items;
    }
  }

  // ---------------------------------------------------------------------------------------
  // What every reachable state satisfies

  /** Every earlier level is entirely succeeded in this state of the runs. */
  ghost predicate EarlierLevelsDone(op: Operator, runs: Runs, levels: Levels, k: nat) {
    forall j, m :: 0 <= j < k && j < |levels| && m in levels[j] ==> RunSucceededIn(op, runs, m)
  }

  /** The record of a creation is right, and the pass had seen every earlier level succeed. */
  ghost predicate Justified(op: Operator, s: System, c: Creation) {
    && c.readAt < |s.graph| && Processes(s.graph[c.readAt])
    && c.listAt < c.at < |s.runs|
    && Creatable(op.spec, c.node)
    && ObjectName(op, c.node) !in s.runs[c.at - 1]
    && HasRun(op, s.runs[c.at], c.node)
    && exists k :: 0 <= k < |s.graph[c.readAt].levels| && c.node in s.graph[c.readAt].levels[k]
                   && EarlierLevelsDone(op, s.runs[c.listAt], s.graph[c.readAt].levels, k)
  }

  ghost predicate Recorded(op: Operator, log: seq<Creation>, i: nat, name: string) {
    exists e :: 0 <= e < |log| && ObjectName(op, log[e].node) == name && log[e].at <= i
  }

  ghost predicate ActiveOk(op: Operator, s: System, f: InFlight) {
    f.readAt < |s.graph| && f.listAt < |s.runs| && Lists(op, s.runs[f.listAt], f.items)
  }

  /** Every run of ours in this state was created, and not later. */
  ghost predicate AllRecorded(op: Operator, log: seq<Creation>, i: nat, runs: Runs) {
    forall name :: name in runs && Ours(op, runs[name]) ==> Recorded(op, log, i, name)
  }

  ghost predicate Log(op: Operator, s: System) {
    && (forall e :: 0 <= e < |s.log| ==> Justified(op, s, s.log[e]))
    && (forall d, e :: 0 <= d < e < |s.log| ==> s.log[d].at < s.log[e].at)
  }

  ghost predicate States(op: Operator, s: System) {
    forall i :: 0 <= i < |s.runs| ==> Labelled(op, s.runs[i]) && AllRecorded(op, s.log, i, s.runs[i])
  }

  ghost predicate Inv(op: Operator, s: System) {
    && s.graph != [] && s.runs != []
    && (forall pass :: pass in s.active ==> ActiveOk(op, s, s.active[pass]))
    && States(op, s)
    && Log(op, s)
  }

  /** Histories only grow. */
  ghost predicate Extends(s: System, s': System) {
    s.graph <= s'.graph && s.runs <= s'.runs && s.log <= s'.log
  }

  lemma NextExtends(op: Operator, s: System, s': System)
    requires Next(op, s, s')
    ensures Extends(s, s')
  {
  }

  lemma JustifiedExtends(op: Operator, s: System, s': System, c: Creation)
    requires Justified(op, s, c) && Extends(s, s')
    ensures Justified(op, s', c)
  {
    assert s'.graph[c.readAt] == s.graph[c.readAt];
    assert s'.runs[c.listAt] == s.runs[c.listAt];
    assert s'.runs[c.at] == s.runs[c.at];
    assert s'.runs[c.at - 1] == s.runs[c.at - 1];
  }

  /** A create request is justified by the listing its pass worked from. */
  lemma RequestJustified(op: Operator, s: System, f: InFlight, n: string) returns (k: nat)
    requires Inv(op, s) && ActiveOk(op, s, f) && n in AttemptsOf(op, s, f)
    ensures k < |s.graph[f.readAt].levels| && n in s.graph[f.readAt].levels[k]
    ensures EarlierLevelsDone(op, s.runs[f.listAt], s.graph[f.readAt].levels, k)
    ensures Creatable(op.spec, n) && Processes(s.graph[f.readAt])
  {
    var levels := s.graph[f.readAt].levels;
    k := AskedOnlyAfterEarlierLevels(op, s.graph[f.readAt], AnswersOf(f), n);
    AskedOnlyCreatable(op, AnswersOf(f), Start(s.graph[f.readAt]), levels, 0, n);
    forall j, m | 0 <= j < k && m in levels[j] ensures RunSucceededIn(op, s.runs[f.listAt], m) {
      assert LevelSucceeded(op, IndexOf(f.items), levels[j]);
      assert Succeeded(op, IndexOf(f.items), m);
      IndexReturnsOwnRun(op, s.runs[f.listAt], f.items, m);
    }
  }

  lemma {:induction false} LevelAsksCreatable(op: Operator, answers: Answers, m: Memory, level: seq<string>, n: string)
    ensures n in VisitAll(op, answers, m, level).attempts ==> n in m.attempts || Creatable(op.spec, n)
    decreases |level|
  {
    if level != [] && !m.failed {
      LevelAsksCreatable(op, answers, Visit(op, answers, m, level[0]), level[1..], n);
    }
  }

  lemma {:induction false} AskedOnlyCreatable(op: Operator, answers: Answers, m: Memory, levels: Levels, k: nat,
      n: string)
    requires k <= |levels|
    ensures n in Walk(op, answers, m, levels, k).0.attempts ==> n in m.attempts || Creatable(op.spec, n)
    decreases |levels| - k
  {
    if k < |levels| {
      LevelAsksCreatable(op, answers, m, levels[k], n);
      if !VisitAll(op, answers, m, levels[k]).failed {
        AskedOnlyCreatable(op, answers, VisitAll(op, answers, m, levels[k]), levels, k + 1, n);
      }
    }
  }

  lemma RecordedGrows(op: Operator, log: seq<Creation>, log': seq<Creation>, i: nat, i': nat, runs: Runs)
    requires AllRecorded(op, log, i, runs) && log <= log' && i <= i'
    ensures AllRecorded(op, log', i', runs)
  {
    forall name | name in runs && Ours(op, runs[name]) ensures Recorded(op, log', i', name) {
      assert Recorded(op, log, i, name);
      var e :| 0 <= e < |log| && ObjectName(op, log[e].node) == name && log[e].at <= i;
      assert log'[e] == log[e];
    }
  }

  /** Old states and old records stay right when histories grow. */
  lemma ExtensionKeepsOld(op: Operator, s: System, s': System)
    requires Inv(op, s) && Extends(s, s')
    ensures forall e :: 0 <= e < |s.log| ==> Justified(op, s', s'.log[e])
    ensures forall i :: 0 <= i < |s.runs| ==> Labelled(op, s'.runs[i]) && AllRecorded(op, s'.log, i, s'.runs[i])
    ensures forall f :: ActiveOk(op, s, f) ==> ActiveOk(op, s', f)
  {
    forall e | 0 <= e < |s.log| ensures Justified(op, s', s'.log[e]) {
      JustifiedExtends(op, s, s', s.log[e]);
    }
    forall i | 0 <= i < |s.runs| ensures Labelled(op, s'.runs[i]) && AllRecorded(op, s'.log, i, s'.runs[i]) {
      assert s'.runs[i] == s.runs[i];
      RecordedGrows(op, s.log, s'.log, i, i, s.runs[i]);
    }
  }

  lemma StoredCreationJustified(op: Operator, s: System, s': System, pass: nat, answer: bool)
    requires Inv(op, s) && Create(op, s, s', pass, true, answer)
    ensures Justified(op, s', s'.log[|s.log|]) && s'.log[|s.log|].at == |s.runs|
  {
    var f := s.active[pass];
    var n := AttemptsOf(op, s, f)[|f.outcomes|];
    var k := RequestJustified(op, s, f, n);
    var c := s'.log[|s.log|];
    assert s'.runs[c.listAt] == s.runs[f.listAt];
    assert s'.runs[c.at - 1] == Newest(s);
    assert HasRun(op, s'.runs[c.at], n);
  }

  /** The state after a stored create, given the one before it and the new record. */
  lemma CreatedStateOk(op: Operator, log: seq<Creation>, added: Creation, i: nat, runs: Runs)
    requires Labelled(op, runs) && AllRecorded(op, log, i, runs) && added.at == i + 1
    ensures var runs' := runs[ObjectName(op, added.node) := NewRun(op, added.node)];
            Labelled(op, runs') && AllRecorded(op, log + [added], i + 1, runs')
  {
    var log' := log + [added];
    assert log'[|log|] == added;
    assert Recorded(op, log', i + 1, ObjectName(op, added.node));
    RecordedGrows(op, log, log', i, i + 1, runs);
  }

  lemma StatesAppended(op: Operator, s: System, s': System)
    requires |s'.runs| == |s.runs| + 1
    requires forall i :: 0 <= i < |s.runs| ==> Labelled(op, s'.runs[i]) && AllRecorded(op, s'.log, i, s'.runs[i])
    requires Labelled(op, s'.runs[|s.runs|]) && AllRecorded(op, s'.log, |s.runs|, s'.runs[|s.runs|])
    ensures States(op, s')
  {
  }

  lemma CreateAppends(op: Operator, s: System, s': System, pass: nat, answer: bool)
    requires Create(op, s, s', pass, true, answer)
    ensures |s'.log| == |s.log| + 1 && s'.log == s.log + [s'.log[|s.log|]] && s'.log[|s.log|].at == |s.runs|
    ensures s'.runs == s.runs + [Newest(s)[ObjectName(op, s'.log[|s.log|].node) := NewRun(op, s'.log[|s.log|].node)]]
  {
  }

  lemma CreateKeepsStates(op: Operator, s: System, s': System, pass: nat, answer: bool)
    requires Inv(op, s) && Create(op, s, s', pass, true, answer)
    ensures States(op, s')
  {
    var last := |s.runs| - 1;
    CreateAppends(op, s, s', pass, answer);
    ExtensionKeepsOld(op, s, s');
    StateIn(op, s, last);
    CreatedStateOk(op, s.log, s'.log[|s.log|], last, s.runs[last]);
    StatesAppended(op, s, s');
  }

  lemma StateIn(op: Operator, s: System, i: nat)
    requires States(op, s) && i < |s.runs|
    ensures Labelled(op, s.runs[i]) && AllRecorded(op, s.log, i, s.runs[i])
  {
  }

  lemma CreateKeepsOrder(op: Operator, s: System, s': System, pass: nat, answer: bool)
    requires Inv(op, s) && Create(op, s, s', pass, true, answer)
    ensures forall d, e :: 0 <= d < e < |s'.log| ==> s'.log[d].at < s'.log[e].at
  {
    var added := s'.log[|s.log|];
    assert s'.log == s.log + [added] && added.at == |s.runs|;
    forall d | 0 <= d < |s.log| ensures s.log[d].at < |s.runs| {
      assert Justified(op, s, s.log[d]);
    }
    AppendKeepsOrder(s.log, added);
  }

  lemma AppendKeepsOrder(log: seq<Creation>, added: Creation)
    requires forall d, e :: 0 <= d < e < |log| ==> log[d].at < log[e].at
    requires forall d :: 0 <= d < |log| ==> log[d].at < added.at
    ensures forall d, e :: 0 <= d < e < |log + [added]| ==> (log + [added])[d].at < (log + [added])[e].at
  {
  }

  lemma CreateKeepsLog(op: Operator, s: System, s': System, pass: nat, answer: bool)
    requires Inv(op, s) && Create(op, s, s', pass, true, answer)
    ensures Log(op, s')
  {
    CreateKeepsOrder(op, s, s', pass, answer);
    StoredCreationJustified(op, s, s', pass, answer);
    NextExtends(op, s, s');
    forall e | 0 <= e < |s'.log| ensures Justified(op, s', s'.log[e]) {
      if e < |s.log| {
        JustifiedExtends(op, s, s', s.log[e]);
      }
    }
  }

  lemma CreateKeepsActive(op: Operator, s: System, s': System, pass: nat, stored: bool, answer: bool)
    requires Inv(op, s) && Create(op, s, s', pass, stored, answer)
    ensures forall p :: p in s'.active ==> ActiveOk(op, s', s'.active[p])
  {
    forall p | p in s'.active ensures ActiveOk(op, s', s'.active[p]) {
      assert ActiveOk(op, s, s.active[p]);
    }
  }

  lemma CreateKeepsInv(op: Operator, s: System, s': System, pass: nat, stored: bool, answer: bool)
    requires Inv(op, s) && Create(op, s, s', pass, stored, answer)
    ensures Inv(op, s')
  {
    CreateKeepsActive(op, s, s', pass, stored, answer);
    if stored {
      CreateKeepsLog(op, s, s', pass, answer);
      CreateKeepsStates(op, s, s', pass, answer);
    } else {
      ExtensionKeepsOld(op, s, s');
    }
  }

  /** A step that leaves runs and creations alone. */
  lemma QuietKeepsInv(op: Operator, s: System, s': System)
    requires Inv(op, s) && Extends(s, s') && s'.runs == s.runs && s'.log == s.log
    requires forall p :: p in s'.active ==> ActiveOk(op, s, s'.active[p])
    ensures Inv(op, s')
  {
    ExtensionKeepsOld(op, s, s');
  }

  lemma EnvironmentKeepsInv(op: Operator, s: System, s': System, runs: Runs)
    requires Inv(op, s) && Environment(op, s, s', runs)
    ensures Inv(op, s')
  {
    ExtensionKeepsOld(op, s, s');
    var last := |s.runs|;
    RecordedGrows(op, s.log, s.log, last - 1, last, Newest(s));
    assert AllRecorded(op, s'.log, last, s'.runs[last]);
  }

  lemma StepKeepsInv(op: Operator, s: System, s': System)
    requires Inv(op, s) && Next(op, s, s')
    ensures Inv(op, s')
  {
    NextExtends(op, s, s');
    if pass, stored, answer :| Create(op, s, s', pass, stored, answer) {
      CreateKeepsInv(op, s, s', pass, stored, answer);
    } else if runs :| Environment(op, s, s', runs) {
      EnvironmentKeepsInv(op, s, s', runs);
    } else {
      OtherStepsQuiet(op, s, s');
      QuietKeepsInv(op, s, s');
    }
  }

  lemma OtherStepsQuiet(op: Operator, s: System, s': System)
    requires Inv(op, s) && Next(op, s, s')
    requires !exists pass, stored, answer :: Create(op, s, s', pass, stored, answer)
    requires !exists runs :: Environment(op, s, s', runs)
    ensures s'.runs == s.runs && s'.log == s.log
    ensures forall p :: p in s'.active ==> ActiveOk(op, s, s'.active[p])
  {
  }

  lemma ExecutionPrefix(op: Operator, run: seq<System>)
    requires Execution(op, run) && |run| > 1
    ensures Execution(op, run[..|run| - 1]) && Next(op, run[|run| - 2], run[|run| - 1])
  {
    var before := run[..|run| - 1];
    forall i | 0 <= i < |before| - 1 ensures Next(op, before[i], before[i + 1]) {
      assert Next(op, run[i], run[i + 1]);
    }
  }

  lemma {:induction false} Reachable(op: Operator, run: seq<System>)
    requires Execution(op, run)
    ensures Inv(op, run[|run| - 1])
  {
    if |run| > 1 {
      ExecutionPrefix(op, run);
      Reachable(op, run[..|run| - 1]);
      StepKeepsInv(op, run[|run| - 2], run[|run| - 1]);
    }
  }
}
