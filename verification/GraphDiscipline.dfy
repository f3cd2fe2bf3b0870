/**
 Exactly which disciplines guarantee the fail-fast closure. Each of the three liberties a pass can
 take is enough to break it: a complete execution, on a two-node graph whose layering and success are
 flawless, ends with a blocked node that has a scenario run.
 */
module GraphDiscipline {
  import opened Common
  import opened GraphTypes
  import opened GraphPass
  import opened GraphFrontier
  import opened GraphSystem
  import opened GraphSafety
  import opened GraphFailFast
  import opened GraphSessions

  /** "b" depends on "a". */
  const TWO_NODES: Graph := map["a" := GraphNode("A", "img", None), "b" := GraphNode("B", "img", Some("a"))]

  function TwoNodeOperator(): Operator {
    Operator("g", GraphSpec(TWO_NODES, "request", map["provider" := ["cluster"]]), n => n)
  }

  const TWO_LEVELS: Levels := [["a"], ["b"]]

  const TWO_ORDER: seq<string> := ["a", "b"]

  function ResolvedGraph(): GraphStatus {
    var op := TwoNodeOperator();
    Resolved(op, Initialized(op, NewGraph(), 0), TWO_LEVELS, TWO_ORDER)
  }

  function RunOfA(phase: RunPhase): ScenarioRun {
    NewRun(TwoNodeOperator(), "a").(phase := phase)
  }

  /** A pass that has listed the run of "a" in this phase. */
  function Listing(phase: RunPhase, outcomes: seq<bool>): Answers {
    Answers(IndexOf([RunOfA(phase)]), outcomes)
  }

  ghost function BlockedGraph(): GraphStatus {
    Processed(TwoNodeOperator(), ResolvedGraph(), Listing(RunFailed, []), 0)
  }

  // ---------------------------------------------------------------------------------------
  // What the passes decide

  lemma TwoNodeFacts()
    ensures ExecutableNodes(TWO_NODES) == {"a", "b"} && Enumerates(TWO_ORDER, ExecutableNodes(TWO_NODES))
    ensures AtMostOnce(TWO_LEVELS) && Covers(TWO_NODES, TWO_LEVELS) && ParentsEarlier(TWO_NODES, TWO_LEVELS)
  {
    assert "a" in TWO_NODES && "b" in TWO_NODES && !IsMetadata("a") && !IsMetadata("b");
    assert TWO_LEVELS[0] == ["a"] && TWO_LEVELS[1] == ["b"];
  }

  lemma ResolvedFacts()
    ensures var g := ResolvedGraph();
            && Processes(g) && g.levels == TWO_LEVELS && NoneBlocked(g.nodes)
            && |g.nodes| == 2 && g.nodes[0].nodeId == "a" && g.nodes[1].nodeId == "b"
            && Find(g.nodes, "a") == Some(0) && Find(g.nodes, "b") == Some(1)
  {
    var nodes := ResolvedGraph().nodes;
    assert nodes[0].nodeId == "a" && nodes[1].nodeId == "b" && "a" != "b";
  }

  lemma ListingIndex(phase: RunPhase, outcomes: seq<bool>)
    ensures Listing(phase, outcomes).index == map["a" := RunOfA(phase)]
  {
    var items := [RunOfA(phase)];
    assert items[..|items| - 1] == [] && items[|items| - 1] == RunOfA(phase);
    assert TwoNodeOperator().san("a") == "a";
    assert RunOfA(phase).nodeLabel == "a" && |"a"| == 1;
    assert IndexOf(items) == map[]["a" := RunOfA(phase)];
  }

  /** A level of one missing node is asked for, and the pass errs as long as there is no answer. */
  lemma AskedAlone(op: Operator, answers: Answers, m: Memory, n: string)
    requires !m.failed && answers.outcomes == [] && op.san(n) !in answers.index && Creatable(op.spec, n)
    ensures VisitAll(op, answers, m, [n]) == m.(attempts := m.attempts + [n], failed := true)
  {
    assert [n][1..] == [];
  }

  /** With nothing listed, the run of "a" is asked for. */
  lemma FirstPassAsks()
    ensures Attempts(TwoNodeOperator(), ResolvedGraph(), Answers(IndexOf([]), [])) == ["a"]
  {
    var op, g, answers := TwoNodeOperator(), ResolvedGraph(), Answers(IndexOf([]), []);
    ResolvedFacts();
    WalkOpens(op, answers, Start(g), g.levels, 0);
    AskedAlone(op, answers, Start(g), "a");
  }

  /** Processing the first level with "a" listed. */
  lemma FirstLevelListed(phase: RunPhase)
    ensures var op := TwoNodeOperator(); var answers := Listing(phase, []);
            var m := VisitAll(op, answers, Start(ResolvedGraph()), ["a"]);
            && !m.failed && m.attempts == [] && Refreshed(op, answers.index, m.nodes, ["a"])
            && Walk(op, answers, Start(ResolvedGraph()), TWO_LEVELS, 0) == Walk(op, answers, m, TWO_LEVELS, 1)
  {
    var op, g, answers := TwoNodeOperator(), ResolvedGraph(), Listing(phase, []);
    ResolvedFacts();
    ListingIndex(phase, []);
    assert op.san("a") in answers.index && Missing(op, answers.index, ["a"][1..]) == [];
    assert Missing(op, answers.index, ["a"]) == [];
    LevelNoErrorIff(op, answers, Start(g), ["a"]);
    LevelAttempts(op, answers, Start(g), ["a"]);
    LevelRefreshes(op, answers, Start(g), ["a"]);
    WalkOpens(op, answers, Start(g), TWO_LEVELS, 0);
  }

  /** With "a" listed as succeeded, the run of "b" is asked for. */
  lemma LaterPassAsks()
    ensures Attempts(TwoNodeOperator(), ResolvedGraph(), Listing(RunSucceeded, [])) == ["b"]
  {
    var op, g, answers := TwoNodeOperator(), ResolvedGraph(), Listing(RunSucceeded, []);
    ResolvedFacts();
    ListingIndex(RunSucceeded, []);
    FirstLevelListed(RunSucceeded);
    var m := VisitAll(op, answers, Start(g), ["a"]);
    assert LevelSucceeded(op, answers.index, ["a"]);
    WalkOpens(op, answers, m, TWO_LEVELS, 1);
    AskedAlone(op, answers, m, "b");
  }

  /** With "a" still listed as failed, nothing is asked for and "b" is blocked. */
  lemma StalePassBlocks()
    ensures Attempts(TwoNodeOperator(), ResolvedGraph(), Listing(RunFailed, [])) == []
    ensures BlockedAt(BlockedGraph(), "b") && BlockedGraph().levels == TWO_LEVELS
  {
    StalePassEnds();
    ResolvedFacts();
    TwoNodeFacts();
    assert "b" in TWO_LEVELS[1];
    ListedFailureBlocks(TwoNodeOperator(), ResolvedGraph(), Listing(RunFailed, []), 0, 0, "a", "b");
  }

  /** It gets past the first level without an error and stops there. */
  lemma StalePassEnds()
    ensures var op, g, answers := TwoNodeOperator(), ResolvedGraph(), Listing(RunFailed, []);
            && Attempts(op, g, answers) == [] && Walked(op, g, answers).1 != Aborted
            && "a" in TWO_LEVELS[0] && ListedFailed(op, answers.index, "a")
  {
    var op, g, answers := TwoNodeOperator(), ResolvedGraph(), Listing(RunFailed, []);
    ResolvedFacts();
    ListingIndex(RunFailed, []);
    FirstLevelListed(RunFailed);
    assert "a" in TWO_LEVELS[0] && ListedFailed(op, answers.index, "a");
    assert !Succeeded(op, answers.index, "a");
    WalkCloses(op, answers, VisitAll(op, answers, Start(g), ["a"]), TWO_LEVELS, 0);
  }

  // ---------------------------------------------------------------------------------------
  // The common beginning

  function WithA(run: ScenarioRun): Runs {
    map[ObjectName(TwoNodeOperator(), "a") := run]
  }

  lemma RunsOfA(phase: RunPhase)
    ensures var op := TwoNodeOperator(); var runs := WithA(RunOfA(phase));
            && Labelled(op, runs) && Lists(op, runs, [RunOfA(phase)])
            && Ours(op, RunOfA(phase)) && ObjectName(op, "b") !in runs
  {
    if ObjectName(TwoNodeOperator(), "a") == ObjectName(TwoNodeOperator(), "b") {
      SuffixEqual("g", "a", "b");
    }
  }

  /** Initialised and resolved, with no run yet. */
  lemma Prepared(d: Discipline) returns (run: seq<System>)
    ensures Ready(d, TwoNodeOperator(), run)
    ensures Last(run) == System([NewGraph(), Initialized(TwoNodeOperator(), NewGraph(), 0), ResolvedGraph()],
        [map[]], map[], [], 0)
  {
    var op, answers := TwoNodeOperator(), Answers(IndexOf([]), []);
    TwoNodeFacts();
    run := [System([NewGraph()], [map[]], map[], [], 0)];
    var inputs := PassInputs(0, Some(TWO_LEVELS), TWO_ORDER, answers, true);
    run := PassWrites(d, op, run, 0, [], inputs);
    run := PassWrites(d, op, run, 0, [], inputs);
  }

  /** A node's run is created, fails, and succeeds on retry. */
  lemma Retried(d: Discipline, op: Operator, run: seq<System>, n: string, failed: Runs, succeeded: Runs)
    returns (run': seq<System>)
    requires Ready(d, op, run) && Last(run).active == map[] && Last(run).runs == [map[]] && Last(run).newestList == 0
    requires Attempts(op, Last(run).graph[|Last(run).graph| - 1], Answers(IndexOf([]), [])) == [n]
    requires Labelled(op, failed) && Labelled(op, succeeded)
    requires failed.Keys == {ObjectName(op, n)} == succeeded.Keys && Ours(op, failed[ObjectName(op, n)])
    ensures Ready(d, op, run')
    ensures Last(run') == var s := Last(run);
              System(s.graph, [map[], map[ObjectName(op, n) := NewRun(op, n)], failed, succeeded], map[],
                     s.log + [Creation(n, |s.graph| - 1, 0, 1)], 0)
  {
    run' := PassCreates(d, op, run, |Last(run).graph| - 1, 0, [], n);
    run' := RunsMove(d, op, run', failed);
    run' := RunsMove(d, op, run', succeeded);
  }

  lemma Admitted()
    ensures GraphValidation.Admissible(TwoNodeOperator().san, TWO_NODES)
  {
    assert "a" in TWO_NODES;
    assert forall n :: IsNode(TWO_NODES, n) ==> n == "a" || n == "b";
  }

  /** Everything but the age of the listing is in order. */
  lemma InOrder(s: System, g: GraphStatus)
    requires s.graph == [NewGraph(), Initialized(TwoNodeOperator(), NewGraph(), 0), ResolvedGraph(), g]
        && g.levels == TWO_LEVELS
    requires s.runs == [map[], WithA(RunOfA(RunUnset)), WithA(RunOfA(RunFailed)), WithA(RunOfA(RunSucceeded)),
                        WithA(RunOfA(RunSucceeded))[ObjectName(TwoNodeOperator(), "b") := NewRun(TwoNodeOperator(),
                            "b")]]
    ensures StoredLevelsOnce(s) && StoredLevelsCover(TwoNodeOperator(), s) && SuccessStays(TwoNodeOperator(), s.runs)
    ensures HasRun(TwoNodeOperator(), s.runs[4], "b")
  {
    TwoNodeFacts();
    RunsOfA(RunSucceeded);
    forall v | 0 <= v < |s.graph| ensures s.graph[v].levels == [] || s.graph[v].levels == TWO_LEVELS {
    }
    var op := TwoNodeOperator();
    assert KeepsSuccess(op, s.runs[0], s.runs[1]) && KeepsSuccess(op, s.runs[1], s.runs[2]);
    assert KeepsSuccess(op, s.runs[2], s.runs[3]) && KeepsSuccess(op, s.runs[3], s.runs[4]);
  }

  /** The execution up to the retried success of "a". */
  lemma RetriedA(d: Discipline) returns (run: seq<System>)
    ensures Ready(d, TwoNodeOperator(), run) && Last(run).active == map[] && Last(run).newestList == 0
    ensures Last(run).graph == [NewGraph(), Initialized(TwoNodeOperator(), NewGraph(), 0), ResolvedGraph()]
    ensures Last(run).runs == [map[], WithA(RunOfA(RunUnset)), WithA(RunOfA(RunFailed)), WithA(RunOfA(RunSucceeded))]
  {
    RunsOfA(RunSucceeded);
    RunsOfA(RunFailed);
    run := Prepared(d);
    FirstPassAsks();
    run := Retried(d, TwoNodeOperator(), run, "a", WithA(RunOfA(RunFailed)), WithA(RunOfA(RunSucceeded)));
  }

  function StaleInputs(): PassInputs {
    PassInputs(0, None, TWO_ORDER, Listing(RunFailed, []), true)
  }

  lemma StaleSubmits()
    ensures Submitted(TwoNodeOperator(), ResolvedGraph(), StaleInputs()) == [BlockedGraph()]
    ensures Enumerates(TWO_ORDER, ExecutableNodes(TWO_NODES))
  {
    ResolvedFacts();
    TwoNodeFacts();
  }

  // ---------------------------------------------------------------------------------------
  // Three ways on

  /** What the three continuations need of the state they start from: version `v`, states 2 and 3. */
  ghost predicate Crossroads(op: Operator, s: System, newer: seq<ScenarioRun>, older: seq<ScenarioRun>, n: string,
      inputs: PassInputs) {
    && s.active == map[] && s.newestList == 0 && |s.graph| == 3 && |s.runs| == 4
    && Lists(op, s.runs[3], newer) && Lists(op, s.runs[2], older) && ObjectName(op, n) !in Newest(s)
    && Enumerates(inputs.order, ExecutableNodes(op.spec.graph)) && inputs.answers == Answers(IndexOf(older), [])
    && Attempts(op, s.graph[2], Answers(IndexOf(newer), [])) == [n]
    && Attempts(op, s.graph[2], inputs.answers) == [] && Submitted(op, s.graph[2], inputs) != []
  }

  ghost predicate Both(op: Operator, s: System, n: string, inputs: PassInputs, s': System)
    requires |s.graph| == 3 && s.runs != [] && Enumerates(inputs.order, ExecutableNodes(op.spec.graph))
    requires Submitted(op, s.graph[2], inputs) != []
  {
    && s'.graph == s.graph + [Submitted(op, s.graph[2], inputs)[0]]
    && s'.runs == s.runs + [Newest(s)[ObjectName(op, n) := NewRun(op, n)]]
  }

  /** A pass lists the success and creates; the pass after it still lists the failure and blocks. */
  lemma OlderListing(op: Operator, run: seq<System>, newer: seq<ScenarioRun>, older: seq<ScenarioRun>, n: string,
      inputs: PassInputs)
    returns (run': seq<System>)
    requires Ready(Discipline(false, false, true), op, run) && Crossroads(op, Last(run), newer, older, n, inputs)
    ensures Ready(Discipline(false, false, true), op, run') && Both(op, Last(run), n, inputs, Last(run'))
  {
    run' := PassCreates(Discipline(false, false, true), op, run, 2, 3, newer, n);
    run' := PassWrites(Discipline(false, false, true), op, run', 2, older, inputs);
  }

  /** A pass lists the failure and blocks; the pass after it lists the success but fetches the status from before. */
  lemma OlderStatus(op: Operator, run: seq<System>, newer: seq<ScenarioRun>, older: seq<ScenarioRun>, n: string,
      inputs: PassInputs)
    returns (run': seq<System>)
    requires Ready(Discipline(false, true, false), op, run) && Crossroads(op, Last(run), newer, older, n, inputs)
    ensures Ready(Discipline(false, true, false), op, run') && Both(op, Last(run), n, inputs, Last(run'))
  {
    run' := PassWrites(Discipline(false, true, false), op, run, 2, older, inputs);
    run' := PassCreates(Discipline(false, true, false), op, run', 2, 3, newer, n);
  }

  /** A pass lists the failure; before it writes, another begins, lists the success and creates. */
  lemma Overlap(op: Operator, run: seq<System>, newer: seq<ScenarioRun>, older: seq<ScenarioRun>, n: string,
      inputs: PassInputs)
    returns (run': seq<System>)
    requires Ready(Discipline(true, false, false), op, run) && Crossroads(op, Last(run), newer, older, n, inputs)
    ensures Ready(Discipline(true, false, false), op, run') && Both(op, Last(run), n, inputs, Last(run'))
  {
    var d := Discipline(true, false, false);
    var blocker, creator := InFlight(2, 2, older, []), InFlight(2, 3, newer, []);
    run' := Begins(d, op, run, 0, 2, 2, older);
    run' := Begins(d, op, run', 1, 2, 3, newer);
    run' := Creates(d, op, run', 1, creator, n);
    run' := Writes(d, op, run', 0, blocker, inputs);
  }

  /** One single liberty. */
  predicate Single(d: Discipline) {
    d == Discipline(true, false, false) || d == Discipline(false, true, false) || d == Discipline(false, false, true)
  }

  lemma CreatedAndBlocked(d: Discipline, op: Operator, run: seq<System>, newer: seq<ScenarioRun>,
      older: seq<ScenarioRun>, n: string, inputs: PassInputs)
    returns (run': seq<System>)
    requires Single(d) && Ready(d, op, run) && Crossroads(op, Last(run), newer, older, n, inputs)
    ensures Ready(d, op, run') && Both(op, Last(run), n, inputs, Last(run'))
  {
    if d.olderListing {
      run' := OlderListing(op, run, newer, older, n, inputs);
    } else if d.olderStatus {
      run' := OlderStatus(op, run, newer, older, n, inputs);
    } else {
      run' := Overlap(op, run, newer, older, n, inputs);
    }
  }

  // ---------------------------------------------------------------------------------------
  // The exact condition

  /** Everything the closure may rely on: an admitted graph, full layerings, success that stays. */
  ghost predicate Flawless(op: Operator, s: System) {
    && GraphValidation.Admissible(op.san, op.spec.graph)
    && StoredLevelsOnce(s) && StoredLevelsCover(op, s) && SuccessStays(op, s.runs)
  }

  /** In no state, past or present, does a node that some status blocks have a run. */
  ghost predicate NoBlockedRun(op: Operator, s: System) {
    forall v, i, n :: 0 <= v < |s.graph| && 0 <= i < |s.runs| && BlockedAt(s.graph[v], n) ==> !HasRun(op, s.runs[i], n)
  }

  /** `failureStays`: runs that have failed are known to stay failed. */
  ghost predicate Guarantees(d: Discipline, failureStays: bool) {
    forall op: Operator, run: seq<System> ::
      && Execution(op, run) && Obeys(d, op, run) && Flawless(op, Last(run))
      && (failureStays ==> FailureStays(op, Last(run).runs))
      ==> NoBlockedRun(op, Last(run))
  }

  lemma AtCrossroads(s: System)
    requires s.active == map[] && s.newestList == 0
    requires s.graph == [NewGraph(), Initialized(TwoNodeOperator(), NewGraph(), 0), ResolvedGraph()]
    requires s.runs == [map[], WithA(RunOfA(RunUnset)), WithA(RunOfA(RunFailed)), WithA(RunOfA(RunSucceeded))]
    ensures Crossroads(TwoNodeOperator(), s, [RunOfA(RunSucceeded)], [RunOfA(RunFailed)], "b", StaleInputs())
  {
    RunsOfA(RunSucceeded);
    RunsOfA(RunFailed);
    LaterPassAsks();
    StalePassBlocks();
    StaleSubmits();
  }

  /** With any one liberty an execution ends with "b" blocked in the last status and its run stored. */
  lemma BlockedNodeWithRun(d: Discipline) returns (run: seq<System>)
    requires Single(d)
    ensures Execution(TwoNodeOperator(), run) && Obeys(d, TwoNodeOperator(), run)
        && Flawless(TwoNodeOperator(), Last(run))
    ensures |Last(run).graph| == 4 && |Last(run).runs| == 5
    ensures BlockedAt(Last(run).graph[3], "b") && HasRun(TwoNodeOperator(), Last(run).runs[4], "b")
  {
    run := RetriedA(d);
    AtCrossroads(Last(run));
    StaleSubmits();
    run := CreatedAndBlocked(d, TwoNodeOperator(), run, [RunOfA(RunSucceeded)], [RunOfA(RunFailed)], "b",
        StaleInputs());
    StalePassBlocks();
    Admitted();
    InOrder(Last(run), BlockedGraph());
  }

  lemma ObeysMore(d: Discipline, d': Discipline, op: Operator, run: seq<System>)
    requires Obeys(d, op, run)
    requires (d.overlap ==> d'.overlap) && (d.olderStatus ==> d'.olderStatus) && (d.olderListing ==> d'.olderListing)
    ensures Obeys(d', op, run)
  {
    forall i | 0 <= i < |run| - 1 ensures PermittedStep(d', op, run[i], run[i + 1]) {
      assert PermittedStep(d, op, run[i], run[i + 1]);
    }
  }

  lemma StrictGuarantees(op: Operator, run: seq<System>)
    requires Execution(op, run) && Obeys(STRICT, op, run) && Flawless(op, Last(run))
    ensures NoBlockedRun(op, Last(run))
  {
    forall v, i, n | 0 <= v < |Last(run).graph| && 0 <= i < |Last(run).runs| && BlockedAt(Last(run).graph[v], n)
      ensures !HasRun(op, Last(run).runs[i], n)
    {
      BlockedNodesHaveNoRun(op, run, v, i, n);
    }
  }

  lemma LastingFailureGuarantees(op: Operator, run: seq<System>)
    requires Execution(op, run) && Flawless(op, Last(run)) && FailureStays(op, Last(run).runs)
    ensures NoBlockedRun(op, Last(run))
  {
    forall v, i, n | 0 <= v < |Last(run).graph| && 0 <= i < |Last(run).runs| && BlockedAt(Last(run).graph[v], n)
      ensures !HasRun(op, Last(run).runs[i], n)
    {
      forall e | 0 <= e < |Last(run).log| ensures Last(run).log[e].node != n {
        LastingFailureExcludesCreation(op, run, v, e);
      }
      BlockedUncreatedHasNoRun(op, run, v, i, n);
    }
  }

  /**
   The fail-fast closure, exactly: every execution leaves blocked nodes without runs if and only if
   failed runs stay failed, or passes never overlap, always fetch the newest status and never list an
   older state than a pass before them.
   */
  lemma ClosureGuaranteedIff(d: Discipline, failureStays: bool)
    ensures Guarantees(d, failureStays) <==> d == STRICT || failureStays
  {
    if d == STRICT || failureStays {
      forall op: Operator, run: seq<System>
        | && Execution(op, run) && Obeys(d, op, run) && Flawless(op, Last(run))
          && (failureStays ==> FailureStays(op, Last(run).runs))
        ensures NoBlockedRun(op, Last(run))
      {
        if failureStays {
          LastingFailureGuarantees(op, run);
        } else {
          StrictGuarantees(op, run);
        }
      }
    } else {
      var single := if d.olderListing then Discipline(false, false, true)
                    else if d.olderStatus then Discipline(false, true, false) else Discipline(true, false, false);
      var run := BlockedNodeWithRun(single);
      ObeysMore(single, d, TwoNodeOperator(), run);
      assert !NoBlockedRun(TwoNodeOperator(), Last(run));
    }
  }
}
