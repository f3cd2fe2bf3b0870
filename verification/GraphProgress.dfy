/** Progress: how many processing passes a graph run needs when nothing goes wrong. */
module GraphProgress {
  import opened Common
  import opened GraphTypes
  import opened GraphPass
  import opened GraphFrontier
  import opened GraphSummary
  import GraphFailFast

  /** Refreshing one level keeps another one refreshed. */
  lemma RefreshedKept(op: Operator, answers: Answers, m: Memory, level: seq<string>, other: seq<string>)
    requires !VisitAll(op, answers, m, level).failed
    requires Refreshed(op, answers.index, m.nodes, other)
    ensures Refreshed(op, answers.index, VisitAll(op, answers, m, level).nodes, other)
  {
    var m' := VisitAll(op, answers, m, level);
    LevelRefreshes(op, answers, m, level);
    forall n | n in other ensures NodeIn(m'.nodes, n, PhaseNow(op, answers.index, n)) {
      SameIdsFind(m.nodes, m'.nodes, n);
      assert NodeIn(m.nodes, n, PhaseNow(op, answers.index, n));
    }
  }

  ghost predicate RefreshedUpTo(op: Operator, index: Index, nodes: seq<NodeStatus>, levels: Levels, k: nat) {
    forall j :: 0 <= j < k && j < |levels| ==> Refreshed(op, index, nodes, levels[j])
  }

  ghost predicate BelowLevel(levels: Levels, k: nat, n: string) {
    exists j :: 0 <= j < k && j < |levels| && n in levels[j]
  }

  /** Entries of nodes outside the first `k` levels are the same. */
  ghost predicate RestKept(a: seq<NodeStatus>, b: seq<NodeStatus>, levels: Levels, k: nat) {
    SameIds(a, b) && forall i :: 0 <= i < |a| && !BelowLevel(levels, k, a[i].nodeId) ==> b[i] == a[i]
  }

  lemma LevelKeepsRest(op: Operator, answers: Answers, m: Memory, levels: Levels, k: nat)
    requires k < |levels|
    ensures RestKept(m.nodes, VisitAll(op, answers, m, levels[k]).nodes, levels, k + 1)
  {
    var nodes' := VisitAll(op, answers, m, levels[k]).nodes;
    LevelRefreshes(op, answers, m, levels[k]);
    forall i | 0 <= i < |m.nodes| && !BelowLevel(levels, k + 1, m.nodes[i].nodeId) ensures nodes'[i] == m.nodes[i] {
      assert m.nodes[i].nodeId !in levels[k];
    }
  }

  lemma LevelEffect(op: Operator, answers: Answers, m: Memory, levels: Levels, k: nat)
    requires k < |levels| && RefreshedUpTo(op, answers.index, m.nodes, levels, k)
    requires !VisitAll(op, answers, m, levels[k]).failed
    ensures RefreshedUpTo(op, answers.index, VisitAll(op, answers, m, levels[k]).nodes, levels, k + 1)
  {
    var nodes' := VisitAll(op, answers, m, levels[k]).nodes;
    forall j | 0 <= j < k + 1 ensures Refreshed(op, answers.index, nodes', levels[j]) {
      if j < k {
        RefreshedKept(op, answers, m, levels[k], levels[j]);
      } else {
        LevelRefreshes(op, answers, m, levels[k]);
      }
    }
  }

  lemma RestKeptCompose(a: seq<NodeStatus>, b: seq<NodeStatus>, c: seq<NodeStatus>, levels: Levels, j: nat, k: nat)
    requires j <= k && RestKept(a, b, levels, j) && RestKept(b, c, levels, k)
    ensures RestKept(a, c, levels, k)
  {
    forall i | 0 <= i < |a| && !BelowLevel(levels, k, a[i].nodeId) ensures c[i] == a[i] {
      assert !BelowLevel(levels, j, a[i].nodeId);
    }
  }

  /** A walk without error refreshes every level up to the frontier and touches no other entry. */
  lemma {:induction false} WalkEffect(op: Operator, answers: Answers, m: Memory, levels: Levels, k: nat, f: nat)
    requires IsFrontier(op, answers.index, levels, f) && k <= f
    requires RefreshedUpTo(op, answers.index, m.nodes, levels, k)
    requires Walk(op, answers, m, levels, k).1 != Aborted
    ensures var m' := Walk(op, answers, m, levels, k).0;
            RefreshedUpTo(op, answers.index, m'.nodes, levels, f + 1) && RestKept(m.nodes, m'.nodes, levels, f + 1)
    decreases |levels| - k
  {
    var index := answers.index;
    if k < |levels| {
      assert k > 0 ==> LevelSucceeded(op, index, levels[k - 1]);
      WalkOpens(op, answers, m, levels, k);
      var m1 := VisitAll(op, answers, m, levels[k]);
      LevelEffect(op, answers, m, levels, k);
      LevelKeepsRest(op, answers, m, levels, k);
      if k < f {
        WalkEffect(op, answers, m1, levels, k + 1, f);
        RestKeptCompose(m.nodes, m1.nodes, Walk(op, answers, m1, levels, k + 1).0.nodes, levels, k + 1, f + 1);
      } else {
        WalkCloses(op, answers, m1, levels, f);
      }
    }
  }

  /** The listing after `i` levels have run: their nodes have succeeded runs, later nodes have none. */
  ghost predicate ListedThrough(op: Operator, index: Index, levels: Levels, i: nat) {
    && (forall j, n :: 0 <= j < i && j < |levels| && n in levels[j] ==> Succeeded(op, index, n))
    && (forall j, n :: i <= j < |levels| && n in levels[j] ==> op.san(n) !in index)
  }

  /** Nodes of level `i` and later are still pending. */
  ghost predicate PendingFrom(status: GraphStatus, i: nat) {
    forall j, n :: i <= j < |status.levels| && n in status.levels[j] ==> NodeIn(status.nodes, n, NodePending)
  }

  /** A resolved graph whose levels are a full layering of its nodes, none of them empty. */
  ghost predicate WellLayered(op: Operator, status: GraphStatus) {
    && status.levels != []
    && AtMostOnce(status.levels)
    && Covers(op.spec.graph, status.levels)
    && Enumerates(Ids(status.nodes), ExecutableNodes(op.spec.graph))
    && forall k :: 0 <= k < |status.levels| ==> status.levels[k] != []
  }

  lemma EntriesLookedUp(op: Operator, status: GraphStatus, i: nat)
    requires WellLayered(op, status) && i < |status.nodes|
    ensures Find(status.nodes, status.nodes[i].nodeId) == Some(i)
    ensures InLevels(status.levels, status.nodes[i].nodeId)
  {
    var ids := Ids(status.nodes);
    assert ids[i] in ids;
    assert IsNode(op.spec.graph, ids[i]);
    var at := Find(status.nodes, ids[i]);
    assert status.nodes[i].nodeId == ids[i];
    assert ids[at.value] == ids[i];
  }

  lemma FrontierIs(op: Operator, index: Index, levels: Levels, i: nat)
    requires ListedThrough(op, index, levels, i) && i <= |levels|
    requires forall k :: 0 <= k < |levels| ==> levels[k] != []
    ensures IsFrontier(op, index, levels, i)
    ensures i < |levels| ==> forall n :: n in levels[i] ==> PhaseNow(op, index, n) == NodeRunning
  {
    if i < |levels| {
      assert levels[i][0] in levels[i];
      assert !Succeeded(op, index, levels[i][0]);
    }
  }

  lemma {:induction false} NothingListedAllMissing(op: Operator, index: Index, level: seq<string>)
    requires forall n :: n in level ==> op.san(n) !in index
    ensures Missing(op, index, level) == level
  {
    if level != [] {
      assert level == [level[0]] + level[1..];
      NothingListedAllMissing(op, index, level[1..]);
    }
  }

  /** The phases of all entries after the `i`-th pass (counting from 0). */
  lemma PassPhases(op: Operator, status: GraphStatus, answers: Answers, i: nat)
    requires Processes(status) && WellLayered(op, status) && Smooth(op, status, answers, i)
    requires i <= |status.levels| && PendingFrom(status, i) && ListedThrough(op, answers.index, status.levels, i)
    ensures var (m, ending) := Walked(op, status, answers);
            && !ending.Aborted? && !ending.FailFast?
            && SameIds(status.nodes, m.nodes)
            && (forall e :: 0 <= e < |m.nodes| ==> m.nodes[e].phase in {NodeCompleted, NodeRunning, NodePending})
            && (AllCompleted(m.nodes) <==> i == |status.levels|)
            && (i < |status.levels| ==> exists e :: 0 <= e < |m.nodes| && m.nodes[e].phase == NodeRunning)
            && (forall j, n :: i < j < |status.levels| && n in status.levels[j] ==> NodeIn(m.nodes, n, NodePending))
  {
    var levels := status.levels;
    var (m, ending) := Walked(op, status, answers);
    FrontierIs(op, answers.index, levels, i);
    FrontierRefinement(op, status, answers, i);
    PassAsksForFrontier(op, status, answers, i);
    WalkEffect(op, answers, Start(status), levels, 0, i);
    forall e | 0 <= e < |m.nodes|
      ensures m.nodes[e].phase in {NodeCompleted, NodeRunning, NodePending}
      ensures i == |levels| ==> m.nodes[e].phase == NodeCompleted
    {
      EntryPhase(op, status, answers, i, e);
    }
    if i < |levels| {
      var n := levels[i][0];
      assert n in levels[i];
      assert NodeIn(m.nodes, n, NodeRunning);
      var at := Find(m.nodes, n).value;
      assert m.nodes[at].phase == NodeRunning;
    }
    forall j, n | i < j < |levels| && n in levels[j] ensures NodeIn(m.nodes, n, NodePending) {
      assert NodeIn(status.nodes, n, NodePending);
      SameIdsFind(status.nodes, m.nodes, n);
      var at := Find(status.nodes, n).value;
      assert !BelowLevel(levels, i + 1, n);
      assert m.nodes[at] == status.nodes[at];
    }
  }

  /** One entry after the walk: completed before the frontier, running at it, pending after it. */
  lemma EntryPhase(op: Operator, status: GraphStatus, answers: Answers, i: nat, e: nat)
    requires Processes(status) && WellLayered(op, status)
    requires IsFrontier(op, answers.index, status.levels, i) && Walked(op, status, answers).1 != Aborted
    requires PendingFrom(status, i) && ListedThrough(op, answers.index, status.levels, i)
    requires e < |status.nodes|
    ensures var nodes := Walked(op, status, answers).0.nodes;
            && |nodes| == |status.nodes|
            && nodes[e].phase in {NodeCompleted, NodeRunning, NodePending}
            && (i == |status.levels| ==> nodes[e].phase == NodeCompleted)
  {
    var levels := status.levels;
    var nodes := Walked(op, status, answers).0.nodes;
    WalkEffect(op, answers, Start(status), levels, 0, i);
    EntriesLookedUp(op, status, e);
    var n := status.nodes[e].nodeId;
    SameIdsFind(status.nodes, nodes, n);
    var j :| 0 <= j < |levels| && n in levels[j];
    if j <= i {
      assert Refreshed(op, answers.index, nodes, levels[j]);
      assert NodeIn(nodes, n, PhaseNow(op, answers.index, n));
    } else {
      assert NodeIn(status.nodes, n, NodePending);
      assert !BelowLevel(levels, i + 1, n);
    }
  }

  /** The `i`-th pass asks for exactly level `i`; the graph run completes exactly when no level is left. */
  lemma IdealPass(op: Operator, status: GraphStatus, answers: Answers, now: int, i: nat)
    requires Processes(status) && WellLayered(op, status) && Smooth(op, status, answers, i)
    requires i <= |status.levels| && PendingFrom(status, i) && ListedThrough(op, answers.index, status.levels, i)
    ensures Attempts(op, status, answers) == if i < |status.levels| then status.levels[i] else []
    ensures var after := Processed(op, status, answers, now);
            && after.phase == (if i < |status.levels| then Running else Completed)
            && after.levels == status.levels && SameIds(status.nodes, after.nodes)
            && PendingFrom(after, i + 1)
  {
    var levels := status.levels;
    var (m, ending) := Walked(op, status, answers);
    FrontierIs(op, answers.index, levels, i);
    FrontierRefinement(op, status, answers, i);
    if i < |levels| {
      NothingListedAllMissing(op, answers.index, levels[i]);
    }
    PassPhases(op, status, answers, i);
    PhaseWithoutFailure(status.(nodes := m.nodes), now);
  }

  /** With no failed and no blocked entry, the phase is Completed, or Running once something runs. */
  lemma PhaseWithoutFailure(status: GraphStatus, now: int)
    requires forall e :: 0 <= e < |status.nodes| ==> status.nodes[e].phase in {NodeCompleted, NodeRunning, NodePending}
    ensures var after := Recalculated(status, now);
            && (after.phase == Completed <==> AllCompleted(status.nodes))
            && (after.phase != Completed && (exists e ::
                0 <= e < |status.nodes|
                && status.nodes[e].phase == NodeRunning)
                ==> after.phase == Running)
  {
    RecalculatedMeaning(status, now);
    PhaseCounts(status.nodes, NodeRunning);
    PhaseCounts(status.nodes, NodeFailed);
  }

  /** Whatever is missing at the frontier `i` is created when asked for. */
  ghost predicate AllGranted(op: Operator, status: GraphStatus, answers: Answers, i: nat) {
    GrantedUpTo(answers.outcomes, 0, |MissingAt(op, answers.index, status.levels, i)|)
  }

  ghost predicate CompleteSpec(op: Operator) {
    forall n :: IsNode(op.spec.graph, n) ==> Creatable(op.spec, n)
  }

  /**
   Passes and listings of a run in which every request is granted and every created run has succeeded
   by the next pass.
   */
  ghost predicate Ideal(op: Operator, statuses: seq<GraphStatus>, answers: seq<Answers>, nows: seq<int>) {
    && |statuses| == |answers| + 1 && |nows| == |answers|
    && (forall i :: 0 <= i < |answers| ==> AllGranted(op, statuses[i], answers[i], i))
    && (forall i :: 0 <= i < |answers| ==> Step(op, statuses[i], answers[i], nows[i], statuses[i + 1]))
    && (|answers| > 0 ==> answers[0].index == map[])
    && (forall i :: 0 < i < |answers| ==> AllFinished(op, statuses[i - 1], answers[i - 1], answers[i].index))
  }

  ghost predicate Step(op: Operator, status: GraphStatus, answers: Answers, now: int, status': GraphStatus) {
    status' == Processed(op, status, answers, now)
  }

  /** The next listing shows the earlier runs and the newly created ones, all succeeded. */
  ghost predicate AllFinished(op: Operator, status: GraphStatus, answers: Answers, index': Index) {
    && (forall key :: key in index' <==> key in answers.index || exists n ::
        n in Attempts(op, status, answers)
        && op.san(n) == key)
    && (forall key :: key in index' ==> index'[key].phase == RunSucceeded)
  }

  ghost predicate LabelsDistinct(op: Operator, levels: Levels) {
    forall m, n :: InLevels(levels, m) && InLevels(levels, n) && op.san(m) == op.san(n) ==> m == n
  }

  lemma ListingAdvances(op: Operator, status: GraphStatus, answers: Answers, index': Index, i: nat)
    requires i < |status.levels| && ListedThrough(op, answers.index, status.levels, i)
    requires Attempts(op, status, answers) == status.levels[i]
    requires AtMostOnce(status.levels) && LabelsDistinct(op, status.levels)
    requires AllFinished(op, status, answers, index')
    ensures ListedThrough(op, index', status.levels, i + 1)
  {
    var levels := status.levels;
    forall j, n | 0 <= j < i + 1 && n in levels[j] ensures Succeeded(op, index', n) {
      if j < i {
        assert Succeeded(op, answers.index, n);
      }
    }
    forall j, n | i + 1 <= j < |levels| && n in levels[j] ensures op.san(n) !in index' {
      assert op.san(n) !in answers.index;
      assert InLevels(levels, n);
      forall n' | n' in levels[i] ensures op.san(n') != op.san(n) {
        assert InLevels(levels, n');
      }
    }
  }

  lemma GrantedIsSmooth(op: Operator, status: GraphStatus, answers: Answers, i: nat)
    requires WellLayered(op, status) && CompleteSpec(op) && AllGranted(op, status, answers, i)
    ensures Smooth(op, status, answers, i)
  {
    var levels := status.levels;
    forall j, n | 0 <= j < |levels| && n in levels[j] ensures Find(status.nodes, n).Some? && Creatable(op.spec, n) {
      assert InLevels(levels, n) && IsNode(op.spec.graph, n);
      assert n in Ids(status.nodes);
    }
    forall n | n in MissingAt(op, answers.index, levels, i) ensures Creatable(op.spec, n) {
      MissingSound(op, answers.index, levels[i], n);
    }
  }

  /** One ideal pass and the listing after it. */
  lemma IdealStep(op: Operator, status: GraphStatus, answers: Answers, now: int, status': GraphStatus, index': Index,
      i: nat)
    requires Processes(status) && WellLayered(op, status) && Smooth(op, status, answers, i)
    requires i < |status.levels| && PendingFrom(status, i) && ListedThrough(op, answers.index, status.levels, i)
    requires LabelsDistinct(op, status.levels)
    requires Step(op, status, answers, now, status') && AllFinished(op, status, answers, index')
    ensures status'.levels == status.levels && SameIds(status.nodes, status'.nodes) && status'.phase == Running
    ensures PendingFrom(status', i + 1) && ListedThrough(op, index', status'.levels, i + 1) && WellLayered(op, status')
  {
    IdealPass(op, status, answers, now, i);
    ListingAdvances(op, status, answers, index', i);
    StaysWellLayered(op, status, status');
  }

  lemma StaysWellLayered(op: Operator, a: GraphStatus, b: GraphStatus)
    requires WellLayered(op, a) && b.levels == a.levels && SameIds(a.nodes, b.nodes)
    ensures WellLayered(op, b)
  {
    assert Ids(b.nodes) == Ids(a.nodes);
  }

  lemma {:induction false} IdealProgress(op: Operator, statuses: seq<GraphStatus>, answers: seq<Answers>,
      nows: seq<int>, i: nat)
    requires Ideal(op, statuses, answers, nows) && i < |answers| && i <= |statuses[0].levels|
    requires Processes(statuses[0]) && WellLayered(op, statuses[0]) && PendingFrom(statuses[0], 0) && CompleteSpec(op)
    requires LabelsDistinct(op, statuses[0].levels)
    ensures statuses[i].levels == statuses[0].levels && SameIds(statuses[0].nodes, statuses[i].nodes)
    ensures Processes(statuses[i]) && PendingFrom(statuses[i], i)
    ensures ListedThrough(op, answers[i].index, statuses[i].levels, i)
    ensures WellLayered(op, statuses[i]) && Smooth(op, statuses[i], answers[i], i)
    ensures i > 0 ==> statuses[i].phase == Running
  {
    if i > 0 {
      IdealProgress(op, statuses, answers, nows, i - 1);
      assert Step(op, statuses[i - 1], answers[i - 1], nows[i - 1], statuses[i]);
      assert AllFinished(op, statuses[i - 1], answers[i - 1], answers[i].index);
      IdealStep(op, statuses[i - 1], answers[i - 1], nows[i - 1], statuses[i], answers[i].index, i - 1);
    }
    GrantedIsSmooth(op, statuses[i], answers[i], i);
  }

  /** A graph of L levels is Running after each of the first L passes and Completed by the (L+1)-th, not earlier. */
  lemma ProgressBound(op: Operator, statuses: seq<GraphStatus>, answers: seq<Answers>, nows: seq<int>)
    requires Ideal(op, statuses, answers, nows) && |answers| == |statuses[0].levels| + 1
    requires Processes(statuses[0]) && WellLayered(op, statuses[0]) && PendingFrom(statuses[0], 0) && CompleteSpec(op)
    requires LabelsDistinct(op, statuses[0].levels)
    ensures forall i :: 1 <= i <= |statuses[0].levels| ==> statuses[i].phase == Running
    ensures statuses[|statuses[0].levels| + 1].phase == Completed
    ensures forall i :: 0 <= i < |statuses[0].levels| ==> Attempts(op, statuses[i], answers[i]) == statuses[0].levels[i]
  {
    var l := |statuses[0].levels|;
    forall i | 0 <= i <= l
      ensures i > 0 ==> statuses[i].phase == Running
      ensures i < l ==> Attempts(op, statuses[i], answers[i]) == statuses[0].levels[i]
    {
      IdealProgress(op, statuses, answers, nows, i);
      IdealPass(op, statuses[i], answers[i], nows[i], i);
    }
    IdealProgress(op, statuses, answers, nows, l);
    assert Step(op, statuses[l], answers[l], nows[l], statuses[l + 1]);
    IdealPass(op, statuses[l], answers[l], nows[l], l);
  }
}
