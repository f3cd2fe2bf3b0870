/**
 What one pass decides. The frontier is the first level that is not entirely succeeded in the
 listed runs; a pass asks for exactly the missing runs of that level, whatever node phases the
 status it fetched happens to hold.
 */
module GraphFrontier {
  import opened Common
  import opened GraphTypes
  import opened GraphPass

  ghost predicate Succeeded(op: Operator, index: Index, n: string) {
    op.san(n) in index && index[op.san(n)].phase == RunSucceeded
  }

  /** The node's listed run has failed, in part or entirely. */
  ghost predicate ListedFailed(op: Operator, index: Index, n: string) {
    op.san(n) in index && (index[op.san(n)].phase == RunFailed || index[op.san(n)].phase == RunPartiallyFailed)
  }

  ghost predicate LevelSucceeded(op: Operator, index: Index, level: seq<string>) {
    forall n :: n in level ==> Succeeded(op, index, n)
  }

  ghost predicate LevelsSucceeded(op: Operator, index: Index, levels: Levels, k: nat) {
    forall j :: 0 <= j < k && j < |levels| ==> LevelSucceeded(op, index, levels[j])
  }

  /** The first level that is not entirely succeeded, or the number of levels. */
  ghost predicate IsFrontier(op: Operator, index: Index, levels: Levels, f: nat) {
    && f <= |levels|
    && LevelsSucceeded(op, index, levels, f)
    && (f < |levels| ==> !LevelSucceeded(op, index, levels[f]))
  }

  /** The nodes of a level that have no listed run, in level order. */
  ghost function Missing(op: Operator, index: Index, level: seq<string>): seq<string> {
    if level == [] then []
    else (if op.san(level[0]) in index then [] else [level[0]]) + Missing(op, index, level[1..])
  }

  ghost function MissingAt(op: Operator, index: Index, levels: Levels, f: nat): seq<string> {
    if f < |levels| then Missing(op, index, levels[f]) else []
  }

  /** The phase a pass gives a node it processes. */
  ghost function PhaseNow(op: Operator, index: Index, n: string): NodePhase {
    if op.san(n) in index then NodePhaseOf(index[op.san(n)].phase) else NodeRunning
  }

  ghost predicate Refreshed(op: Operator, index: Index, nodes: seq<NodeStatus>, level: seq<string>) {
    forall n :: n in level ==> NodeIn(nodes, n, PhaseNow(op, index, n))
  }

  ghost predicate SameIds(a: seq<NodeStatus>, b: seq<NodeStatus>) {
    |a| == |b| && forall i :: 0 <= i < |a| ==> a[i].nodeId == b[i].nodeId
  }

  /** Every node of the level has a status entry. */
  ghost predicate Entered(nodes: seq<NodeStatus>, level: seq<string>) {
    forall n :: n in level ==> Find(nodes, n).Some?
  }

  ghost predicate AllCreatable(op: Operator, level: seq<string>) {
    forall n :: n in level ==> Creatable(op.spec, n)
  }

  lemma SameIdsFind(a: seq<NodeStatus>, b: seq<NodeStatus>, n: string)
    requires SameIds(a, b)
    ensures Find(a, n) == Find(b, n)
  {
  }

  lemma {:induction false} MissingSound(op: Operator, index: Index, level: seq<string>, n: string)
    ensures n in Missing(op, index, level) <==> n in level && op.san(n) !in index
  {
    if level != [] {
      MissingSound(op, index, level[1..], n);
      assert level == [level[0]] + level[1..];
    }
  }

  /** All nodes of the level without a listed run and no others, in level order. */
  lemma {:induction false} MissingIsFilter(op: Operator, index: Index, level: seq<string>)
    ensures Missing(op, index, level) == Filter((n: string) => op.san(n) !in index, level)
  {
    if level != [] {
      MissingIsFilter(op, index, level[1..]);
      FilterCons((n: string) => op.san(n) !in index, level);
    }
  }

  /** Processing one node refreshes that node's entry and no other. */
  lemma VisitRefreshes(op: Operator, answers: Answers, m: Memory, n: string)
    ensures var m' := Visit(op, answers, m, n);
            && SameIds(m.nodes, m'.nodes)
            && (!m'.failed ==> NodeIn(m'.nodes, n, PhaseNow(op, answers.index, n)))
            && forall i :: 0 <= i < |m.nodes| && m.nodes[i].nodeId != n ==> m'.nodes[i] == m.nodes[i]
  {
    var m' := Visit(op, answers, m, n);
    SameIdsFind(m.nodes, m'.nodes, n);
  }

  /** Processing a level without error gives every node in it the phase of its listed run. */
  lemma {:induction false} LevelRefreshes(op: Operator, answers: Answers, m: Memory, level: seq<string>)
    ensures var m' := VisitAll(op, answers, m, level);
            && SameIds(m.nodes, m'.nodes)
            && (forall i :: 0 <= i < |m.nodes| && m.nodes[i].nodeId !in level ==> m'.nodes[i] == m.nodes[i])
            && (!m'.failed ==> Refreshed(op, answers.index, m'.nodes, level))
    decreases |level|
  {
    if level != [] && !m.failed {
      var m1 := Visit(op, answers, m, level[0]);
      var m' := VisitAll(op, answers, m1, level[1..]);
      assert level == [level[0]] + level[1..];
      VisitRefreshes(op, answers, m, level[0]);
      LevelRefreshes(op, answers, m1, level[1..]);
      if !m'.failed {
        FailureSticks(op, answers, m1, level[1..]);
        SameIdsFind(m1.nodes, m'.nodes, level[0]);
        if level[0] !in level[1..] {
          assert NodeIn(m'.nodes, level[0], PhaseNow(op, answers.index, level[0]));
        }
      }
    }
  }

  lemma {:induction false} FailureSticks(op: Operator, answers: Answers, m: Memory, level: seq<string>)
    ensures m.failed ==> VisitAll(op, answers, m, level) == m
  {
  }

  /** The requests made for a level are a prefix of its missing nodes, and all of them when there is no error. */
  lemma {:induction false} LevelAttempts(op: Operator, answers: Answers, m: Memory, level: seq<string>)
    ensures var m' := VisitAll(op, answers, m, level);
            && m.attempts <= m'.attempts <= m.attempts + Missing(op, answers.index, level)
            && (!m'.failed ==> m'.attempts == m.attempts + Missing(op, answers.index, level))
    decreases |level|
  {
    if level != [] && !m.failed {
      var m1 := Visit(op, answers, m, level[0]);
      LevelAttempts(op, answers, m1, level[1..]);
      var here := if op.san(level[0]) in answers.index then [] else [level[0]];
      var rest := Missing(op, answers.index, level[1..]);
      assert m.attempts + (here + rest) == (m.attempts + here) + rest;
      if m1.failed {
        FailureSticks(op, answers, m1, level[1..]);
      } else {
        assert m1.attempts == m.attempts + here;
      }
    }
  }

  ghost predicate GrantedUpTo(outcomes: seq<bool>, from: nat, to: nat) {
    forall k :: from <= k < to ==> Granted(outcomes, k)
  }

  /** What a level needs: an entry for each node, complete specifications and granted requests for the missing ones. */
  ghost predicate LevelSmooth(op: Operator, answers: Answers, nodes: seq<NodeStatus>, asked: nat, level: seq<string>) {
    && Entered(nodes, level)
    && AllCreatable(op, Missing(op, answers.index, level))
    && GrantedUpTo(answers.outcomes, asked, asked + |Missing(op, answers.index, level)|)
  }

  lemma EnteredKept(a: seq<NodeStatus>, b: seq<NodeStatus>, level: seq<string>)
    requires SameIds(a, b)
    ensures Entered(a, level) <==> Entered(b, level)
  {
    forall n | n in level ensures Find(a, n) == Find(b, n) {
      SameIdsFind(a, b, n);
    }
  }

  /**
   One node is processed without error exactly when it has an entry and, if missing, its request is
   possible and granted.
   */
  lemma VisitNoErrorIff(op: Operator, answers: Answers, m: Memory, n: string)
    requires !m.failed
    ensures !Visit(op, answers, m, n).failed <==>
              Find(m.nodes, n).Some? && (op.san(n) in answers.index
                  || (Creatable(op.spec, n) && Granted(answers.outcomes, |m.attempts|)))
    ensures !Visit(op, answers, m, n).failed ==>
              |Visit(op, answers, m, n).attempts| == |m.attempts| + (if op.san(n) in answers.index then 0 else 1)
  {
  }

  lemma LevelSmoothSplit(op: Operator, answers: Answers, nodes: seq<NodeStatus>, asked: nat, level: seq<string>)
    requires level != []
    ensures var here := if op.san(level[0]) in answers.index then 0 else 1;
            LevelSmooth(op, answers, nodes, asked, level) <==>
              && Find(nodes, level[0]).Some?
              && (op.san(level[0]) in answers.index || (Creatable(op.spec, level[0])
                  && Granted(answers.outcomes, asked)))
              && LevelSmooth(op, answers, nodes, asked + here, level[1..])
  {
    assert level == [level[0]] + level[1..];
    var rest := Missing(op, answers.index, level[1..]);
    var all := Missing(op, answers.index, level);
    assert all == if op.san(level[0]) in answers.index then rest else [level[0]] + rest;
    assert forall n :: n in level <==> n == level[0] || n in level[1..];
    assert op.san(level[0]) !in answers.index ==>
        |all| == 1 + |rest|
        && (AllCreatable(op, all) <==> Creatable(op.spec, level[0]) && AllCreatable(op, rest));
    if op.san(level[0]) !in answers.index && GrantedUpTo(answers.outcomes, asked, asked + |all|) {
      assert Granted(answers.outcomes, asked);
    }
  }

  /** A level is processed without error exactly when it is smooth. */
  lemma {:induction false} LevelNoErrorIff(op: Operator, answers: Answers, m: Memory, level: seq<string>)
    requires !m.failed
    ensures !VisitAll(op, answers, m, level).failed <==> LevelSmooth(op, answers, m.nodes, |m.attempts|, level)
    decreases |level|
  {
    if level != [] {
      var m1 := Visit(op, answers, m, level[0]);
      LevelSmoothSplit(op, answers, m.nodes, |m.attempts|, level);
      VisitNoErrorIff(op, answers, m, level[0]);
      if m1.failed {
        FailureSticks(op, answers, m1, level[1..]);
      } else {
        VisitRefreshes(op, answers, m, level[0]);
        EnteredKept(m.nodes, m1.nodes, level[1..]);
        LevelNoErrorIff(op, answers, m1, level[1..]);
      }
    }
  }

  /** A refreshed level passes the completion check exactly when all its runs succeeded. */
  lemma RefreshedLevelChecks(op: Operator, index: Index, nodes: seq<NodeStatus>, level: seq<string>)
    requires Refreshed(op, index, nodes, level)
    ensures LevelSucceeded(op, index, level) <==> LevelComplete(nodes, level) && !LevelFailed(nodes, level)
    ensures LevelFailed(nodes, level) <==> exists n :: n in level && ListedFailed(op, index, n)
  {
    if LevelComplete(nodes, level) && !LevelFailed(nodes, level) {
      forall n | n in level ensures Succeeded(op, index, n) {
        assert NodeIn(nodes, n, PhaseNow(op, index, n));
      }
    }
    if n :| n in level && ListedFailed(op, index, n) {
      assert NodeIn(nodes, n, NodeFailed);
    }
  }

  /** How a pass ends, in terms of the frontier alone. */
  ghost predicate EndsAt(op: Operator, index: Index, levels: Levels, f: nat, ending: Ending) {
    match ending
    case Aborted => true
    case Through => f + 1 >= |levels|
    case Waiting => f + 1 < |levels| && forall n :: n in levels[f] ==> !ListedFailed(op, index, n)
    case FailFast(k) => k == f + 1 < |levels| && exists n :: n in levels[f] && ListedFailed(op, index, n)
  }

  /** Levels up to `k` done, the walk gets to process level `k`. */
  lemma WalkOpens(op: Operator, answers: Answers, m: Memory, levels: Levels, k: nat)
    requires k < |levels|
    requires k > 0 ==>
        Refreshed(op, answers.index, m.nodes, levels[k - 1])
        && LevelSucceeded(op, answers.index, levels[k - 1])
    ensures Walk(op, answers, m, levels, k) ==
      var m1 := VisitAll(op, answers, m, levels[k]);
      if m1.failed then (m1, Aborted) else Walk(op, answers, m1, levels, k + 1)
  {
    if k > 0 {
      RefreshedLevelChecks(op, answers.index, m.nodes, levels[k - 1]);
    }
  }

  /** Right after processing the frontier level, the walk stops. */
  lemma WalkCloses(op: Operator, answers: Answers, m: Memory, levels: Levels, f: nat)
    requires f < |levels| && !LevelSucceeded(op, answers.index, levels[f])
    requires Refreshed(op, answers.index, m.nodes, levels[f])
    ensures var (m', ending) := Walk(op, answers, m, levels, f + 1);
            m' == m && ending != Aborted && EndsAt(op, answers.index, levels, f, ending)
  {
    RefreshedLevelChecks(op, answers.index, m.nodes, levels[f]);
    if f + 1 < |levels| && !LevelFailed(m.nodes, levels[f]) {
      assert !LevelComplete(m.nodes, levels[f]);
    }
  }

  ghost predicate StopsAt(op: Operator, index: Index, m: Memory, levels: Levels, f: nat, m': Memory, ending: Ending) {
    && SameIds(m.nodes, m'.nodes)
    && m.attempts <= m'.attempts <= m.attempts + MissingAt(op, index, levels, f)
    && (ending != Aborted ==> m'.attempts == m.attempts + MissingAt(op, index, levels, f))
    && EndsAt(op, index, levels, f, ending)
  }

  /** From any level at or before the frontier on, the walk asks only for missing runs of the frontier level. */
  lemma {:induction false} WalkStopsAtFrontier(op: Operator, answers: Answers, m: Memory, levels: Levels, k: nat,
      f: nat)
    requires IsFrontier(op, answers.index, levels, f) && k <= f
    requires k > 0 ==> Refreshed(op, answers.index, m.nodes, levels[k - 1])
    ensures var (m', ending) := Walk(op, answers, m, levels, k);
            StopsAt(op, answers.index, m, levels, f, m', ending)
    decreases |levels| - k
  {
    var index := answers.index;
    if k < |levels| {
      assert k > 0 ==> LevelSucceeded(op, index, levels[k - 1]);
      WalkOpens(op, answers, m, levels, k);
      var m1 := VisitAll(op, answers, m, levels[k]);
      LevelRefreshes(op, answers, m, levels[k]);
      LevelAttempts(op, answers, m, levels[k]);
      if k < f {
        SucceededNothingMissing(op, index, levels[k]);
        assert m1.attempts == m.attempts;
        if !m1.failed {
          WalkStopsAtFrontier(op, answers, m1, levels, k + 1, f);
        }
      } else if !m1.failed {
        WalkCloses(op, answers, m1, levels, f);
      }
    }
  }

  lemma {:induction false} SucceededNothingMissing(op: Operator, index: Index, level: seq<string>)
    requires LevelSucceeded(op, index, level)
    ensures Missing(op, index, level) == []
  {
    if level != [] {
      assert Succeeded(op, index, level[0]);
      SucceededNothingMissing(op, index, level[1..]);
    }
  }

  lemma {:induction false} FrontierExists(op: Operator, index: Index, levels: Levels, k: nat) returns (f: nat)
    requires k <= |levels| && LevelsSucceeded(op, index, levels, k)
    ensures IsFrontier(op, index, levels, f)
    decreases |levels| - k
  {
    f := k;
    if k < |levels| && LevelSucceeded(op, index, levels[k]) {
      f := FrontierExists(op, index, levels, k + 1);
    }
  }

  /** The levels up to the frontier have entries, and the frontier's missing runs can be and are created. */
  ghost predicate Smooth(op: Operator, status: GraphStatus, answers: Answers, f: nat) {
    SmoothFrom(op, answers, status.nodes, status.levels, 0, f)
  }

  ghost predicate SmoothFrom(op: Operator, answers: Answers, nodes: seq<NodeStatus>, levels: Levels, k: nat, f: nat) {
    && (forall j :: k <= j <= f && j < |levels| ==> Entered(nodes, levels[j]))
    && AllCreatable(op, MissingAt(op, answers.index, levels, f))
    && GrantedUpTo(answers.outcomes, 0, |MissingAt(op, answers.index, levels, f)|)
  }

  /** The decision of a pass: asks for missing runs of the frontier level only, and for all of them unless it errs. */
  lemma PassAsksForFrontier(op: Operator, status: GraphStatus, answers: Answers, f: nat)
    requires Processes(status) && IsFrontier(op, answers.index, status.levels, f)
    ensures Attempts(op, status, answers) <= MissingAt(op, answers.index, status.levels, f)
    ensures Walked(op, status, answers).1 != Aborted ==>
              Attempts(op, status, answers) == MissingAt(op, answers.index, status.levels, f)
    ensures EndsAt(op, answers.index, status.levels, f, Walked(op, status, answers).1)
  {
    WalkStopsAtFrontier(op, answers, Start(status), status.levels, 0, f);
    assert [] + MissingAt(op, answers.index, status.levels, f) == MissingAt(op, answers.index, status.levels, f);
  }

  /**
   Dependency safety of one pass: a run is asked for only when every earlier level is listed as
   entirely succeeded.
   */
  lemma AskedOnlyAfterEarlierLevels(op: Operator, status: GraphStatus, answers: Answers, n: string) returns (k: nat)
    requires n in Attempts(op, status, answers)
    ensures k < |status.levels| && n in status.levels[k] && op.san(n) !in answers.index
    ensures LevelsSucceeded(op, answers.index, status.levels, k)
  {
    k := FrontierExists(op, answers.index, status.levels, 0);
    PassAsksForFrontier(op, status, answers, k);
    assert n in MissingAt(op, answers.index, status.levels, k);
    MissingSound(op, answers.index, status.levels[k], n);
  }

  /** From level `k` on, the walk ends without error exactly when what is left is smooth. */
  lemma {:induction false} WalkNoErrorIff(op: Operator, answers: Answers, m: Memory, levels: Levels, k: nat, f: nat)
    requires IsFrontier(op, answers.index, levels, f) && k <= f && !m.failed && m.attempts == []
    requires k > 0 ==> Refreshed(op, answers.index, m.nodes, levels[k - 1])
    ensures k < |levels| ==> (Walk(op, answers, m, levels, k).1 != Aborted <==>
        SmoothFrom(op, answers, m.nodes, levels, k, f))
    decreases |levels| - k
  {
    var index := answers.index;
    if k < |levels| {
      var m1 := VisitAll(op, answers, m, levels[k]);
      assert k > 0 ==> LevelSucceeded(op, index, levels[k - 1]);
      WalkOpens(op, answers, m, levels, k);
      LevelNoErrorIff(op, answers, m, levels[k]);
      LevelRefreshes(op, answers, m, levels[k]);
      LevelAttempts(op, answers, m, levels[k]);
      if k < f {
        SucceededNothingMissing(op, index, levels[k]);
        assert !m1.failed <==> Entered(m.nodes, levels[k]);
        if !m1.failed {
          WalkOn(op, answers, m, m1, levels, k, f);
        }
      } else if !m1.failed {
        WalkCloses(op, answers, m1, levels, f);
        LastLevelSmooth(op, answers, m.nodes, levels, f);
      }
    }
  }

  lemma LastLevelSmooth(op: Operator, answers: Answers, nodes: seq<NodeStatus>, levels: Levels, f: nat)
    requires f < |levels|
    ensures SmoothFrom(op, answers, nodes, levels, f, f) <==> LevelSmooth(op, answers, nodes, 0, levels[f])
  {
  }

  /** The step of that induction: past a succeeded level. */
  lemma {:induction false} WalkOn(op: Operator, answers: Answers, m: Memory, m1: Memory, levels: Levels, k: nat, f: nat)
    requires IsFrontier(op, answers.index, levels, f) && k < f
    requires !m1.failed && m1.attempts == [] && Refreshed(op, answers.index, m1.nodes, levels[k])
    requires SameIds(m.nodes, m1.nodes) && Entered(m.nodes, levels[k])
    ensures Walk(op, answers, m1, levels, k + 1).1 != Aborted <==> SmoothFrom(op, answers, m.nodes, levels, k, f)
    decreases |levels| - k, 0
  {
    forall j | k <= j <= f && j < |levels| ensures Entered(m.nodes, levels[j]) <==> Entered(m1.nodes, levels[j]) {
      EnteredKept(m.nodes, m1.nodes, levels[j]);
    }
    if k + 1 < |levels| {
      WalkNoErrorIff(op, answers, m1, levels, k + 1, f);
    }
  }

  /**
   Frontier refinement: a pass meets no error exactly when it is smooth at the frontier, and then it
   asks for exactly the missing runs of the frontier.
   */
  lemma FrontierRefinement(op: Operator, status: GraphStatus, answers: Answers, f: nat)
    requires Processes(status) && IsFrontier(op, answers.index, status.levels, f)
    ensures Walked(op, status, answers).1 != Aborted <==> Smooth(op, status, answers, f)
    ensures Smooth(op, status, answers, f) ==>
        Attempts(op, status, answers) ==
        MissingAt(op, answers.index, status.levels, f)
  {
    WalkNoErrorIff(op, answers, Start(status), status.levels, 0, f);
    PassAsksForFrontier(op, status, answers, f);
  }

  // ---------------------------------------------------------------------------------------
  // Two passes told the same

  ghost predicate SameEntries(a: seq<NodeStatus>, b: seq<NodeStatus>) {
    forall n :: Find(a, n).Some? <==> Find(b, n).Some?
  }

  ghost predicate SameRequests(a: Memory, b: Memory) {
    a.attempts == b.attempts && a.failed == b.failed && SameEntries(a.nodes, b.nodes)
  }

  lemma VisitsAlike(op: Operator, answers: Answers, a: Memory, b: Memory, n: string)
    requires SameRequests(a, b) && !a.failed
    ensures SameRequests(Visit(op, answers, a, n), Visit(op, answers, b, n))
  {
    var a', b' := Visit(op, answers, a, n), Visit(op, answers, b, n);
    VisitRefreshes(op, answers, a, n);
    VisitRefreshes(op, answers, b, n);
    forall m ensures Find(a'.nodes, m) == Find(a.nodes, m) && Find(b'.nodes, m) == Find(b.nodes, m) {
      SameIdsFind(a.nodes, a'.nodes, m);
      SameIdsFind(b.nodes, b'.nodes, m);
    }
    assert Find(a.nodes, n).Some? <==> Find(b.nodes, n).Some?;
  }

  lemma {:induction false} LevelsAlike(op: Operator, answers: Answers, a: Memory, b: Memory, level: seq<string>)
    requires SameRequests(a, b)
    ensures SameRequests(VisitAll(op, answers, a, level), VisitAll(op, answers, b, level))
    decreases |level|
  {
    if level != [] && !a.failed {
      VisitsAlike(op, answers, a, b, level[0]);
      LevelsAlike(op, answers, Visit(op, answers, a, level[0]), Visit(op, answers, b, level[0]), level[1..]);
    }
  }

  lemma {:induction false} WalksAlike(op: Operator, answers: Answers, a: Memory, b: Memory, levels: Levels, k: nat)
    requires SameRequests(a, b) && k <= |levels|
    requires k > 0 ==>
        Refreshed(op, answers.index, a.nodes, levels[k - 1])
        && Refreshed(op, answers.index, b.nodes, levels[k - 1])
    ensures SameRequests(Walk(op, answers, a, levels, k).0, Walk(op, answers, b, levels, k).0)
    ensures Walk(op, answers, a, levels, k).1 == Walk(op, answers, b, levels, k).1
    decreases |levels| - k
  {
    if k > 0 {
      RefreshedLevelChecks(op, answers.index, a.nodes, levels[k - 1]);
      RefreshedLevelChecks(op, answers.index, b.nodes, levels[k - 1]);
    }
    if k < |levels| {
      var a', b' := VisitAll(op, answers, a, levels[k]), VisitAll(op, answers, b, levels[k]);
      LevelsAlike(op, answers, a, b, levels[k]);
      LevelRefreshes(op, answers, a, levels[k]);
      LevelRefreshes(op, answers, b, levels[k]);
      if !a'.failed {
        WalksAlike(op, answers, a', b', levels, k + 1);
      }
    }
  }

  /**
   Stored node phases, run references, times and summary never influence a decision, whatever the
   answers and errors: two statuses with the same levels and entries for the same nodes lead to the
   same requests and the same ending, so losing a status write changes no later decision.
   */
  lemma LostWritesChangeNoDecision(op: Operator, a: GraphStatus, b: GraphStatus, answers: Answers)
    requires Processes(a) && Processes(b) && a.levels == b.levels && SameEntries(a.nodes, b.nodes)
    ensures Attempts(op, a, answers) == Attempts(op, b, answers)
    ensures Walked(op, a, answers).1 == Walked(op, b, answers).1
  {
    WalksAlike(op, answers, Start(a), Start(b), a.levels, 0);
  }
}
