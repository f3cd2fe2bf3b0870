/** Continuing an execution of the whole system by one pass, or by part of one. */
module GraphSessions {
  import opened Common
  import opened GraphTypes
  import opened GraphPass
  import opened GraphSystem
  import opened GraphSafety
  import opened GraphFailFast

  /** A graph run nobody has reconciled yet. */
  function NewGraph(): GraphStatus {
    GraphStatus(Unset, None, None, Summary(0, 0, 0, 0, 0), [], [])
  }

  ghost predicate Ready(d: Discipline, op: Operator, run: seq<System>) {
    Execution(op, run) && Obeys(d, op, run) && Last(run).graph != [] && Last(run).runs != []
  }

  function Later(l: nat, newest: nat): nat {
    if l > newest then l else newest
  }

  lemma Grows(d: Discipline, op: Operator, run: seq<System>, s': System)
    requires Execution(op, run) && Obeys(d, op, run)
    requires Next(op, Last(run), s') && PermittedStep(d, op, Last(run), s')
    ensures Execution(op, run + [s']) && Obeys(d, op, run + [s']) && Last(run + [s']) == s'
  {
    var run' := run + [s'];
    forall i | 0 <= i < |run'| - 1 ensures Next(op, run'[i], run'[i + 1])
        && PermittedStep(d, op, run'[i], run'[i + 1]) {
      if i < |run| - 1 {
        assert Next(op, run[i], run[i + 1]) && PermittedStep(d, op, run[i], run[i + 1]);
      }
    }
  }

  /** A step after which no new pass is in flight begins none. */
  lemma BeginsNone(d: Discipline, op: Operator, s: System, s': System)
    requires s'.active.Keys <= s.active.Keys
    ensures PermittedStep(d, op, s, s')
  {
    assert forall pass, f :: Begin(op, s, s', pass, f) ==> pass in s'.active && pass !in s.active;
  }

  /** Pass `p` fetches version `v` and lists state `l`. */
  lemma Begins(d: Discipline, op: Operator, run: seq<System>, p: nat, v: nat, l: nat, items: seq<ScenarioRun>)
    returns (run': seq<System>)
    requires Ready(d, op, run) && p !in Last(run).active
    requires v < |Last(run).graph| && l < |Last(run).runs| && Lists(op, Last(run).runs[l], items)
    requires Permits(d, Last(run), InFlight(v, l, items, []))
    ensures Ready(d, op, run')
    ensures Last(run') == var s := Last(run);
              s.(active := s.active[p := InFlight(v, l, items, [])], newestList := Later(l, s.newestList))
  {
    var s, f := Last(run), InFlight(v, l, items, []);
    var s' := s.(active := s.active[p := f], newestList := Later(l, s.newestList));
    assert Begin(op, s, s', p, f);
    forall q, g | Begin(op, s, s', q, g) ensures Permits(d, s, g) {
      assert q in s'.active && q == p && s'.active[q] == g;
    }
    Grows(d, op, run, s');
    run' := run + [s'];
  }

  /** Pass `p`, whose requests are all answered and which fetched the newest status, has its first status stored. */
  lemma Writes(d: Discipline, op: Operator, run: seq<System>, p: nat, f: InFlight, inputs: PassInputs)
    returns (run': seq<System>)
    requires Ready(d, op, run) && p in Last(run).active && Last(run).active[p] == f
    requires f.readAt + 1 == |Last(run).graph|
    requires Enumerates(inputs.order, ExecutableNodes(op.spec.graph)) && inputs.answers == AnswersOf(f)
    requires |Attempts(op, Last(run).graph[f.readAt], AnswersOf(f))| <= |f.outcomes|
    requires Submitted(op, Last(run).graph[f.readAt], inputs) != []
    ensures Ready(d, op, run')
    ensures Last(run') == var s := Last(run);
              s.(active := s.active - {p}, graph := s.graph + [Submitted(op, s.graph[f.readAt], inputs)[0]])
  {
    var s := Last(run);
    var s' := s.(active := s.active - {p}, graph := s.graph + [Submitted(op, s.graph[f.readAt], inputs)[0]]);
    assert Write(op, s, s', p, inputs, 0);
    BeginsNone(d, op, s, s');
    Grows(d, op, run, s');
    run' := run + [s'];
  }

  /** The next request of pass `p` is stored and answered. */
  lemma Answered(d: Discipline, op: Operator, run: seq<System>, p: nat, f: InFlight, n: string)
    returns (run': seq<System>)
    requires Ready(d, op, run) && p in Last(run).active && Last(run).active[p] == f
    requires f.readAt < |Last(run).graph| && |f.outcomes| < |Attempts(op, Last(run).graph[f.readAt], AnswersOf(f))|
    requires Attempts(op, Last(run).graph[f.readAt], AnswersOf(f))[|f.outcomes|] == n
        && ObjectName(op, n) !in Newest(Last(run))
    ensures Ready(d, op, run')
    ensures Last(run') == var s := Last(run);
              System(s.graph, s.runs + [Newest(s)[ObjectName(op, n) := NewRun(op, n)]],
                  s.active[p := f.(outcomes := f.outcomes + [true])],
                     s.log + [Creation(n, f.readAt, f.listAt, |s.runs|)], s.newestList)
  {
    var s := Last(run);
    var s' := System(s.graph, s.runs + [Newest(s)[ObjectName(op, n) := NewRun(op, n)]],
        s.active[p := f.(outcomes := f.outcomes + [true])],
                     s.log + [Creation(n, f.readAt, f.listAt, |s.runs|)], s.newestList);
    assert Create(op, s, s', p, true, true);
    BeginsNone(d, op, s, s');
    Grows(d, op, run, s');
    run' := run + [s'];
  }

  /** Pass `p` asks for one node, whose run is stored, and crashes before it writes its status. */
  lemma Creates(d: Discipline, op: Operator, run: seq<System>, p: nat, f: InFlight, n: string)
    returns (run': seq<System>)
    requires Ready(d, op, run) && p in Last(run).active && Last(run).active[p] == f
    requires f.readAt < |Last(run).graph| && f.outcomes == []
    requires Attempts(op, Last(run).graph[f.readAt], AnswersOf(f)) == [n] && ObjectName(op, n) !in Newest(Last(run))
    ensures Ready(d, op, run')
    ensures Last(run') == var s := Last(run);
              System(s.graph, s.runs + [Newest(s)[ObjectName(op, n) := NewRun(op, n)]], s.active - {p},
                     s.log + [Creation(n, f.readAt, f.listAt, |s.runs|)], s.newestList)
  {
    var created := Answered(d, op, run, p, f, n);
    var s' := Last(created);
    var s'' := s'.(active := s'.active - {p});
    assert Lose(s', s'', p);
    BeginsNone(d, op, s', s'');
    Grows(d, op, created, s'');
    run' := created + [s''];
    assert s'.active - {p} == Last(run).active - {p};
  }

  /** The scenario runs' own controller changes phases. */
  lemma RunsMove(d: Discipline, op: Operator, run: seq<System>, runs: Runs) returns (run': seq<System>)
    requires Ready(d, op, run) && Labelled(op, runs) && runs.Keys == Newest(Last(run)).Keys
    requires forall name :: name in runs ==> Ours(op, Newest(Last(run))[name])
    ensures Ready(d, op, run')
    ensures Last(run') == Last(run).(runs := Last(run).runs + [runs])
  {
    var s := Last(run);
    var s' := s.(runs := s.runs + [runs]);
    assert Environment(op, s, s', runs);
    BeginsNone(d, op, s, s');
    Grows(d, op, run, s');
    run' := run + [s'];
  }

  /** A whole pass alone: it asks for nothing and its first status is stored. */
  lemma PassWrites(d: Discipline, op: Operator, run: seq<System>, l: nat, items: seq<ScenarioRun>,
      inputs: PassInputs) returns (run': seq<System>)
    requires Ready(d, op, run) && Last(run).active == map[]
    requires l < |Last(run).runs| && Lists(op, Last(run).runs[l], items)
        && (l >= Last(run).newestList || d.olderListing)
    requires Enumerates(inputs.order, ExecutableNodes(op.spec.graph)) && inputs.answers == Answers(IndexOf(items), [])
    requires var status := Last(run).graph[|Last(run).graph| - 1];
             Attempts(op, status, inputs.answers) == [] && Submitted(op, status, inputs) != []
    ensures Ready(d, op, run')
    ensures Last(run') == var s := Last(run);
              s.(graph := s.graph + [Submitted(op, s.graph[|s.graph| - 1], inputs)[0]],
                  newestList := Later(l, s.newestList))
  {
    var v := |Last(run).graph| - 1;
    run' := Begins(d, op, run, 0, v, l, items);
    run' := Writes(d, op, run', 0, InFlight(v, l, items, []), inputs);
    assert map[][0 := InFlight(v, l, items, [])] - {0} == map[];
  }

  /** A whole pass alone that asks for one node and crashes. */
  lemma PassCreates(d: Discipline, op: Operator, run: seq<System>, v: nat, l: nat, items: seq<ScenarioRun>,
      n: string) returns (run': seq<System>)
    requires Ready(d, op, run) && Last(run).active == map[]
    requires v < |Last(run).graph| && (v + 1 == |Last(run).graph| || d.olderStatus)
    requires l < |Last(run).runs| && Lists(op, Last(run).runs[l], items)
        && (l >= Last(run).newestList || d.olderListing)
    requires Attempts(op, Last(run).graph[v], Answers(IndexOf(items), [])) == [n]
        && ObjectName(op, n) !in Newest(Last(run))
    ensures Ready(d, op, run')
    ensures Last(run') == var s := Last(run);
              System(s.graph, s.runs + [Newest(s)[ObjectName(op, n) := NewRun(op, n)]], map[],
                     s.log + [Creation(n, v, l, |s.runs|)], Later(l, s.newestList))
  {
    run' := Begins(d, op, run, 0, v, l, items);
    run' := Creates(d, op, run', 0, InFlight(v, l, items, []), n);
    assert map[][0 := InFlight(v, l, items, [])] - {0} == map[];
  }

  // ---------------------------------------------------------------------------------------
  // All requests of a pass granted

  function Trues(k: nat): seq<bool> {
    seq(k, _ => true)
  }

  /** With `k` requests granted, the next one is for `level[k]`. */
  ghost predicate AsksAt(op: Operator, status: GraphStatus, index: Index, level: seq<string>, k: nat)
    requires k < |level|
  {
    var asked := Attempts(op, status, Answers(index, Trues(k)));
    k < |asked| && asked[k] == level[k]
  }

  /** The nodes from `k` on have names of their own. */
  ghost predicate FreeNames(op: Operator, runs: Runs, level: seq<string>, k: nat) {
    && (forall j :: k <= j < |level| ==> ObjectName(op, level[j]) !in runs)
    && (forall i, j :: k <= i < j < |level| ==> ObjectName(op, level[i]) != ObjectName(op, level[j]))
  }

  function Added(op: Operator, runs: Runs, level: seq<string>, k: nat): Runs
    requires k <= |level|
    decreases |level| - k
  {
    if k == |level| then runs else Added(op, runs[ObjectName(op, level[k]) := NewRun(op, level[k])], level, k + 1)
  }

  /** Requests `k` and later of pass `p` are all stored and answered. */
  lemma {:induction false} AllAnswered(d: Discipline, op: Operator, run: seq<System>, p: nat, f: InFlight,
      level: seq<string>, k: nat) returns (run': seq<System>)
    requires Ready(d, op, run) && p in Last(run).active && Last(run).active[p] == f && f.outcomes == Trues(k)
    requires f.readAt < |Last(run).graph| && k <= |level|
    requires forall j :: k <= j < |level| ==> AsksAt(op, Last(run).graph[f.readAt], IndexOf(f.items), level, j)
    requires FreeNames(op, Newest(Last(run)), level, k)
    ensures Ready(d, op, run') && |Last(run').runs| >= |Last(run).runs|
    ensures Last(run').graph == Last(run).graph && Last(run').newestList == Last(run).newestList
    ensures Last(run').active == Last(run).active[p := f.(outcomes := Trues(|level|))]
    ensures Newest(Last(run')) == Added(op, Newest(Last(run)), level, k)
    decreases |level| - k
  {
    run' := run;
    if k < |level| {
      assert AsksAt(op, Last(run).graph[f.readAt], IndexOf(f.items), level, k);
      run' := Answered(d, op, run, p, f, level[k]);
      var f' := f.(outcomes := f.outcomes + [true]);
      assert f'.outcomes == Trues(k + 1);
      assert Last(run').active == Last(run).active[p := f'];
      run' := AllAnswered(d, op, run', p, f', level, k + 1);
    }
  }

  /** A whole pass alone that asks for the nodes of `level`, gets them all and stores its first status. */
  lemma PassAdds(d: Discipline, op: Operator, run: seq<System>, l: nat, items: seq<ScenarioRun>, level: seq<string>,
      inputs: PassInputs) returns (run': seq<System>)
    requires Ready(d, op, run) && Last(run).active == map[]
    requires l < |Last(run).runs| && Lists(op, Last(run).runs[l], items) && l >= Last(run).newestList
    requires Enumerates(inputs.order, ExecutableNodes(op.spec.graph))
        && inputs.answers == Answers(IndexOf(items), Trues(|level|))
    requires var status := Last(run).graph[|Last(run).graph| - 1];
             && (forall j :: 0 <= j < |level| ==> AsksAt(op, status, IndexOf(items), level, j))
             && |Attempts(op, status, inputs.answers)| <= |level| && Submitted(op, status, inputs) != []
    requires FreeNames(op, Newest(Last(run)), level, 0)
    ensures Ready(d, op, run') && Last(run').active == map[]
    ensures Last(run').graph == Last(run).graph + [Submitted(op, Last(run).graph[|Last(run).graph| - 1], inputs)[0]]
    ensures Newest(Last(run')) == Added(op, Newest(Last(run)), level, 0)
    ensures Last(run').newestList == l && l < |Last(run').runs|
  {
    var v := |Last(run).graph| - 1;
    var f := InFlight(v, l, items, []);
    run' := Begins(d, op, run, 0, v, l, items);
    assert Trues(0) == [];
    run' := AllAnswered(d, op, run', 0, f, level, 0);
    var f' := f.(outcomes := Trues(|level|));
    assert Last(run').active == map[0 := f'];
    run' := Writes(d, op, run', 0, f', inputs);
    assert map[0 := f'] - {0} == map[];
  }
}
